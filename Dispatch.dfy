/**
  The interaction rules of the bot as functions of the session map and one
  event: `start`, `button` and `handle_message`. Each step yields the new
  session map, the responses in the order they are sent and the rate
  lookups in the order they are made. The two rate services are oracles:
  whatever they answer, the rules below say what is sent and kept.
 */
module Dispatch {
  import opened Wrappers
  import opened Text
  import opened Numbers
  import opened Conversion
  import opened Menus

  type UserId = int

  /** A stored session value: `'awaiting_conversion'`, or the `None` that a
      successful conversion writes back. A user never seen has no entry. */
  datatype Flag = AwaitingConversion | Cleared

  type States = map<UserId, Flag>

  /** `user_states.get(user_id) == 'awaiting_conversion'` */
  predicate Awaiting(states: States, user: UserId)
  {
    user in states && states[user] == AwaitingConversion
  }

  /** The kinds of text the bot sends. */
  datatype Message =
    | Greeting(name: string)
    | ChooseCategory
    | ChooseCurrency
    | ChooseCrypto
    | ConverterHint
    | FiatRate(base: string, rate: real)
    | FiatRateFailed(base: string)
    | CryptoRate(symbol: string, rate: real)
    | CryptoRateFailed(symbol: string)
    | Converted(amount: real, base: string, converted: real, target: string)
    | ConversionRateFailed
    | FormatHint
    | WhatNext
    | InvalidInput

  /** `edit_message_text` of the pressed message, with a keyboard, or
      `reply_text` with an optional keyboard. */
  datatype Response = Edit(message: Message, screen: Screen) | Reply(message: Message, menu: Option<Screen>)

  /** One call of `get_exchange_rate(base, target)` or `get_crypto_rate(coin)`. */
  datatype Query = FiatQuery(base: string, target: string) | CryptoQuery(coinId: string)

  /** What one event does. */
  datatype Effect = Effect(states: States, sent: seq<Response>, queries: seq<Query>)

  type FiatOracle = (string, string) -> Option<real>

  type CryptoOracle = string -> Option<real>

  /** Python's `if rate`: a missing rate and a zero rate both fail. */
  predicate Truthy(rate: Option<real>)
  {
    rate.Some? && rate.value != 0.0
  }

  /** The default target of `get_exchange_rate`. */
  const DefaultTarget: string := "RUB"

  const NavTokens: set<Token> := {"currency", "crypto", "main", "converter"}

  const FiatTokens: set<Token> := {"usd", "eur", "gbp"}

  /** `crypto_map`, with each `get_*_rate` helper replaced by the coin id it
      passes to `get_crypto_rate`. */
  const CryptoMap: map<Token, string> := map[
    "btc" := "bitcoin",
    "eth" := "ethereum",
    "bnb" := "binancecoin",
    "xrp" := "ripple",
    "sol" := "solana",
    "ada" := "cardano",
    "doge" := "dogecoin",
    "dot" := "polkadot",
    "trx" := "tron",
    "link" := "chainlink"
  ]

  predicate IsKnownToken(data: Token)
  {
    data in NavTokens || data in FiatTokens || data in CryptoMap
  }

  /** What a button press asks for. */
  datatype Action =
    | Navigate(screen: Screen)
    | OpenConverter
    | QuoteFiat(base: string)
    | QuoteCrypto(symbol: string, coinId: string)

  /** The dispatch table of `button`. */
  function Classify(data: Token): (a: Option<Action>)
    ensures a.Some? <==> IsKnownToken(data)
    ensures a == Some(OpenConverter) <==> data == "converter"
    ensures a.Some? && a.value.QuoteFiat? <==> data in FiatTokens
    ensures a.Some? && a.value.QuoteCrypto? <==> data in CryptoMap
  {
    if data == "currency" then Some(Navigate(Currency))
    else if data == "crypto" then Some(Navigate(Crypto))
    else if data == "main" then Some(Navigate(Main))
    else if data == "converter" then Some(OpenConverter)
    else if data in FiatTokens then Some(QuoteFiat(Upper(data)))
    else if data in CryptoMap then Some(QuoteCrypto(Upper(data), CryptoMap[data]))
    else None
  }

  /** The text shown with a re-rendered menu. */
  function Prompt(s: Screen): Message
  {
    match s
    case Main => ChooseCategory
    case Currency => ChooseCurrency
    case Crypto => ChooseCrypto
    case Converter => ConverterHint
  }

  function FiatMessage(base: string, rate: Option<real>): (m: Message)
    ensures m.FiatRateFailed? <==> !Truthy(rate)
  {
    if Truthy(rate) then FiatRate(base, rate.value) else FiatRateFailed(base)
  }

  function CryptoMessage(symbol: string, rate: Option<real>): (m: Message)
    ensures m.CryptoRateFailed? <==> !Truthy(rate)
  {
    if Truthy(rate) then CryptoRate(symbol, rate.value) else CryptoRateFailed(symbol)
  }

  /** `button`: one press of `data` by `user`. */
  function ButtonStep(states: States, user: UserId, data: Token,
                      fiat: FiatOracle, crypto: CryptoOracle): Effect
  {
    match Classify(data)
    case None => Effect(states, [], [])
    case Some(Navigate(s)) => Effect(states, [Edit(Prompt(s), s)], [])
    case Some(OpenConverter) =>
      Effect(states[user := AwaitingConversion], [Edit(ConverterHint, Converter)], [])
    case Some(QuoteFiat(base)) =>
      Effect(states, [Edit(FiatMessage(base, fiat(base, DefaultTarget)), Currency)],
             [FiatQuery(base, DefaultTarget)])
    case Some(QuoteCrypto(symbol, coin)) =>
      Effect(states, [Edit(CryptoMessage(symbol, crypto(coin)), Crypto)], [CryptoQuery(coin)])
  }

  /** `handle_message`: one text from `user`. */
  function MessageStep(states: States, user: UserId, text: string, fiat: FiatOracle): Effect
  {
    if !Awaiting(states, user) then Effect(states, [Reply(InvalidInput, None)], [])
    else
      match ParseConversion(text)
      case None => Effect(states, [Reply(FormatHint, None)], [])
      case Some(req) => ConvertStep(states, user, req, fiat)
  }

  /** The lookup and the reply for a parsed request. */
  function ConvertStep(states: States, user: UserId, req: ConversionRequest, fiat: FiatOracle): Effect
  {
    var rate := fiat(req.base, req.target);
    var query := [FiatQuery(req.base, req.target)];
    if Truthy(rate) then
      Effect(states[user := Cleared],
             [ Reply(Converted(req.amount, req.base, ConvertedSum(req.amount, rate.value), req.target), None),
               Reply(WhatNext, Some(Main)) ],
             query)
    else Effect(states, [Reply(ConversionRateFailed, None)], query)
  }

  /** The name `start` greets: the first name, or the fallback when it is
      missing or empty. */
  function GreetingName(firstName: Option<string>): (name: string)
    ensures name != []
    ensures firstName.Some? && firstName.value != [] ==> name == firstName.value
  {
    if firstName.Some? && firstName.value != [] then firstName.value else "пользователь"
  }

  /** `start`: the greeting with the main menu. */
  function StartReply(firstName: Option<string>): Response
  {
    Reply(Greeting(GreetingName(firstName)), Some(Main))
  }

  // ---------------------------------------------------------------------
  // The tables agree with each other and with the menus

  /** Navigation, fiat and crypto tokens are three disjoint sets, so the
      `if`/`elif` chain and the separate `crypto_map` test of `button` never
      both fire. */
  lemma TokenSetsDisjoint()
    ensures NavTokens !! FiatTokens
    ensures NavTokens !! CryptoMap.Keys
    ensures FiatTokens !! CryptoMap.Keys
  {
  }

  /** There are ten coin tokens. */
  lemma CryptoMapSize()
    ensures |CryptoMap.Keys| == 10
  {
    var s := {"btc"};
    assert "eth" !in s; s := s + {"eth"};
    assert "bnb" !in s; s := s + {"bnb"};
    assert "xrp" !in s; s := s + {"xrp"};
    assert "sol" !in s; s := s + {"sol"};
    assert "ada" !in s; s := s + {"ada"};
    assert "doge" !in s; s := s + {"doge"};
    assert "dot" !in s; s := s + {"dot"};
    assert "trx" !in s; s := s + {"trx"};
    assert "link" !in s; s := s + {"link"};
    assert CryptoMap.Keys == s;
  }

  /** Different coin tokens name different coins. */
  lemma CryptoMapIsInjective()
    ensures forall a, b :: a in CryptoMap && b in CryptoMap && a != b ==> CryptoMap[a] != CryptoMap[b]
  {
  }

  /** The coin ids are the ten the crypto price service is asked about. */
  lemma CryptoCoinIds()
    ensures CryptoMap.Values == {"bitcoin", "ethereum", "binancecoin", "ripple", "solana",
                                 "cardano", "dogecoin", "polkadot", "tron", "chainlink"}
  {
    var m := CryptoMap;
    assert m["btc"] == "bitcoin" && m["eth"] == "ethereum" && m["bnb"] == "binancecoin";
    assert m["xrp"] == "ripple" && m["sol"] == "solana" && m["ada"] == "cardano";
    assert m["doge"] == "dogecoin" && m["dot"] == "polkadot" && m["trx"] == "tron" && m["link"] == "chainlink";
    assert m.Keys == {"btc", "eth", "bnb", "xrp", "sol", "ada", "doge", "dot", "trx", "link"};
  }

  /** The coin buttons of the crypto menu are exactly the keys of
      `crypto_map`, and the quote buttons of the currency menu exactly the
      fiat tokens. */
  lemma MenusMatchTables()
    ensures (set i, j | 0 <= i < 5 && 0 <= j < |CryptoMenu()[i]| :: CryptoMenu()[i][j]) == CryptoMap.Keys
    ensures (set i | 0 <= i < 3 :: CurrencyMenu()[i][0]) == FiatTokens
  {
    var k := CryptoMenu();
    var coins := set i, j | 0 <= i < 5 && 0 <= j < |k[i]| :: k[i][j];
    forall t | t in CryptoMap.Keys ensures t in coins {
      if t == "btc" { assert k[0][0] == t; }
      else if t == "eth" { assert k[0][1] == t; }
      else if t == "bnb" { assert k[1][0] == t; }
      else if t == "xrp" { assert k[1][1] == t; }
      else if t == "sol" { assert k[2][0] == t; }
      else if t == "ada" { assert k[2][1] == t; }
      else if t == "doge" { assert k[3][0] == t; }
      else if t == "dot" { assert k[3][1] == t; }
      else if t == "trx" { assert k[4][0] == t; }
      else { assert k[4][1] == t; }
    }
    var c := CurrencyMenu();
    var quotes := set i | 0 <= i < 3 :: c[i][0];
    assert c[0][0] == "usd" && c[1][0] == "eur" && c[2][0] == "gbp";
  }

  /** Every button of every menu is handled by the dispatcher. */
  lemma MenuTokensAreKnown(s: Screen, t: Token)
    requires t in Tokens(Layout(s))
    ensures IsKnownToken(t)
  {
    var k := Layout(s);
    var i, j :| 0 <= i < |k| && 0 <= j < |k[i]| && k[i][j] == t;
    CellIsKnown(s, i, j);
  }

  lemma CellIsKnown(s: Screen, i: nat, j: nat)
    requires i < |Layout(s)| && j < |Layout(s)[i]|
    ensures IsKnownToken(Layout(s)[i][j])
  {
    if s == Crypto {
      CryptoCellIsKnown(i, j);
    }
  }

  lemma CryptoCellIsKnown(i: nat, j: nat)
    requires i < |CryptoMenu()| && j < |CryptoMenu()[i]|
    ensures CryptoMenu()[i][j] in CryptoMap || CryptoMenu()[i][j] == "main"
  {
    CryptoMenuShape();
  }

  /** Each navigation token renders the screen it names, with its prompt,
      and changes nothing and looks nothing up. */
  lemma NavigationTargets(states: States, user: UserId, fiat: FiatOracle, crypto: CryptoOracle)
    ensures ButtonStep(states, user, "main", fiat, crypto) == Effect(states, [Edit(ChooseCategory, Main)], [])
    ensures ButtonStep(states, user, "currency", fiat, crypto) == Effect(states, [Edit(ChooseCurrency, Currency)], [])
    ensures ButtonStep(states, user, "crypto", fiat, crypto) == Effect(states, [Edit(ChooseCrypto, Crypto)], [])
  {
    assert Classify("main") == Some(Navigate(Main));
    assert Classify("currency") == Some(Navigate(Currency));
    assert Classify("crypto") == Some(Navigate(Crypto));
  }

  // ---------------------------------------------------------------------
  // Button presses

  /** Pressing `converter` puts that user, and no one else, in the
      converter state and shows the converter screen; nothing is looked up. */
  lemma ConverterButton(states: States, user: UserId, fiat: FiatOracle, crypto: CryptoOracle)
    ensures var e := ButtonStep(states, user, "converter", fiat, crypto);
      && Awaiting(e.states, user)
      && e.states.Keys == states.Keys + {user}
      && (forall u :: u in states && u != user ==> e.states[u] == states[u])
      && e.sent == [Edit(ConverterHint, Converter)]
      && e.queries == []
  {
  }

  /** No other button changes the session map. */
  lemma OtherButtonsKeepStates(states: States, user: UserId, data: Token, fiat: FiatOracle, crypto: CryptoOracle)
    requires data != "converter"
    ensures ButtonStep(states, user, data, fiat, crypto).states == states
  {
  }

  /** A fiat quote asks the fiat service for the upper-cased token against
      the rouble, and shows the currency menu again whatever it answers. */
  lemma FiatButton(states: States, user: UserId, data: Token, fiat: FiatOracle, crypto: CryptoOracle)
    requires data in FiatTokens
    ensures var e := ButtonStep(states, user, data, fiat, crypto);
      var rate := fiat(Upper(data), "RUB");
      && e.queries == [FiatQuery(Upper(data), "RUB")]
      && e.sent == [Edit(if Truthy(rate) then FiatRate(Upper(data), rate.value) else FiatRateFailed(Upper(data)), Currency)]
      && e.states == states
  {
  }

  /** A coin quote asks the crypto service for exactly that coin's id and
      shows the crypto menu again whatever it answers. */
  lemma CryptoButton(states: States, user: UserId, data: Token, fiat: FiatOracle, crypto: CryptoOracle)
    requires data in CryptoMap
    ensures var e := ButtonStep(states, user, data, fiat, crypto);
      var rate := crypto(CryptoMap[data]);
      && e.queries == [CryptoQuery(CryptoMap[data])]
      && e.sent == [Edit(if Truthy(rate) then CryptoRate(Upper(data), rate.value) else CryptoRateFailed(Upper(data)), Crypto)]
      && e.states == states
  {
  }

  /** A known token edits the message exactly once; an unknown one does
      nothing at all. */
  lemma KnownTokenEditsOnce(states: States, user: UserId, data: Token, fiat: FiatOracle, crypto: CryptoOracle)
    ensures var e := ButtonStep(states, user, data, fiat, crypto);
      && (IsKnownToken(data) <==> |e.sent| == 1)
      && (forall r :: r in e.sent ==> r.Edit?)
      && |e.queries| <= 1
      && (!IsKnownToken(data) ==> e == Effect(states, [], []))
  {
  }

  /** Pressing `main` renders the same main menu every time, whatever the
      session map holds, and changes nothing. */
  lemma MainButtonIdempotent(s1: States, s2: States, user: UserId, fiat: FiatOracle, crypto: CryptoOracle)
    ensures var e1 := ButtonStep(s1, user, "main", fiat, crypto);
      var e2 := ButtonStep(e1.states, user, "main", fiat, crypto);
      && e1.sent == e2.sent == ButtonStep(s2, user, "main", fiat, crypto).sent == [Edit(ChooseCategory, Main)]
      && e2.states == e1.states == s1
  {
  }

  // ---------------------------------------------------------------------
  // Text messages

  /** A user who is not converting gets the generic error: no lookup, no
      change. */
  lemma TextWhenNotAwaiting(states: States, user: UserId, text: string, fiat: FiatOracle)
    requires !Awaiting(states, user)
    ensures MessageStep(states, user, text, fiat) == Effect(states, [Reply(InvalidInput, None)], [])
  {
  }

  /** A text that does not parse gets the format hint; the user stays in
      the converter state and nothing is looked up. */
  lemma TextThatDoesNotParse(states: States, user: UserId, text: string, fiat: FiatOracle)
    requires Awaiting(states, user) && ParseConversion(text).None?
    ensures MessageStep(states, user, text, fiat) == Effect(states, [Reply(FormatHint, None)], [])
  {
  }

  /** A parsed request without a usable rate (none, or zero): it is looked
      up once with its own codes, the user is told so and stays in the
      converter state. */
  lemma TextWithoutRate(states: States, user: UserId, text: string, fiat: FiatOracle)
    requires Awaiting(states, user) && ParseConversion(text).Some?
    requires !Truthy(fiat(ParseConversion(text).value.base, ParseConversion(text).value.target))
    ensures var req := ParseConversion(text).value;
      MessageStep(states, user, text, fiat) ==
        Effect(states, [Reply(ConversionRateFailed, None)], [FiatQuery(req.base, req.target)])
  {
  }

  /** A parsed request with a usable rate: it is looked up once with its own
      codes, the result is sent with the typed amount and codes and the
      product rounded to within half a hundredth, the user's state is
      cleared and the main menu follows. */
  lemma TextThatConverts(states: States, user: UserId, text: string, req: ConversionRequest, fiat: FiatOracle)
    requires Awaiting(states, user) && ParseConversion(text) == Some(req)
    requires Truthy(fiat(req.base, req.target))
    ensures var rate := fiat(req.base, req.target).value;
      var e := MessageStep(states, user, text, fiat);
      && e.queries == [FiatQuery(req.base, req.target)]
      && e.states == states[user := Cleared]
      && !Awaiting(e.states, user)
      && |e.sent| == 2
      && e.sent[0].Reply? && e.sent[0].menu == None
      && e.sent[0].message.Converted?
      && e.sent[0].message.amount == req.amount
      && e.sent[0].message.base == req.base
      && e.sent[0].message.target == req.target
      && -0.005 <= e.sent[0].message.converted - req.amount * rate <= 0.005
      && e.sent[1] == Reply(WhatNext, Some(Main))
  {
    assert MessageStep(states, user, text, fiat) == ConvertStep(states, user, req, fiat);
    RequestConverts(states, user, req, fiat);
  }

  lemma RequestConverts(states: States, user: UserId, req: ConversionRequest, fiat: FiatOracle)
    requires Truthy(fiat(req.base, req.target))
    ensures var rate := fiat(req.base, req.target).value;
      var e := ConvertStep(states, user, req, fiat);
      && e.queries == [FiatQuery(req.base, req.target)]
      && e.states == states[user := Cleared]
      && !Awaiting(e.states, user)
      && |e.sent| == 2
      && e.sent[0].Reply? && e.sent[0].menu == None
      && e.sent[0].message.Converted?
      && e.sent[0].message.amount == req.amount
      && e.sent[0].message.base == req.base
      && e.sent[0].message.target == req.target
      && -0.005 <= e.sent[0].message.converted - req.amount * rate <= 0.005
      && e.sent[1] == Reply(WhatNext, Some(Main))
  {
  }

  /** A text changes the session map only by clearing the sender's state
      after a conversion went through. */
  lemma TextChangesOnlyOnSuccess(states: States, user: UserId, text: string,
                                  parsed: Option<ConversionRequest>, fiat: FiatOracle)
    requires ParseConversion(text) == parsed
    ensures var e := MessageStep(states, user, text, fiat);
      if Awaiting(states, user) && parsed.Some? && Truthy(fiat(parsed.value.base, parsed.value.target))
      then e.states == states[user := Cleared]
      else e.states == states
  {
    var e := MessageStep(states, user, text, fiat);
    if !Awaiting(states, user) {
      assert e == Effect(states, [Reply(InvalidInput, None)], []);
    } else if parsed.None? {
      assert e == Effect(states, [Reply(FormatHint, None)], []);
    } else {
      StatesAfterRequest(states, user, parsed.value, fiat);
      assert e == ConvertStep(states, user, parsed.value, fiat);
    }
  }

  lemma StatesAfterRequest(states: States, user: UserId, req: ConversionRequest, fiat: FiatOracle)
    ensures ConvertStep(states, user, req, fiat).states ==
      if Truthy(fiat(req.base, req.target)) then states[user := Cleared] else states
  {
  }

  /** A text is looked up only in the converter state and only after the
      parse succeeded. */
  lemma TextLooksUpOnlyParsedRequests(states: States, user: UserId, text: string,
                                      parsed: Option<ConversionRequest>, fiat: FiatOracle)
    requires ParseConversion(text) == parsed
    ensures var e := MessageStep(states, user, text, fiat);
      e.queries != [] <==> Awaiting(states, user) && parsed.Some?
  {
    if Awaiting(states, user) && parsed.Some? {
      assert MessageStep(states, user, text, fiat) == ConvertStep(states, user, parsed.value, fiat);
    }
  }

  /** `start` greets by name, falls back when the name is empty, and shows
      the main menu. */
  lemma StartGreets(firstName: string)
    ensures StartReply(Some(firstName)).menu == Some(Main)
    ensures firstName != [] ==> StartReply(Some(firstName)).message == Greeting(firstName)
    ensures firstName == [] ==> StartReply(Some(firstName)).message == Greeting("пользователь")
    ensures StartReply(None) == StartReply(Some(""))
  {
  }

  // ---------------------------------------------------------------------
  // The walk-through: start, open the converter, convert 50 EUR

  /** With a fiat service answering 100 for EUR to RUB, `50 EUR to RUB`
      after `converter` sends `50 EUR = 5000 RUB`, then the main menu, and
      clears the user's state. */
  lemma ConverterScenario(states: States, user: UserId, fiat: FiatOracle, crypto: CryptoOracle)
    requires fiat("EUR", "RUB") == Some(100.0)
    ensures var e1 := ButtonStep(states, user, "converter", fiat, crypto);
      var e2 := MessageStep(e1.states, user, "50 EUR to RUB", fiat);
      && Awaiting(e1.states, user)
      && e2.sent == [Reply(Converted(50.0, "EUR", 5000.0, "RUB"), None), Reply(WhatNext, Some(Main))]
      && e2.queries == [FiatQuery("EUR", "RUB")]
      && e2.states == states[user := Cleared]
  {
    var e1 := ButtonStep(states, user, "converter", fiat, crypto);
    assert e1.states == states[user := AwaitingConversion];
    EurTextConverts(e1.states, user, fiat);
    OverwriteTwice(states, user, AwaitingConversion, Cleared);
  }

  lemma EurTextConverts(st: States, user: UserId, fiat: FiatOracle)
    requires Awaiting(st, user) && fiat("EUR", "RUB") == Some(100.0)
    ensures MessageStep(st, user, "50 EUR to RUB", fiat) ==
      Effect(st[user := Cleared],
             [Reply(Converted(50.0, "EUR", 5000.0, "RUB"), None), Reply(WhatNext, Some(Main))],
             [FiatQuery("EUR", "RUB")])
  {
    ParseEurExample();
    assert ConvertedSum(50.0, 100.0) == 5000.0 by {
      assert 50.0 * 100.0 == 5000.0;
      assert (100.0 * 5000.0).Floor == 500000;
    }
  }

  lemma OverwriteTwice(m: States, k: UserId, a: Flag, b: Flag)
    ensures m[k := a][k := b] == m[k := b]
  {
  }
}
