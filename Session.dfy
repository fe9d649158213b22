/**
  The running bot: the global `user_states` dictionary as a field that the
  handlers update in place, the messages sent so far and the rate lookups
  made so far. Each handler is proved to do exactly what the matching step
  of `Dispatch` says.
 */
module Session {
  import opened Wrappers
  import opened Text
  import opened Numbers
  import opened Conversion
  import opened Menus
  import opened Dispatch

  class Bot {
    /** `user_states` */
    var userStates: States
    /** Every `reply_text` and `edit_message_text`, in order. */
    var outbox: seq<Response>
    /** Every call of a rate service, in order. */
    var lookups: seq<Query>

    constructor ()
      ensures userStates == map[] && outbox == [] && lookups == []
    {
      userStates := map[];
      outbox := [];
      lookups := [];
    }

    method Send(r: Response)
      modifies this`outbox
      ensures outbox == old(outbox) + [r]
    {
      outbox := outbox + [r];
    }

    /** `get_exchange_rate(base, target)`, answered by the oracle. */
    method FetchFiat(fiat: FiatOracle, base: string, target: string) returns (rate: Option<real>)
      modifies this`lookups
      ensures rate == fiat(base, target)
      ensures lookups == old(lookups) + [FiatQuery(base, target)]
    {
      rate := fiat(base, target);
      lookups := lookups + [FiatQuery(base, target)];
    }

    /** `get_crypto_rate(coin)`, answered by the oracle. */
    method FetchCrypto(crypto: CryptoOracle, coin: string) returns (rate: Option<real>)
      modifies this`lookups
      ensures rate == crypto(coin)
      ensures lookups == old(lookups) + [CryptoQuery(coin)]
    {
      rate := crypto(coin);
      lookups := lookups + [CryptoQuery(coin)];
    }

    /** `start` */
    method Start(firstName: Option<string>)
      modifies this`outbox
      ensures outbox == old(outbox) + [StartReply(firstName)]
    {
      var name := GreetingName(firstName);
      Send(Reply(Greeting(name), Some(Main)));
    }

    /** `button`: the `if`/`elif` chain, then the separate `crypto_map` test. */
    method Button(user: UserId, data: Token, fiat: FiatOracle, crypto: CryptoOracle)
      modifies this
      ensures var e := ButtonStep(old(userStates), user, data, fiat, crypto);
        && userStates == e.states
        && outbox == old(outbox) + e.sent
        && lookups == old(lookups) + e.queries
    {
      TokenSetsDisjoint();
      if data == "currency" {
        Send(Edit(ChooseCurrency, Currency));
      } else if data == "crypto" {
        Send(Edit(ChooseCrypto, Crypto));
      } else if data == "main" {
        Send(Edit(ChooseCategory, Main));
      } else if data == "converter" {
        userStates := userStates[user := AwaitingConversion];
        Send(Edit(ConverterHint, Converter));
      } else if data in FiatTokens {
        var base := Upper(data);
        var rate := FetchFiat(fiat, base, DefaultTarget);
        var msg := FiatMessage(base, rate);
        Send(Edit(msg, Currency));
      }

      if data in CryptoMap {
        var rate := FetchCrypto(crypto, CryptoMap[data]);
        var symbol := Upper(data);
        var msg := CryptoMessage(symbol, rate);
        Send(Edit(msg, Crypto));
      }
    }

    /** `handle_message` */
    method HandleMessage(user: UserId, text: string, fiat: FiatOracle)
      modifies this
      ensures var e := MessageStep(old(userStates), user, text, fiat);
        && userStates == e.states
        && outbox == old(outbox) + e.sent
        && lookups == old(lookups) + e.queries
    {
      ghost var e := MessageStep(userStates, user, text, fiat);
      if user in userStates && userStates[user] == AwaitingConversion {
        var parsed := ParseConversion(text);
        if parsed.None? {
          assert e == Effect(userStates, [Reply(FormatHint, None)], []);
          Send(Reply(FormatHint, None));
        } else {
          var req := parsed.value;
          var rate := FetchFiat(fiat, req.base, req.target);
          if Truthy(rate) {
            var converted := ConvertedSum(req.amount, rate.value);
            var result := Reply(Converted(req.amount, req.base, converted, req.target), None);
            var next := Reply(WhatNext, Some(Main));
            assert e == Effect(userStates[user := Cleared], [result, next], [FiatQuery(req.base, req.target)]);
            Send(result);
            userStates := userStates[user := Cleared];
            Send(next);
            AppendTwo(old(outbox), result, next);
          } else {
            assert e == Effect(userStates, [Reply(ConversionRateFailed, None)], [FiatQuery(req.base, req.target)]);
            Send(Reply(ConversionRateFailed, None));
          }
        }
      } else {
        assert e == Effect(userStates, [Reply(InvalidInput, None)], []);
        Send(Reply(InvalidInput, None));
      }
    }
  }

  lemma AppendTwo(s: seq<Response>, a: Response, b: Response)
    ensures s + [a] + [b] == s + [a, b]
  {
  }

  lemma AppendRows(a: Response, b: Response, c: Response, d: Response)
    ensures [a] + [b] + [c, d] == [a, b, c, d]
  {
  }

  /** The walk-through on a fresh bot: `/start`, the converter button and
      `50 EUR to RUB` against a fiat service that quotes 100 roubles per
      euro. */
  method ConversionWalkThrough(user: UserId, fiat: FiatOracle, crypto: CryptoOracle)
    returns (sent: seq<Response>, lookups: seq<Query>, awaiting: bool)
    requires fiat("EUR", "RUB") == Some(100.0)
    ensures sent == [ Reply(Greeting("пользователь"), Some(Main)),
                      Edit(ConverterHint, Converter),
                      Reply(Converted(50.0, "EUR", 5000.0, "RUB"), None),
                      Reply(WhatNext, Some(Main)) ]
    ensures lookups == [FiatQuery("EUR", "RUB")]
    ensures !awaiting
  {
    var greet := Reply(Greeting("пользователь"), Some(Main));
    var hint := Edit(ConverterHint, Converter);
    var result := Reply(Converted(50.0, "EUR", 5000.0, "RUB"), None);
    var next := Reply(WhatNext, Some(Main));
    var bot := new Bot();
    bot.Start(None);
    assert bot.outbox == [greet];
    ConverterButton(map[], user, fiat, crypto);
    bot.Button(user, "converter", fiat, crypto);
    assert bot.outbox == [greet] + [hint];
    assert bot.lookups == [];
    assert bot.userStates == map[user := AwaitingConversion];
    EurTextConverts(bot.userStates, user, fiat);
    bot.HandleMessage(user, "50 EUR to RUB", fiat);
    AppendRows(greet, hint, result, next);
    sent, lookups := bot.outbox, bot.lookups;
    awaiting := user in bot.userStates && bot.userStates[user] == AwaitingConversion;
  }

  /** A failing crypto service: `btc` still re-renders the crypto menu, with
      the failure text, and the session is untouched. */
  method CryptoOutage(user: UserId, fiat: FiatOracle, crypto: CryptoOracle)
    returns (sent: seq<Response>, lookups: seq<Query>, states: States)
    requires crypto("bitcoin") == None
    ensures sent == [Edit(CryptoRateFailed("BTC"), Crypto)]
    ensures lookups == [CryptoQuery("bitcoin")]
    ensures states == map[]
  {
    var bot := new Bot();
    bot.Button(user, "btc", fiat, crypto);
    assert Upper("btc") == "BTC";
    sent, lookups, states := bot.outbox, bot.lookups, bot.userStates;
  }
}
