# Currency bot: a verified model of the interaction rules

The bot is a Telegram chat bot with four inline-keyboard screens:

- a main menu;
- fiat quotes (USD, EUR and GBP against the rouble);
- quotes for ten crypto coins in US dollars;
- a free-text converter.

It keeps one piece of state, the `user_states` dictionary, which marks the users who opened the converter. It answers three kinds of event:

- `/start`;
- a button press;
- a text message.

The model has seven modules:

- `Wrappers`: the `Option` type.
- `Text`: Python's `str.strip`, `str.upper` and `str.split()` on strings, ASCII case and whitespace only.
- `Numbers`: `float(token)` for decimal numerals, `round(x, 2)` with ties to even, and the rounded product.
- `Conversion`: the parse inside `handle_message`.
- `Menus`: the four keyboard builders. A button is shown as its callback token.
- `Dispatch`: the dispatch table, `crypto_map`, and each handler as a function of the session map and one event. A handler's result is the new map, the responses in the order they are sent and the rate lookups in the order they are made.
- `Session`: the class `Bot`. It holds the session map, the responses sent and the lookups made as fields. Its handler methods change those fields, and each method is proved to agree with its `Dispatch` step.

`get_exchange_rate` and `get_crypto_rate` are oracles passed in as function parameters, and each call is logged as a `Query`. So the lemmas hold for every answer the services could give: a rate, `None`, or zero, which `if rate` also rejects.

The Python `None` that a successful conversion stores becomes `Cleared`. The user keeps an entry, but `Awaiting` is false for it, just as `user_states.get(user_id) == 'awaiting_conversion'` is.

The hint's example, `100 USD to RUB`, has four tokens. The code reads `parts[0]` to `parts[3]` and ignores any further tokens, and the model follows the code: `ParseConversionSpec` requires at least four words, and `ParseUsesFirstFourWords` shows that only the first four count.

## Model

| member | source | states |
|---|---|---|
| Text.ToUpper | bot/practica.py:136 | upper-casing shifts exactly `a`–`z` by 32, leaves every other character alone, and keeps whitespace whitespace |
| Text.Upper | bot/practica.py:136 | `str.upper` keeps the length, leaves no letter `a`–`z`, turns each such letter into its capital and keeps every other character where it was |
| Text.DropSpaces | bot/practica.py:136 | the result is a suffix of the input, everything dropped is whitespace, and the result does not start with whitespace |
| Text.DropTrailingSpaces | bot/practica.py:136 | the result is a prefix of the input, everything dropped is whitespace, and the result does not end with whitespace |
| Text.Word | bot/practica.py:139 | a word is a whitespace-free prefix that ends at whitespace or at the end of the text |
| Text.Split | bot/practica.py:139 | `str.split()` yields only nonempty words without whitespace; `SplitKeepsText` states that the words are all of the text |
| Text.SplitKeepsText | bot/practica.py:139 | the words of `split()`, run together, are exactly the non-whitespace characters of the text, in order |
| Text.NonSpace | bot/practica.py:139 | the reference for `SplitKeepsText`: the text's characters with its whitespace left out, which holds no whitespace |
| Text.UpperAll | bot/practica.py:136-139 | upper-casing a list of words gives a new list of the same length as the input. Each word stays a nonempty, whitespace-free word, and no letter `a`–`z` is left |
| Text.Strip | bot/practica.py:136 | no contract of its own: `DropSpaces` and `DropTrailingSpaces` state what each half removes, and `SplitStrip` states that stripping cannot change the split |
| Text.SplitStrip | bot/practica.py:136-139 | stripping before `split()` changes nothing: `Split(Strip(s)) == Split(s)` |
| Text.SplitUpper | bot/practica.py:136-139 | upper-casing before splitting is the same as upper-casing every word |
| Text.SplitJoin | bot/practica.py:139 | `split()` recovers every list of valid words joined by single spaces (a round trip) |
| Text.SplitAppendSpaces | bot/practica.py:136-139 | trailing whitespace adds no word |
| Text.WordUpper | bot/practica.py:136-139 | the first word of the upper-cased text is the upper-cased first word |
| Text.DropSpacesUpper | bot/practica.py:136-139 | leading whitespace is the same before and after upper-casing |
| Numbers.Mantissa | bot/practica.py:140 | an accepted mantissa is a nonempty text of digits and points, and its value is never negative; `MantissaWhole` and `MantissaValue` give its value |
| Numbers.Decimal | bot/practica.py:140 | the value of `whole.frac` is at least the whole part and below the next whole number, and is the whole part when there is no fraction |
| Numbers.DigitsBelow | bot/practica.py:140 | `n` digits are worth less than ten to the `n` |
| Numbers.MantissaWhole | bot/practica.py:140 | for all digit strings: a mantissa without a point is worth its digits |
| Numbers.MantissaValue | bot/practica.py:140 | for all digit strings `w` and `f`, not both empty: `w.f` is accepted and is worth the decimal `w.f` |
| Numbers.ExponentValue | bot/practica.py:140 | an exponent of digits, with no sign, `+` or `-`, is accepted and worth its signed value |
| Numbers.Shift | bot/practica.py:140 | scaling by a power of ten keeps a value's sign and keeps zero zero |
| Numbers.UnsignedPlain | bot/practica.py:140 | a numeral without `E` or `e` is worth its mantissa |
| Numbers.UnsignedScaled | bot/practica.py:140 | a numeral `m E x` (or `m e x`) is accepted iff both the mantissa and the exponent are, and is then the mantissa times ten to the exponent |
| Numbers.ParseFloat | bot/practica.py:140 | no contract of its own: `UnsignedPlain`, `UnsignedScaled` and `ParseFloatNegated` state what it accepts and its value |
| Numbers.Unsigned | bot/practica.py:140 | an unsigned numeral never has a negative value; `UnsignedPlain` and `UnsignedScaled` give its value |
| Numbers.NatToString | bot/practica.py:140 | the reference printer for whole numbers, against which `ParseNatString` proves its round trip: a numeral that is nonempty, all digits and free of leading zeros. It models no line of the bot |
| Numbers.DigitsOfNat | bot/practica.py:140 | a round-trip step for the reference printer: the digits it prints read back as the number. It models no line of the bot |
| Numbers.ParseNatString | bot/practica.py:140 | `float` parses every whole-number numeral to that number |
| Numbers.ParseFloatNegated | bot/practica.py:140 | a leading `-` negates the value and accepts exactly what the unsigned text accepts |
| Numbers.ParseFloatWhole | bot/practica.py:140 | `float('100') == 100.0` and `float('50') == 50.0` |
| Numbers.ParseFloatFraction | bot/practica.py:140 | `float('2.5') == 2.5` |
| Numbers.ParseFloatExponent | bot/practica.py:140 | `float('1E3') == 1000.0`; the text is already upper-cased when it is parsed |
| Numbers.ParseFloatRejects | bot/practica.py:140 | `float` raises on `ABC`, on the empty text and on a lone `.` |
| Numbers.RoundHundredths | bot/practica.py:149 | the number of hundredths of `round(x, 2)` is within half a hundredth of `100·x`, is even on a tie, and is exact when `100·x` is whole |
| Numbers.Round2 | bot/practica.py:149 | `round(x, 2)` is within 0.005 of `x` and is a whole number of hundredths |
| Numbers.ConvertedSum | bot/practica.py:149 | the converted sum is within 0.005 of `amount * rate` |
| Conversion.Parts | bot/practica.py:136-139 | no contract of its own: `PartsAreUpperWords` states that the tokens are the user's words, upper-cased |
| Conversion.ParseParts | bot/practica.py:140-145 | no contract of its own: `ParsePartsSpec` states when it succeeds and what it yields |
| Conversion.ParseConversion | bot/practica.py:136-145 | no contract of its own: `ParseConversionSpec` and `ParsedCodesAreWords` state when it succeeds and what it yields |
| Conversion.PartsAreUpperWords | bot/practica.py:136-139 | the tokens the handler indexes are the user's own words, upper-cased |
| Conversion.ParsePartsSpec | bot/practica.py:139-145 | on the token list: success iff there are at least four tokens, token one is numeric and token three is `TO`; the request is (`float(parts[0])`, `parts[1]`, `parts[3]`) |
| Conversion.ParseConversionSpec | bot/practica.py:136-145 | on the typed words: success iff there are at least four words, the first is numeric and the third is `to` in any case; the request is the upper-cased amount word's value and the upper-cased second and fourth words |
| Conversion.ParsedCodesAreWords | bot/practica.py:141-145 | the codes of a successful parse are nonempty, upper-case and free of whitespace, so `if not target` never fires |
| Conversion.UpperIsTo | bot/practica.py:142 | the separator is accepted as `to`, `To`, `tO` or `TO` and as nothing else |
| Conversion.ParseUsesFirstFourWords | bot/practica.py:139-143 | two texts that agree on their first four words parse alike |
| Conversion.UpperIdempotent | bot/practica.py:136 | upper-casing twice is upper-casing once |
| Conversion.UpperExamples | bot/practica.py:136 | the upper-cased forms of the words of the example texts |
| Conversion.SplitFourWords | bot/practica.py:139 | four valid words joined by spaces split back into those four words |
| Conversion.FourWordParts | bot/practica.py:136-139 | the tokens of a four-word text are its four words, upper-cased |
| Conversion.ParseFourWords | bot/practica.py:136-145 | the parse of a four-word text, in terms of the four words |
| Conversion.ParseHintExample | bot/practica.py:136-145 | the example of the hint, `100 USD to RUB`, parses to 100 USD to RUB |
| Conversion.ParseEurExample | bot/practica.py:136-145 | `50 EUR to RUB` parses to 50 EUR to RUB |
| Conversion.ParseRejectsLetters | bot/practica.py:140 | a non-numeric amount fails the parse |
| Conversion.ParseRejectsMissingTo | bot/practica.py:142-145 | a text without `to` fails the parse |
| Conversion.ParseRejectsMissingTarget | bot/practica.py:142 | `100 USD TO`, with no fourth token, fails the parse |
| Menus.MainMenu | bot/practica.py:41-47 | no contract of its own: `MenuShapes` states its three buttons |
| Menus.CurrencyMenu | bot/practica.py:50-57 | no contract of its own: `MenuShapes` and `MenusMatchTables` state its buttons |
| Menus.CryptoMenu | bot/practica.py:60-69 | no contract of its own: `CryptoMenuShape` and `MenusMatchTables` state its layout and coins |
| Menus.ConverterMenu | bot/practica.py:72-73 | no contract of its own: `MenuShapes` states that it is the back button only |
| Menus.Tokens | bot/practica.py:41-73 | a token is on a keyboard iff some row holds it |
| Menus.MenuShapes | bot/practica.py:41-73 | the main menu is exactly currency, crypto and converter and has no back button; every other screen ends with the back button `main`; the currency menu is usd, eur, gbp, main; the converter menu is only `main` |
| Menus.CryptoMenuShape | bot/practica.py:60-69 | the crypto menu is five rows of two coins above the back row |
| Dispatch.Awaiting | bot/practica.py:135 | no contract of its own: the test `user_states.get(user_id) == 'awaiting_conversion'`, used by the `handle_message` lemmas |
| Dispatch.Truthy | bot/practica.py:110 | no contract of its own: Python's `if rate`, false on `None` and on zero, as `FiatMessage`, `CryptoMessage` and `StatesAfterRequest` state |
| Dispatch.ButtonStep | bot/practica.py:83-130 | no contract of its own: `ConverterButton`, `OtherButtonsKeepStates`, `FiatButton`, `CryptoButton`, `NavigationTargets` and `KnownTokenEditsOnce` state every case, and `Session.Bot.Button` is proved equal to it |
| Dispatch.MessageStep | bot/practica.py:133-165 | no contract of its own: `TextWhenNotAwaiting`, `TextThatDoesNotParse`, `TextWithoutRate`, `TextThatConverts`, `TextChangesOnlyOnSuccess` and `TextLooksUpOnlyParsedRequests` state every branch, and `Session.Bot.HandleMessage` is proved equal to it |
| Dispatch.ConvertStep | bot/practica.py:147-159 | no contract of its own: `RequestConverts` and `StatesAfterRequest` state both branches |
| Dispatch.StartReply | bot/practica.py:76-80 | no contract of its own: `StartGreets` states the greeting and the menu |
| Dispatch.Classify | bot/practica.py:89-130 | a press is handled iff its token is known; `converter` opens the converter; fiat tokens ask for a fiat quote; `crypto_map` keys ask for a coin quote |
| Dispatch.FiatMessage | bot/practica.py:110 | the failure text is shown iff `if rate` fails |
| Dispatch.CryptoMessage | bot/practica.py:129 | the failure text is shown iff `if rate` fails |
| Dispatch.GreetingName | bot/practica.py:78 | the greeting uses the first name when it is present and nonempty, and is never empty |
| Dispatch.TokenSetsDisjoint | bot/practica.py:89-127 | navigation, fiat and coin tokens are pairwise disjoint, so the `elif` chain and the separate `crypto_map` test never both fire |
| Dispatch.CryptoMapSize | bot/practica.py:114-125 | `crypto_map` (the constant `CryptoMap`, with each `get_*_rate` helper replaced by its coin id) has ten keys |
| Dispatch.CryptoMapIsInjective | bot/practica.py:114-125 | different coin tokens query different coin ids |
| Dispatch.CryptoCoinIds | bot/practica.py:29-38 | the coin ids are bitcoin, ethereum, binancecoin, ripple, solana, cardano, dogecoin, polkadot, tron and chainlink |
| Dispatch.MenusMatchTables | bot/practica.py:50-69 | the coin buttons of the crypto menu are exactly the `crypto_map` keys, and the quote buttons of the currency menu are exactly the fiat tokens |
| Dispatch.MenuTokensAreKnown | bot/practica.py:41-130 | every button of every menu is handled by `button` |
| Dispatch.NavigationTargets | bot/practica.py:89-96 | `main`, `currency` and `crypto` each edit the message once, with the prompt and keyboard of the screen they name; they change no state and look nothing up |
| Dispatch.ConverterButton | bot/practica.py:98-104 | `converter` puts the pressing user, and only that user, in the converter state, shows the converter screen and looks nothing up |
| Dispatch.OtherButtonsKeepStates | bot/practica.py:83-130 | no other press changes the session map |
| Dispatch.FiatButton | bot/practica.py:106-111 | a fiat press queries (upper-cased token, `RUB`) once and re-renders the currency menu with the rate or the failure text |
| Dispatch.CryptoButton | bot/practica.py:113-130 | a coin press queries exactly its coin id once and re-renders the crypto menu with the rate or the failure text |
| Dispatch.KnownTokenEditsOnce | bot/practica.py:83-130 | a known token edits the message exactly once and makes at most one lookup; an unknown token does nothing at all |
| Dispatch.MainButtonIdempotent | bot/practica.py:95-96 | `main` renders the same main menu whatever the session holds, and pressing it again changes nothing |
| Dispatch.TextWhenNotAwaiting | bot/practica.py:163-165 | outside the converter state a text gets the generic error, with no lookup and no change |
| Dispatch.TextThatDoesNotParse | bot/practica.py:137-161 | a text that does not parse gets the format hint, keeps the converter state and makes no lookup |
| Dispatch.TextWithoutRate | bot/practica.py:147-159 | a parsed request without a usable rate is looked up once with its own codes, gets the failure text and keeps the converter state |
| Dispatch.TextThatConverts | bot/practica.py:147-157 | a parsed request with a usable rate is looked up once with its own codes. It gets the typed amount and codes with the product rounded to within 0.005, then the main menu, and the user's state is cleared |
| Dispatch.RequestConverts | bot/practica.py:147-157 | the same as `TextThatConverts`, for an already parsed request |
| Dispatch.StatesAfterRequest | bot/practica.py:147-151 | after the lookup, the state is cleared iff the rate is usable |
| Dispatch.TextChangesOnlyOnSuccess | bot/practica.py:133-165 | a text clears the sender's state iff it is in the converter state, parses and gets a usable rate; otherwise the map is unchanged |
| Dispatch.TextLooksUpOnlyParsedRequests | bot/practica.py:135-147 | a text causes a lookup iff the sender is in the converter state and the text parses |
| Dispatch.StartGreets | bot/practica.py:76-80 | `/start` shows the main menu and greets by first name, or as `пользователь` when the name is missing or empty |
| Dispatch.ConverterScenario | bot/practica.py:98-157 | after `converter`, `50 EUR to RUB` at 100 roubles per euro sends 5000.0 RUB and the main menu, and clears the state |
| Dispatch.EurTextConverts | bot/practica.py:135-157 | `50 EUR to RUB` in the converter state, at a rate of 100, yields exactly that result, the follow-up and one lookup |
| Session.Bot.constructor | bot/practica.py:6 | the bot starts with an empty session map, nothing sent and nothing looked up |
| Session.Bot.Send | bot/practica.py:150-165 | each reply or edit is appended to what was sent |
| Session.Bot.FetchFiat | bot/practica.py:9-16 | the fiat rate is the oracle's answer for the arguments, and the call is logged |
| Session.Bot.FetchCrypto | bot/practica.py:19-26 | the coin rate is the oracle's answer for the coin id, and the call is logged |
| Session.Bot.Start | bot/practica.py:76-80 | `start` sends the greeting reply and nothing else |
| Session.Bot.Button | bot/practica.py:83-130 | the `if`/`elif` chain and the separate `crypto_map` test update the map, the messages sent and the lookups exactly as `ButtonStep` says |
| Session.Bot.HandleMessage | bot/practica.py:133-165 | the handler updates the map, the messages sent and the lookups exactly as `MessageStep` says |
| Session.ConversionWalkThrough | bot/practica.py:76-157 | on a fresh bot, `/start`, `converter` and `50 EUR to RUB` at a rate of 100 send the greeting, the hint, the 5000.0 RUB result and the main menu; they make one lookup and leave the user out of the converter state |
| Session.CryptoOutage | bot/practica.py:113-130 | with the coin service down, `btc` makes one lookup for `bitcoin`, re-renders the crypto menu with the failure text for `BTC` and changes no state |

## Left out

- HTTP, JSON decoding and the bare `except` of `get_exchange_rate` and `get_crypto_rate` (bot/practica.py:9-26) become oracles. Every failure they hide is an oracle answer of `None`, and an integer rate from the JSON is a rate like any other.
- The Telegram objects, `query.answer()`, Markdown mode, labels, emoji and exact message wording are not modelled. Messages are kinds with their data, and buttons are their callback tokens.
- Asynchrony is not modelled, so neither is the race between two events of the same user: each event is one atomic step.
- A Telegram send that fails inside the `try` of `handle_message` would be caught and answered with the format hint. The model assumes sends succeed.
- Numbers.ParseFloat: does not accept `inf`, `nan`, `infinity`, underscores between digits or non-ASCII digits, all of which Python's `float` accepts.
- Numbers.ParseFloat: floating point is left out. Values are exact reals, so large or long numerals do not lose precision.
- Numbers.Round2: works on the exact product, not on the rounded binary float that Python rounds.
- Text.Upper: covers only ASCII case. Python's Unicode upper-casing (including characters whose upper case is longer) is not modelled.
- Text.IsSpace: covers only ASCII whitespace and the separators U+001C to U+001F. Unicode spaces such as U+00A0 are not whitespace in the model.
- `main()`, the bot token and handler registration (bot/practica.py:168-178) are not modelled. They are wiring and I/O.
- A missing `first_name` is `None` in the model's `Option`. An empty one falls back to the same default as in the source.
