/**
  The parse inside `handle_message`: the text is stripped, upper-cased and
  split on whitespace; token 1 is the amount, token 2 the base currency,
  token 3 must be `TO` and token 4 is the target currency.
 */
module Conversion {
  import opened Wrappers
  import opened Text
  import opened Numbers

  /** A conversion request. Neither code is checked against a list of
      currencies: an unknown code fails later, at the rate lookup. */
  datatype ConversionRequest = ConversionRequest(amount: real, base: string, target: string)

  /** The tokens the handler indexes into. */
  function Parts(text: string): seq<string>
  {
    Split(Upper(Strip(text)))
  }

  /** The parse, in the order the handler evaluates it: `float(parts[0])`,
      `parts[1]`, the test `parts[2] == 'TO'` and only then `parts[3]`. Each
      missing token (an `IndexError`) and a non-numeric amount (a
      `ValueError`) ends in the same failure. */
  function ParseParts(parts: seq<string>): Option<ConversionRequest>
  {
    if |parts| < 1 then None
    else
      match ParseFloat(parts[0])
      case None => None
      case Some(amount) =>
        if |parts| < 3 then None
        else if parts[2] != "TO" then None
        else if |parts| < 4 then None
        else Some(ConversionRequest(amount, parts[1], parts[3]))
  }

  /** The parse of the text of one message. */
  function ParseConversion(text: string): Option<ConversionRequest>
  {
    ParseParts(Parts(text))
  }

  /** The tokens the handler sees are the user's own words, upper-cased. */
  lemma PartsAreUpperWords(text: string)
    ensures Parts(text) == UpperAll(Split(text))
  {
    SplitUpper(Strip(text));
    SplitStrip(text);
  }

  /** When a parse succeeds, and what it yields, in terms of the words the
      user typed: at least four words, a numeric first word and `to` (in any
      case) as the third. Words after the fourth are ignored. */
  lemma ParseConversionSpec(text: string)
    ensures var ws := Split(text);
      ParseConversion(text).Some? <==>
        |ws| >= 4 && IsNumeric(Upper(ws[0])) && Upper(ws[2]) == "TO"
    ensures var ws := Split(text);
      ParseConversion(text).Some? ==>
        ParseConversion(text) == Some(ConversionRequest(
          ParseFloat(Upper(ws[0])).value, Upper(ws[1]), Upper(ws[3])))
  {
    PartsAreUpperWords(text);
    ParsePartsSpec(Parts(text));
  }

  lemma ParsePartsSpec(parts: seq<string>)
    ensures ParseParts(parts).Some? <==> |parts| >= 4 && IsNumeric(parts[0]) && parts[2] == "TO"
    ensures ParseParts(parts).Some? ==>
      ParseParts(parts) == Some(ConversionRequest(ParseFloat(parts[0]).value, parts[1], parts[3]))
  {
  }

  /** The codes of a successful parse are upper-case words without
      whitespace; in particular the target is never empty, so the handler's
      `if not target` never fires once `parts[2] == 'TO'`. */
  lemma ParsedCodesAreWords(text: string)
    requires ParseConversion(text).Some?
    ensures var r := ParseConversion(text).value;
      r.base != [] && NoSpace(r.base) && r.target != [] && NoSpace(r.target)
      && Upper(r.base) == r.base && Upper(r.target) == r.target
  {
    var ws := Split(text);
    ParseConversionSpec(text);
    UpperIdempotent(ws[1]);
    UpperIdempotent(ws[3]);
  }

  lemma UpperIdempotent(s: string)
    ensures Upper(Upper(s)) == Upper(s)
  {
  }

  lemma UpperExamples()
    ensures Upper("100") == "100" && Upper("abc") == "ABC" && Upper("to") == "TO"
    ensures Upper("USD") == "USD" && Upper("RUB") == "RUB"
    ensures Upper("50") == "50" && Upper("EUR") == "EUR"
  {
  }

  /** The separator is accepted in every case. */
  lemma UpperIsTo(t: string)
    ensures Upper(t) == "TO" <==> t in {"to", "To", "tO", "TO"}
  {
    if Upper(t) == "TO" {
      assert |t| == 2;
      assert ToUpper(t[0]) == 'T' && ToUpper(t[1]) == 'O';
      assert t[0] == 't' || t[0] == 'T';
      assert t[1] == 'o' || t[1] == 'O';
      assert t == [t[0], t[1]];
    }
  }

  /** Only the first four words matter. */
  lemma ParseUsesFirstFourWords(a: string, b: string)
    requires |Split(a)| >= 4 && |Split(b)| >= 4
    requires Split(a)[..4] == Split(b)[..4]
    ensures ParseConversion(a) == ParseConversion(b)
  {
    var wa, wb := Split(a), Split(b);
    assert wa[0] == wa[..4][0] && wb[0] == wb[..4][0];
    assert wa[1] == wa[..4][1] && wb[1] == wb[..4][1];
    assert wa[2] == wa[..4][2] && wb[2] == wb[..4][2];
    assert wa[3] == wa[..4][3] && wb[3] == wb[..4][3];
    ParseConversionSpec(a);
    ParseConversionSpec(b);
  }

  lemma SplitFourWords(text: string, w0: string, w1: string, w2: string, w3: string)
    requires text == w0 + " " + w1 + " " + w2 + " " + w3
    requires w0 != [] && NoSpace(w0) && w1 != [] && NoSpace(w1)
    requires w2 != [] && NoSpace(w2) && w3 != [] && NoSpace(w3)
    ensures Split(text) == [w0, w1, w2, w3]
  {
    var ws := [w0, w1, w2, w3];
    assert Join(ws[3..]) == w3;
    assert Join(ws[2..]) == w2 + " " + w3;
    assert Join(ws[1..]) == w1 + " " + w2 + " " + w3;
    assert Join(ws) == text;
    SplitJoin(ws);
  }

  /** A text of exactly four words, spelled out. */
  lemma ParseFourWords(text: string, w0: string, w1: string, w2: string, w3: string)
    requires text == w0 + " " + w1 + " " + w2 + " " + w3
    requires w0 != [] && NoSpace(w0) && w1 != [] && NoSpace(w1)
    requires w2 != [] && NoSpace(w2) && w3 != [] && NoSpace(w3)
    ensures ParseConversion(text) ==
      if IsNumeric(Upper(w0)) && Upper(w2) == "TO"
      then Some(ConversionRequest(ParseFloat(Upper(w0)).value, Upper(w1), Upper(w3)))
      else None
  {
    SplitFourWords(text, w0, w1, w2, w3);
    FourWordParts(text, w0, w1, w2, w3);
    ParsePartsSpec(Parts(text));
  }

  lemma FourWordParts(text: string, w0: string, w1: string, w2: string, w3: string)
    requires Split(text) == [w0, w1, w2, w3]
    ensures |Parts(text)| == 4
    ensures Parts(text)[0] == Upper(w0) && Parts(text)[1] == Upper(w1)
    ensures Parts(text)[2] == Upper(w2) && Parts(text)[3] == Upper(w3)
  {
    var ws := Split(text);
    PartsAreUpperWords(text);
    var p := Parts(text);
    assert p == UpperAll(ws);
    assert p[0] == Upper(ws[0]) && p[1] == Upper(ws[1]) && p[2] == Upper(ws[2]) && p[3] == Upper(ws[3]);
  }

  /** The example of the hint text, with `to` in lower case. */
  lemma ParseHintExample()
    ensures ParseConversion("100 USD to RUB") == Some(ConversionRequest(100.0, "USD", "RUB"))
  {
    ParseFourWords("100 USD to RUB", "100", "USD", "to", "RUB");
    UpperExamples();
    ParseFloatWhole();
  }

  /** The request of the walk-through: 50 euros to roubles. */
  lemma ParseEurExample()
    ensures ParseConversion("50 EUR to RUB") == Some(ConversionRequest(50.0, "EUR", "RUB"))
  {
    ParseFourWords("50 EUR to RUB", "50", "EUR", "to", "RUB");
    UpperExamples();
    ParseFloatWhole();
  }

  lemma ParseRejectsLetters()
    ensures ParseConversion("abc USD TO RUB") == None
  {
    ParseFourWords("abc USD TO RUB", "abc", "USD", "TO", "RUB");
    UpperExamples();
    ParseFloatRejects();
  }

  lemma ParseRejectsMissingTo()
    ensures ParseConversion("100 USD RUB") == None
  {
    var ws := ["100", "USD", "RUB"];
    assert Join(ws) == "100 USD RUB";
    SplitJoin(ws);
    ParseConversionSpec("100 USD RUB");
  }

  lemma ParseRejectsMissingTarget()
    ensures ParseConversion("100 USD TO") == None
  {
    var ws := ["100", "USD", "TO"];
    assert Join(ws) == "100 USD TO";
    SplitJoin(ws);
    ParseConversionSpec("100 USD TO");
  }
}
