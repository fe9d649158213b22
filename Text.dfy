/**
  The three Python string operations the conversion parser relies on:
  `str.strip()`, `str.upper()` and `str.split()` (no argument), over the
  ASCII part of Unicode.
 */
module Text {

  /** Python's `str.isspace` on ASCII: the six C whitespace characters and the
      four information separators 0x1C-0x1F. */
  predicate IsSpace(c: char)
  {
    c == ' ' || c == '\t' || c == '\n' || c == '\r' || c == '\U{0B}' || c == '\U{0C}'
    || ('\U{1C}' <= c <= '\U{1F}')
  }

  predicate NoSpace(s: string)
  {
    forall i :: 0 <= i < |s| ==> !IsSpace(s[i])
  }

  predicate AllSpace(s: string)
  {
    forall i :: 0 <= i < |s| ==> IsSpace(s[i])
  }

  /** Upper-casing of one character: ASCII letters only. */
  function ToUpper(c: char): (u: char)
    ensures IsSpace(u) == IsSpace(c)
    ensures 'a' <= c <= 'z' ==> u as int == c as int - 32
    ensures !('a' <= c <= 'z') ==> u == c
  {
    if 'a' <= c <= 'z' then (c as int - 32) as char else c
  }

  /** `s.upper()`: no lower-case letter survives, each one becomes its
      capital, and every other character is kept where it was. */
  function Upper(s: string): (u: string)
    ensures |u| == |s|
    ensures forall i :: 0 <= i < |u| ==> !('a' <= u[i] <= 'z')
    ensures forall i :: 0 <= i < |s| && 'a' <= s[i] <= 'z' ==> u[i] as int == s[i] as int - 32
    ensures forall i :: 0 <= i < |s| && !('a' <= s[i] <= 'z') ==> u[i] == s[i]
    ensures forall i :: 0 <= i < |s| ==> u[i] == ToUpper(s[i])
  {
    seq(|s|, i requires 0 <= i < |s| => ToUpper(s[i]))
  }

  /** Leading whitespace removed: the left half of `strip()`, and the step
      `split()` takes before each word. */
  function DropSpaces(s: string): (r: string)
    ensures |r| <= |s| && r == s[|s| - |r|..]
    ensures AllSpace(s[..|s| - |r|])
    ensures r == [] || !IsSpace(r[0])
  {
    if s != [] && IsSpace(s[0]) then DropSpaces(s[1..]) else s
  }

  /** Trailing whitespace removed: the right half of `strip()`. */
  function DropTrailingSpaces(s: string): (r: string)
    ensures |r| <= |s| && r == s[..|r|]
    ensures AllSpace(s[|r|..])
    ensures r == [] || !IsSpace(r[|r| - 1])
  {
    if s != [] && IsSpace(s[|s| - 1]) then DropTrailingSpaces(s[..|s| - 1]) else s
  }

  /** `s.strip()` */
  function Strip(s: string): string
  {
    DropTrailingSpaces(DropSpaces(s))
  }

  /** The longest prefix of `s` without whitespace. */
  function Word(s: string): (w: string)
    ensures |w| <= |s| && w == s[..|w|]
    ensures NoSpace(w)
    ensures |w| < |s| ==> IsSpace(s[|w|])
  {
    if s == [] || IsSpace(s[0]) then [] else [s[0]] + Word(s[1..])
  }

  /** `s.split()`: the maximal runs of non-whitespace characters, in order. */
  function Split(s: string): (ws: seq<string>)
    ensures forall i :: 0 <= i < |ws| ==> ws[i] != [] && NoSpace(ws[i])
    decreases |s|
  {
    var t := DropSpaces(s);
    if t == [] then []
    else
      var w := Word(t);
      [w] + Split(t[|w|..])
  }

  /** The words joined by single spaces (`' '.join(ws)`). */
  function Join(ws: seq<string>): string
  {
    if |ws| == 0 then ""
    else if |ws| == 1 then ws[0]
    else ws[0] + " " + Join(ws[1..])
  }

  /** Every word upper-cased: a word stays a word, and nothing in the result
      has a lower-case letter left. */
  function UpperAll(ws: seq<string>): (us: seq<string>)
    ensures |us| == |ws|
    ensures forall i :: 0 <= i < |ws| && ws[i] != [] && NoSpace(ws[i]) ==> us[i] != [] && NoSpace(us[i])
    ensures forall i, j :: 0 <= i < |us| && 0 <= j < |us[i]| ==> !('a' <= us[i][j] <= 'z')
    ensures forall i :: 0 <= i < |ws| ==> us[i] == Upper(ws[i])
  {
    seq(|ws|, i requires 0 <= i < |ws| => Upper(ws[i]))
  }

  /** The non-whitespace characters of `s`, in order. */
  function NonSpace(s: string): (r: string)
    ensures NoSpace(r)
  {
    if s == [] then [] else (if IsSpace(s[0]) then [] else [s[0]]) + NonSpace(s[1..])
  }

  /** The words run together. */
  function Concat(ws: seq<string>): string
  {
    if ws == [] then [] else ws[0] + Concat(ws[1..])
  }

  // ---------------------------------------------------------------------
  // Lemmas about the pieces

  lemma DropSpacesAppend(t: string, x: string)
    ensures DropSpaces(t + x) == if DropSpaces(t) == [] then DropSpaces(x) else DropSpaces(t) + x
    decreases |t|
  {
    if t != [] {
      assert (t + x)[0] == t[0];
      if IsSpace(t[0]) {
        assert (t + x)[1..] == t[1..] + x;
        DropSpacesAppend(t[1..], x);
      }
    } else {
      assert t + x == x;
    }
  }

  /** Appending text that starts with whitespace (or nothing) leaves the first
      word unchanged. */
  lemma WordAppend(u: string, x: string)
    requires x == [] || IsSpace(x[0])
    ensures Word(u + x) == Word(u)
    decreases |u|
  {
    if u == [] {
      assert u + x == x;
    } else {
      assert (u + x)[0] == u[0];
      assert (u + x)[1..] == u[1..] + x;
      WordAppend(u[1..], x);
    }
  }

  lemma WordOfNoSpace(w: string)
    requires NoSpace(w)
    ensures Word(w) == w
  {
  }

  /** Leading whitespace does not change the split. */
  lemma SplitDropSpaces(s: string)
    ensures Split(DropSpaces(s)) == Split(s)
  {
    var t := DropSpaces(s);
    assert DropSpaces(t) == t;
  }

  lemma Cut(s: string, k: nat)
    requires k <= |s|
    ensures s == s[..k] + s[k..]
  {
  }

  lemma Assoc(a: string, b: string, c: string)
    ensures (a + b) + c == a + (b + c)
  {
  }

  lemma UpperAllCons(w: string, ws: seq<string>)
    ensures UpperAll([w] + ws) == [Upper(w)] + UpperAll(ws)
  {
  }

  lemma DropSpacesAllSpace(sp: string)
    requires AllSpace(sp)
    ensures DropSpaces(sp) == []
  {
  }

  /** A non-empty word followed by whitespace (or nothing) is split off first. */
  lemma SplitCons(w: string, rest: string)
    requires w != [] && NoSpace(w)
    requires rest == [] || IsSpace(rest[0])
    ensures Split(w + rest) == [w] + Split(rest)
  {
    DropSpacesAppend(w, rest);
    WordAppend(w, rest);
    WordOfNoSpace(w);
    assert (w + rest)[|w|..] == rest;
  }

  /** Trailing whitespace does not change the split. */
  lemma {:induction false} SplitAppendSpaces(t: string, sp: string)
    requires AllSpace(sp)
    ensures Split(t + sp) == Split(t)
    decreases |t|
  {
    DropSpacesAppend(t, sp);
    SplitDropSpaces(t);
    SplitDropSpaces(t + sp);
    var u := DropSpaces(t);
    if u == [] {
      DropSpacesAllSpace(sp);
    } else {
      var w := Word(u);
      var rest := u[|w|..];
      Cut(u, |w|);
      Assoc(w, rest, sp);
      SplitCons(w, rest);
      SplitCons(w, rest + sp);
      SplitAppendSpaces(rest, sp);
    }
  }

  /** `split()` ignores what `strip()` removes, so stripping first is harmless. */
  lemma {:induction false} SplitStrip(s: string)
    ensures Split(Strip(s)) == Split(s)
  {
    SplitDropTrailing(DropSpaces(s));
    SplitDropSpaces(s);
  }

  lemma SplitDropTrailing(d: string)
    ensures Split(DropTrailingSpaces(d)) == Split(d)
  {
    var r := DropTrailingSpaces(d);
    var sp := d[|r|..];
    Cut(d, |r|);
    SplitAppendSpaces(r, sp);
  }

  lemma DropSpacesUpper(s: string)
    ensures DropSpaces(Upper(s)) == Upper(DropSpaces(s))
    decreases |s|
  {
    if s != [] && IsSpace(s[0]) {
      assert Upper(s)[1..] == Upper(s[1..]);
      DropSpacesUpper(s[1..]);
    }
  }

  lemma {:induction false} WordUpper(s: string)
    ensures Word(Upper(s)) == Upper(Word(s))
    decreases |s|
  {
    if s != [] && !IsSpace(s[0]) {
      var u := Upper(s);
      assert u[0] == ToUpper(s[0]) && !IsSpace(u[0]);
      assert u[1..] == Upper(s[1..]);
      WordUpper(s[1..]);
      UpperConcat([s[0]], Word(s[1..]));
      assert Upper([s[0]]) == [ToUpper(s[0])];
    } else if s != [] {
      assert IsSpace(Upper(s)[0]);
    }
  }

  /** Upper-casing before splitting is the same as upper-casing every word. */
  lemma {:induction false} SplitUpper(s: string)
    ensures Split(Upper(s)) == UpperAll(Split(s))
    decreases |s|
  {
    var t := DropSpaces(s);
    if t == [] {
      DropSpacesUpper(s);
      assert Upper(t) == [];
    } else {
      var w := Word(t);
      var rest := t[|w|..];
      Cut(t, |w|);
      calc {
        Split(Upper(s));
        { DropSpacesUpper(s); SplitDropSpaces(Upper(s)); }
        Split(Upper(w + rest));
        { SplitUpperCons(w, rest); }
        [Upper(w)] + Split(Upper(rest));
        { SplitUpper(rest); }
        [Upper(w)] + UpperAll(Split(rest));
        { UpperAllCons(w, Split(rest)); }
        UpperAll([w] + Split(rest));
        { SplitCons(w, rest); SplitDropSpaces(s); }
        UpperAll(Split(s));
      }
    }
  }

  lemma SplitUpperCons(w: string, rest: string)
    requires w != [] && NoSpace(w)
    requires rest == [] || IsSpace(rest[0])
    ensures Split(Upper(w + rest)) == [Upper(w)] + Split(Upper(rest))
  {
    UpperConcat(w, rest);
    var uw, ur := Upper(w), Upper(rest);
    assert uw != [] && NoSpace(uw);
    assert ur == [] || IsSpace(ur[0]);
    SplitCons(uw, ur);
  }

  lemma UpperConcat(a: string, b: string)
    ensures Upper(a + b) == Upper(a) + Upper(b)
  {
  }

  lemma SplitLeadingSpace(c: char, s: string)
    requires IsSpace(c)
    ensures Split([c] + s) == Split(s)
  {
    assert ([c] + s)[1..] == s;
  }

  /** Splitting undoes joining with single spaces, for words that are
      non-empty and contain no whitespace. */
  lemma {:induction false} SplitJoin(ws: seq<string>)
    requires forall i :: 0 <= i < |ws| ==> ws[i] != [] && NoSpace(ws[i])
    ensures Split(Join(ws)) == ws
  {
    if |ws| <= 1 {
      SplitJoinShort(ws);
    } else {
      SplitJoin(ws[1..]);
      SplitJoinStep(ws);
    }
  }

  lemma SplitJoinShort(ws: seq<string>)
    requires |ws| <= 1
    requires forall i :: 0 <= i < |ws| ==> ws[i] != [] && NoSpace(ws[i])
    ensures Split(Join(ws)) == ws
  {
    if |ws| == 1 {
      SplitCons(ws[0], []);
      assert ws[0] + [] == ws[0];
      assert [ws[0]] == ws;
    }
  }

  lemma SplitJoinStep(ws: seq<string>)
    requires |ws| > 1 && ws[0] != [] && NoSpace(ws[0])
    requires Split(Join(ws[1..])) == ws[1..]
    ensures Split(Join(ws)) == ws
  {
    SplitWordThenJoin(ws[0], ws[1..]);
    assert [ws[0]] + ws[1..] == ws;
  }

  lemma SplitWordThenJoin(w: string, tail: seq<string>)
    requires w != [] && NoSpace(w) && tail != []
    ensures Split(Join([w] + tail)) == [w] + Split(Join(tail))
  {
    var ws := [w] + tail;
    assert ws[0] == w && ws[1..] == tail;
    var rest := " " + Join(tail);
    assert Join(ws) == w + rest;
    SplitCons(w, rest);
    SplitLeadingSpace(' ', Join(tail));
  }

  /** `split()` loses nothing but whitespace: its words, run together, are
      exactly the non-whitespace characters of the text, in order. */
  lemma {:induction false} SplitKeepsText(s: string)
    ensures Concat(Split(s)) == NonSpace(s)
    decreases |s|
  {
    var t := DropSpaces(s);
    var k := |s| - |t|;
    Cut(s, k);
    NonSpaceAppend(s[..k], t);
    NonSpaceAllSpace(s[..k]);
    if t != [] {
      var w := Word(t);
      var rest := t[|w|..];
      Cut(t, |w|);
      NonSpaceAppend(w, rest);
      NonSpaceOfNoSpace(w);
      SplitKeepsText(rest);
      var ws := Split(s);
      assert ws == [w] + Split(rest);
      assert ws[1..] == Split(rest);
    }
  }

  lemma {:induction false} NonSpaceAppend(a: string, b: string)
    ensures NonSpace(a + b) == NonSpace(a) + NonSpace(b)
    decreases |a|
  {
    if a == [] {
      assert a + b == b;
    } else {
      assert (a + b)[0] == a[0];
      assert (a + b)[1..] == a[1..] + b;
      NonSpaceAppend(a[1..], b);
    }
  }

  lemma {:induction false} NonSpaceAllSpace(a: string)
    requires AllSpace(a)
    ensures NonSpace(a) == []
    decreases |a|
  {
    if a != [] {
      NonSpaceAllSpace(a[1..]);
    }
  }

  lemma {:induction false} NonSpaceOfNoSpace(w: string)
    requires NoSpace(w)
    ensures NonSpace(w) == w
    decreases |w|
  {
    if w != [] {
      NonSpaceOfNoSpace(w[1..]);
      assert w == [w[0]] + w[1..];
    }
  }
}
