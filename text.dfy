/** The Python string operations the collectors use to take command output and pseudo-files
    apart: `str.splitlines`, `str.split()`, `str.strip`, `str.partition`, `str.replace` with an
    empty replacement, `int(...)`, `float(...)` on plain decimals, `str(n)` for integers and
    `str.lower` on ASCII letters. */
module Text {
  import opened Env

  /** `c.isspace()`: the code points Python counts as whitespace. */
  predicate IsSpace(c: char)
  {
    || ('\t' <= c <= '\r')
    || ('\U{1C}' <= c <= ' ')
    || c == '\U{85}' || c == '\U{A0}' || c == '\U{1680}'
    || ('\U{2000}' <= c <= '\U{200A}')
    || c == '\U{2028}' || c == '\U{2029}' || c == '\U{202F}' || c == '\U{205F}' || c == '\U{3000}'
  }

  /** The code points at which `str.splitlines` ends a line. */
  predicate IsLineBreak(c: char)
  {
    || ('\n' <= c <= '\r')
    || ('\U{1C}' <= c <= '\U{1E}')
    || c == '\U{85}' || c == '\U{2028}' || c == '\U{2029}'
  }

  predicate NoLineBreak(s: string)
  {
    forall j :: 0 <= j < |s| ==> !IsLineBreak(s[j])
  }

  predicate NoSpace(s: string)
  {
    forall j :: 0 <= j < |s| ==> !IsSpace(s[j])
  }

  predicate AllSpace(s: string)
  {
    forall j :: 0 <= j < |s| ==> IsSpace(s[j])
  }

  // ---------------------------------------------------------------------------------------
  // Lines

  /** Index of the first line boundary in `s`, or `|s|` when there is none. */
  function LineEnd(s: string): (i: nat)
    ensures i <= |s|
    ensures NoLineBreak(s[..i])
    ensures i < |s| ==> IsLineBreak(s[i])
  {
    if s == [] || IsLineBreak(s[0]) then 0
    else
      var i := 1 + LineEnd(s[1..]);
      assert s[..i] == [s[0]] + s[1..][..i - 1];
      i
  }

  /** `s.splitlines()`: the lines of `s` without their terminators. "\r\n" ends a line as one
      boundary, and a terminator at the very end does not start another, empty line. */
  function SplitLines(s: string): (r: seq<string>)
    ensures forall i :: 0 <= i < |r| ==> NoLineBreak(r[i])
    ensures r == [] <==> s == []
    decreases |s|
  {
    if s == [] then []
    else
      var i := LineEnd(s);
      if i == |s| then
        assert s[..i] == s;
        [s]
      else
        var next := if s[i] == '\r' && i + 1 < |s| && s[i + 1] == '\n' then i + 2 else i + 1;
        [s[..i]] + SplitLines(s[next..])
  }

  /** Text made of the given lines, each followed by "\n" (the shape of command output). */
  function JoinLines(ls: seq<string>): string
  {
    if ls == [] then "" else ls[0] + "\n" + JoinLines(ls[1..])
  }

  /** The first boundary is where `LineEnd` stops: no index before it is a boundary, and the
      one at it is. */
  lemma {:induction false} LineEndIsFirst(s: string, k: nat)
    requires k <= |s| && NoLineBreak(s[..k])
    requires k < |s| ==> IsLineBreak(s[k])
    ensures LineEnd(s) == k
  {
    if k > 0 {
      assert s[..k][0] == s[0];
      assert s[1..][..k - 1] == s[..k][1..];
      LineEndIsFirst(s[1..], k - 1);
    }
  }

  /** Splitting text that was built line by line gives the lines back. */
  lemma {:induction false} SplitJoinLines(ls: seq<string>)
    requires forall i :: 0 <= i < |ls| ==> NoLineBreak(ls[i])
    ensures SplitLines(JoinLines(ls)) == ls
  {
    if ls != [] {
      var rest := JoinLines(ls[1..]);
      var s := ls[0] + "\n" + rest;
      assert s[..|ls[0]|] == ls[0];
      LineEndIsFirst(s, |ls[0]|);
      assert s[|ls[0]| + 1..] == rest;
      SplitJoinLines(ls[1..]);
      assert ls == [ls[0]] + ls[1..];
    }
  }

  // ---------------------------------------------------------------------------------------
  // Words

  /** Index of the first whitespace in `s`, or `|s|` when there is none. */
  function WordEnd(s: string): (i: nat)
    ensures i <= |s|
    ensures NoSpace(s[..i])
    ensures i < |s| ==> IsSpace(s[i])
  {
    if s == [] || IsSpace(s[0]) then 0
    else
      var i := 1 + WordEnd(s[1..]);
      assert s[..i] == [s[0]] + s[1..][..i - 1];
      i
  }

  /** `s.split()`: the maximal runs of non-whitespace, in order; leading, trailing and repeated
      whitespace yields no empty words. */
  function Words(s: string): (r: seq<string>)
    decreases |s|
  {
    if s == [] then []
    else if IsSpace(s[0]) then Words(s[1..])
    else
      var i := WordEnd(s);
      [s[..i]] + Words(s[i..])
  }

  /** Every word is a non-empty run without whitespace. */
  lemma {:induction false} WordsAreTokens(s: string)
    ensures forall i :: 0 <= i < |Words(s)| ==> Words(s)[i] != [] && NoSpace(Words(s)[i])
    decreases |s|
  {
    if s != [] {
      if IsSpace(s[0]) {
        WordsAreTokens(s[1..]);
      } else {
        var i := WordEnd(s);
        WordsAreTokens(s[i..]);
      }
    }
  }

  /** Words separated by one space each. */
  function JoinWords(ws: seq<string>): string
  {
    if ws == [] then ""
    else if |ws| == 1 then ws[0]
    else ws[0] + " " + JoinWords(ws[1..])
  }

  lemma {:induction false} WordEndIsFirst(s: string, k: nat)
    requires k <= |s| && NoSpace(s[..k])
    requires k < |s| ==> IsSpace(s[k])
    ensures WordEnd(s) == k
  {
    if k > 0 {
      assert s[..k][0] == s[0];
      assert s[1..][..k - 1] == s[..k][1..];
      WordEndIsFirst(s[1..], k - 1);
    }
  }

  /** Splitting space-separated words gives the words back. */
  lemma {:induction false} SplitJoinWords(ws: seq<string>)
    requires forall i :: 0 <= i < |ws| ==> ws[i] != [] && NoSpace(ws[i])
    ensures Words(JoinWords(ws)) == ws
  {
    if |ws| == 1 {
      assert ws[0][..|ws[0]|] == ws[0];
      WordEndIsFirst(ws[0], |ws[0]|);
      assert ws[0][|ws[0]|..] == [];
    } else if |ws| > 1 {
      var rest := JoinWords(ws[1..]);
      var s := ws[0] + " " + rest;
      assert s[..|ws[0]|] == ws[0];
      WordEndIsFirst(s, |ws[0]|);
      assert s[|ws[0]|..] == " " + rest;
      assert (" " + rest)[1..] == rest;
      SplitJoinWords(ws[1..]);
      assert ws == [ws[0]] + ws[1..];
    }
  }

  // ---------------------------------------------------------------------------------------
  // Strip, partition, replace

  function TrimStart(s: string): (r: string)
    ensures |r| <= |s| && r == s[|s| - |r|..]
    ensures AllSpace(s[..|s| - |r|])
    ensures r == [] || !IsSpace(r[0])
  {
    if s != [] && IsSpace(s[0]) then
      var r := TrimStart(s[1..]);
      assert s[..|s| - |r|] == [s[0]] + s[1..][..|s| - 1 - |r|];
      r
    else s
  }

  function TrimEnd(s: string): (r: string)
    ensures |r| <= |s| && r == s[..|r|]
    ensures AllSpace(s[|r|..])
    ensures r == [] || !IsSpace(r[|r| - 1])
  {
    if s != [] && IsSpace(s[|s| - 1]) then
      var r := TrimEnd(s[..|s| - 1]);
      assert s[|r|..] == s[..|s| - 1][|r|..] + [s[|s| - 1]];
      r
    else s
  }

  /** `s.strip()`: `s` without its leading and trailing whitespace. */
  function Strip(s: string): (r: string)
    ensures r == [] || (!IsSpace(r[0]) && !IsSpace(r[|r| - 1]))
    ensures NoSpace(s) ==> r == s
  {
    var t := TrimStart(s);
    assert NoSpace(s) && s != [] ==> t == s by {
      if NoSpace(s) && s != [] { assert !IsSpace(s[0]); }
    }
    var r := TrimEnd(t);
    assert NoSpace(s) && t != [] ==> r == t by {
      if NoSpace(s) && t != [] { assert t[|t| - 1] == s[|s| - 1]; }
    }
    r
  }

  lemma {:induction false} TrimStartPadded(pre: string, t: string)
    requires AllSpace(pre) && (t == [] || !IsSpace(t[0]))
    ensures TrimStart(pre + t) == t
  {
    if pre != [] {
      assert (pre + t)[0] == pre[0];
      assert (pre + t)[1..] == pre[1..] + t;
      TrimStartPadded(pre[1..], t);
    } else {
      assert pre + t == t;
    }
  }

  lemma {:induction false} TrimEndPadded(t: string, post: string)
    requires AllSpace(post) && (t == [] || !IsSpace(t[|t| - 1]))
    ensures TrimEnd(t + post) == t
  {
    if post != [] {
      var s := t + post;
      assert s[|s| - 1] == post[|post| - 1];
      assert s[..|s| - 1] == t + post[..|post| - 1];
      TrimEndPadded(t, post[..|post| - 1]);
    } else {
      assert t + post == t;
    }
  }

  /** Stripping removes exactly the whitespace around a text that starts and ends with a
      non-space. */
  lemma StripPadded(pre: string, w: string, post: string)
    requires AllSpace(pre) && AllSpace(post)
    requires w == [] || (!IsSpace(w[0]) && !IsSpace(w[|w| - 1]))
    ensures Strip(pre + w + post) == w
  {
    if w == [] {
      assert pre + w + post == pre + post + w;
      assert AllSpace(pre + post);
      TrimStartPadded(pre + post, w);
    } else {
      assert pre + w + post == pre + (w + post);
      assert (w + post)[0] == w[0];
      TrimStartPadded(pre, w + post);
      TrimEndPadded(w, post);
    }
  }

  /** `s.partition(sep)` without the separator: the text before the first `sep` and the text
      after it; when `sep` does not occur, all of `s` and the empty string. */
  function Partition(s: string, sep: char): (r: (string, string))
    ensures sep !in r.0
    ensures sep in s ==> s == r.0 + [sep] + r.1
    ensures sep !in s ==> r.0 == s && r.1 == ""
  {
    if s == [] then ("", "")
    else if s[0] == sep then ("", s[1..])
    else
      var t := Partition(s[1..], sep);
      assert s == [s[0]] + s[1..];
      ([s[0]] + t.0, t.1)
  }

  /** `s.replace(c, "")`: `s` with every occurrence of `c` removed. */
  function RemoveAll(s: string, c: char): (r: string)
    ensures c !in r
    ensures c !in s ==> r == s
  {
    if s == [] then []
    else
      assert s == [s[0]] + s[1..];
      (if s[0] == c then [] else [s[0]]) + RemoveAll(s[1..], c)
  }

  lemma {:induction false} RemoveAllAppend(s: string, t: string, c: char)
    ensures RemoveAll(s + t, c) == RemoveAll(s, c) + RemoveAll(t, c)
  {
    if s == [] {
      assert s + t == t;
    } else {
      var head := if s[0] == c then [] else [s[0]];
      assert (s + t)[0] == s[0];
      assert (s + t)[1..] == s[1..] + t;
      assert RemoveAll(s + t, c) == head + RemoveAll(s[1..] + t, c);
      RemoveAllAppend(s[1..], t, c);
    }
  }

  // ---------------------------------------------------------------------------------------
  // Numbers

  predicate IsDigit(c: char)
  {
    '0' <= c <= '9'
  }

  predicate AllDigits(s: string)
  {
    forall j :: 0 <= j < |s| ==> IsDigit(s[j])
  }

  function DigitValue(c: char): nat
    requires IsDigit(c)
  {
    c as int - '0' as int
  }

  function DigitChar(d: nat): (c: char)
    requires d < 10
    ensures IsDigit(c) && DigitValue(c) == d
  {
    ('0' as int + d) as char
  }

  /** The value of a string of decimal digits, most significant first. */
  function DigitsValue(s: string): nat
    requires AllDigits(s)
  {
    if s == [] then 0 else 10 * DigitsValue(s[..|s| - 1]) + DigitValue(s[|s| - 1])
  }

  function Pow10(n: nat): (p: nat)
    ensures p >= 1
  {
    if n == 0 then 1 else 10 * Pow10(n - 1)
  }

  /** `int(w)` for a token `w` without surrounding whitespace: an optional sign, then ASCII
      decimal digits; anything else is the `ValueError` case, `None`. Every `int(...)` in the
      collectors is applied to a word of `split()` or to stripped text, on which the stripping
      `int` does first changes nothing. */
  function ParseInt(t: string): (r: Option<int>)
  {
    var signed := t != [] && (t[0] == '-' || t[0] == '+');
    var digits := if signed then t[1..] else t;
    if digits != [] && AllDigits(digits) then
      Some(if signed && t[0] == '-' then -(DigitsValue(digits) as int) else DigitsValue(digits) as int)
    else None
  }

  /** `int(w)` for each word in turn; the first failure fails the whole list. */
  function ParseInts(ws: seq<string>): (r: Option<seq<int>>)
    ensures r.Some? ==> |r.value| == |ws|
  {
    if ws == [] then Some([])
    else
      match (ParseInt(ws[0]), ParseInts(ws[1..]))
      case (Some(n), Some(ns)) => Some([n] + ns)
      case _ => None
  }

  /** `float(w)` for a token `w` without surrounding whitespace, written as a plain decimal:
      an optional sign, then digits with at most one decimal point and at least one digit in
      all. */
  function ParseDecimal(t: string): (r: Option<real>)
  {
    var signed := t != [] && (t[0] == '-' || t[0] == '+');
    var body := if signed then t[1..] else t;
    match UnsignedDecimal(body)
    case None => None
    case Some(x) => Some(if signed && t[0] == '-' then -x else x)
  }

  /** Digits with at most one decimal point, at least one digit in all. */
  function UnsignedDecimal(body: string): (r: Option<real>)
    ensures r.Some? ==> r.value >= 0.0
  {
    var parts := Partition(body, '.');
    if |parts.0| + |parts.1| > 0 && AllDigits(parts.0) && AllDigits(parts.1) then
      Some(DigitsValue(parts.0) as real + DigitsValue(parts.1) as real / Pow10(|parts.1|) as real)
    else None
  }

  /** `str(n)` for a natural number: its decimal digits without leading zeros. */
  function NatToString(n: nat): (s: string)
    ensures s != [] && AllDigits(s) && DigitsValue(s) == n
    ensures NoSpace(s) && '-' !in s && '+' !in s && '.' !in s && '%' !in s
  {
    if n < 10 then [DigitChar(n)]
    else
      var p := NatToString(n / 10);
      var s := p + [DigitChar(n % 10)];
      assert s[..|s| - 1] == p;
      s
  }

  /** `str(n)` for an integer. */
  function IntToString(n: int): (s: string)
    ensures s != [] && NoSpace(s) && '%' !in s
  {
    if n < 0 then "-" + NatToString(-n) else NatToString(n)
  }

  /** `int(str(n)) == n`. */
  lemma ParseIntToString(n: int)
    ensures ParseInt(IntToString(n)) == Some(n)
  {
    if n < 0 {
      ParseNegative(-n);
    } else {
      ParseNonNegative(n);
    }
  }

  lemma ParseNegative(m: nat)
    requires m > 0
    ensures ParseInt("-" + NatToString(m)) == Some(-(m as int))
  {
    var s := "-" + NatToString(m);
    assert s[0] == '-';
    assert s[1..] == NatToString(m);
  }

  lemma ParseNonNegative(n: nat)
    ensures ParseInt(NatToString(n)) == Some(n)
  {
    var s := NatToString(n);
    assert s[0] != '-' && s[0] != '+';
  }

  /** `float(str(n)) == n` for a whole number. */
  lemma ParseDecimalOfNat(n: nat)
    ensures ParseDecimal(NatToString(n)) == Some(n as real)
  {
    var s := NatToString(n);
    assert s[0] != '-' && s[0] != '+';
    WholeDecimal(s);
  }

  lemma WholeDecimal(t: string)
    requires t != [] && AllDigits(t) && '.' !in t
    ensures UnsignedDecimal(t) == Some(DigitsValue(t) as real)
  {
    assert Partition(t, '.') == (t, "");
  }

  /** The decimal texts of a list of integers, as a program writes its numbers. */
  function Decimals(ns: seq<int>): (ws: seq<string>)
    ensures |ws| == |ns|
    ensures forall i :: 0 <= i < |ws| ==> ws[i] == IntToString(ns[i])
  {
    seq(|ns|, i requires 0 <= i < |ns| => IntToString(ns[i]))
  }

  /** Parsing the decimal texts of integers gives the integers back. */
  lemma {:induction false} ParseIntsDecimals(ns: seq<int>)
    ensures ParseInts(Decimals(ns)) == Some(ns)
  {
    if ns != [] {
      var ws := Decimals(ns);
      ParseIntToString(ns[0]);
      assert ws[1..] == Decimals(ns[1..]);
      ParseIntsDecimals(ns[1..]);
      ParseIntsCons(ws, ns[0], ns[1..]);
      assert [ns[0]] + ns[1..] == ns;
    }
  }

  lemma ParseIntsCons(ws: seq<string>, n: int, ns: seq<int>)
    requires ws != [] && ParseInt(ws[0]) == Some(n) && ParseInts(ws[1..]) == Some(ns)
    ensures ParseInts(ws) == Some([n] + ns)
  {
  }

  /** Every line boundary is whitespace, so text without whitespace has no boundary. */
  lemma NoSpaceNoLineBreak(s: string)
    requires NoSpace(s)
    ensures NoLineBreak(s)
  {
  }

  /** Words joined by spaces make up a single line. */
  lemma {:induction false} JoinWordsOneLine(ws: seq<string>)
    requires forall i :: 0 <= i < |ws| ==> NoSpace(ws[i])
    ensures NoLineBreak(JoinWords(ws))
  {
    if |ws| > 1 {
      JoinWordsOneLine(ws[1..]);
      var s := ws[0] + " " + JoinWords(ws[1..]);
      forall j | 0 <= j < |s| ensures !IsLineBreak(s[j]) {
        if j < |ws[0]| {
          assert s[j] == ws[0][j];
        } else if j > |ws[0]| {
          assert s[j] == JoinWords(ws[1..])[j - |ws[0]| - 1];
        }
      }
    }
  }

  /** `s.splitlines()[n].split()`, or `None` for the `IndexError` when there is no line `n`. */
  function LineWords(s: string, n: nat): (r: Option<seq<string>>)
    ensures r.Some? <==> n < |SplitLines(s)|
    ensures r.Some? ==> r.value == Words(SplitLines(s)[n])
  {
    var lines := SplitLines(s);
    if n < |lines| then Some(Words(lines[n])) else None
  }

  /** In text written as lines of space-separated words, line `n` has exactly its words. */
  lemma LineWordsOfTable(ls: seq<string>, n: nat, ws: seq<string>)
    requires forall i :: 0 <= i < |ls| ==> NoLineBreak(ls[i])
    requires n < |ls| && ls[n] == JoinWords(ws)
    requires forall i :: 0 <= i < |ws| ==> ws[i] != [] && NoSpace(ws[i])
    ensures LineWords(JoinLines(ls), n) == Some(ws)
  {
    SplitJoinLines(ls);
    SplitJoinWords(ws);
  }

  /** Stripping twice is stripping once. */
  lemma StripIdempotent(s: string)
    ensures Strip(Strip(s)) == Strip(s)
  {
    var w := Strip(s);
    assert "" + w + "" == w;
    StripPadded("", w, "");
  }

  // ---------------------------------------------------------------------------------------
  // Case

  function LowerChar(c: char): char
  {
    if 'A' <= c <= 'Z' then (c as int - 'A' as int + 'a' as int) as char else c
  }

  /** `s.lower()` on ASCII text. */
  function Lower(s: string): string
  {
    seq(|s|, i requires 0 <= i < |s| => LowerChar(s[i]))
  }
}
