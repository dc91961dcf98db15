/**
 * The few Python string operations the probes rely on: `str.isspace`,
 * `lstrip`/`rstrip`, `split()` with and without a separator, `join`, and the
 * decimal rendering and parsing of integers (`str(n)`, `"%02d"`, `int(s)`).
 */
module Text {
  import opened Wrappers

  /** Python's `str.isspace()` on one character (the Unicode whitespace set). */
  predicate IsSpace(c: char) {
    ('\t' <= c <= '\r') || ('\U{1C}' <= c <= ' ') || c == '\U{85}' || c == '\U{A0}'
    || c == '\U{1680}' || ('\U{2000}' <= c <= '\U{200A}') || c == '\U{2028}' || c == '\U{2029}'
    || c == '\U{202F}' || c == '\U{205F}' || c == '\U{3000}'
  }

  predicate AllSpace(s: string) {
    forall i :: 0 <= i < |s| ==> IsSpace(s[i])
  }

  predicate NoSpace(s: string) {
    forall i :: 0 <= i < |s| ==> !IsSpace(s[i])
  }

  /** The number of whitespace characters `s` starts with. */
  function LeadingSpaces(s: string): (n: nat)
    ensures n <= |s|
    ensures forall i :: 0 <= i < n ==> IsSpace(s[i])
    ensures n == |s| || !IsSpace(s[n])
  {
    if |s| > 0 && IsSpace(s[0]) then 1 + LeadingSpaces(s[1..]) else 0
  }

  /** `s.lstrip()`: drops the leading whitespace, and only that. */
  function LStrip(s: string): (r: string)
    ensures |r| <= |s| && r == s[|s| - |r|..]
    ensures forall i :: 0 <= i < |s| - |r| ==> IsSpace(s[i])
    ensures r == [] || !IsSpace(r[0])
  {
    s[LeadingSpaces(s)..]
  }

  /** A string of whitespace strips to nothing. */
  lemma {:induction false} LStripAllSpace(s: string)
    requires AllSpace(s)
    ensures LeadingSpaces(s) == |s| && LStrip(s) == []
  {
    if s != [] {
      LStripAllSpace(s[1..]);
    }
  }

  /** `s.rstrip()`: drops the trailing whitespace, and only that. */
  function RStrip(s: string): (r: string)
    ensures |r| <= |s| && r == s[..|r|]
    ensures forall i :: |r| <= i < |s| ==> IsSpace(s[i])
    ensures r == [] || !IsSpace(r[|r| - 1])
  {
    if |s| > 0 && IsSpace(s[|s| - 1]) then RStrip(s[..|s| - 1]) else s
  }

  /** The three facts RStrip ensures determine its result: any prefix of `s` that
      ends in a non-space and leaves only whitespace behind is `RStrip(s)`. */
  lemma RStripUnique(s: string, t: string)
    requires |t| <= |s| && t == s[..|t|]
    requires AllSpace(s[|t|..])
    requires t == [] || !IsSpace(t[|t| - 1])
    ensures t == RStrip(s)
  {
  }

  /** Stripping twice strips nothing more. */
  lemma RStripIdempotent(s: string)
    ensures RStrip(RStrip(s)) == RStrip(s)
  {
  }

  /** The longest prefix of `s` without whitespace. */
  function TakeWord(s: string): (w: string)
    ensures |w| <= |s| && w == s[..|w|] && NoSpace(w)
    ensures |w| == |s| || IsSpace(s[|w|])
  {
    if s == [] || IsSpace(s[0]) then [] else [s[0]] + TakeWord(s[1..])
  }

  /**
   * `s.split(maxsplit=1)`: the first whitespace-delimited word, and the rest
   * of the line after the whitespace that follows it (trailing whitespace of
   * the rest is kept). The list has 0, 1 or 2 entries, as in Python.
   */
  function SplitFirstWord(s: string): (parts: seq<string>)
    ensures |parts| <= 2
    ensures |parts| == 0 <==> AllSpace(s)
    ensures forall i :: 0 <= i < |parts| ==> parts[i] != [] && !IsSpace(parts[i][0])
    ensures |parts| >= 1 ==> NoSpace(parts[0])
  {
    var t := LStrip(s);
    if t == [] then []
    else
      assert t[0] == s[|s| - |t|];
      var w := TakeWord(t);
      assert w != [] && w[0] == t[0];
      var rest := LStrip(t[|w|..]);
      if rest == [] then [w] else [w, rest]
  }

  lemma {:induction false} LStripAfterSpace(lead: string, x: string)
    requires AllSpace(lead)
    requires x == [] || !IsSpace(x[0])
    ensures LStrip(lead + x) == x
  {
    if lead != [] {
      assert (lead + x)[1..] == lead[1..] + x;
      LStripAfterSpace(lead[1..], x);
    }
  }

  lemma {:induction false} TakeWordBeforeSpace(w: string, x: string)
    requires NoSpace(w)
    requires x == [] || IsSpace(x[0])
    ensures TakeWord(w + x) == w
  {
    if w != [] {
      assert (w + x)[1..] == w[1..] + x;
      TakeWordBeforeSpace(w[1..], x);
    }
  }

  /** A line laid out as `<word><whitespace><rest>` (with optional leading
      whitespace) splits back into exactly the word and the rest. */
  lemma SplitFirstWordOf(lead: string, word: string, gap: string, rest: string)
    requires AllSpace(lead) && AllSpace(gap) && gap != []
    requires word != [] && NoSpace(word)
    requires rest != [] && !IsSpace(rest[0])
    ensures SplitFirstWord(lead + word + gap + rest) == [word, rest]
  {
    var tail := gap + rest;
    var line := word + tail;
    ConcatAssoc(lead, word, gap, rest);
    LStripAfterSpace(lead, line);
    TakeWordBeforeSpace(word, tail);
    DropPrefix(word, tail);
    LStripAfterSpace(gap, rest);
    SplitFirstWordSteps(lead + line, line, word, rest);
  }

  lemma ConcatAssoc(a: string, b: string, c: string, d: string)
    ensures a + b + c + d == a + (b + (c + d))
  {
  }

  lemma ConcatAssoc3(a: string, b: string, c: string)
    ensures a + b + c == a + (b + c)
  {
  }

  lemma DropPrefix(a: string, b: string)
    ensures (a + b)[|a|..] == b
  {
  }

  /** How `SplitFirstWord` reaches a two-part answer. */
  lemma SplitFirstWordSteps(s: string, t: string, w: string, rest: string)
    requires LStrip(s) == t && t != []
    requires TakeWord(t) == w && LStrip(t[|w|..]) == rest && rest != []
    ensures SplitFirstWord(s) == [w, rest]
  {
  }

  /** `s.split(sep)` for a one-character separator. */
  function Split(s: string, sep: char): (parts: seq<string>)
    ensures |parts| >= 1
    ensures forall i :: 0 <= i < |parts| ==> sep !in parts[i]
  {
    if s == [] then [[]]
    else
      var rest := Split(s[1..], sep);
      if s[0] == sep then [[]] + rest else [[s[0]] + rest[0]] + rest[1..]
  }

  /** `sep.join(parts)`. */
  function Join(parts: seq<string>, sep: string): string {
    if |parts| == 0 then []
    else if |parts| == 1 then parts[0]
    else parts[0] + sep + Join(parts[1..], sep)
  }

  /** Joining the pieces of a split restores the string. */
  lemma {:induction false} JoinSplit(s: string, sep: char)
    ensures Join(Split(s, sep), [sep]) == s
  {
    if s != [] {
      var rest := Split(s[1..], sep);
      JoinSplit(s[1..], sep);
      if s[0] != sep {
        var parts := Split(s, sep);
        if |rest| > 1 {
          assert parts[1..] == rest[1..];
        }
      }
    }
  }

  lemma {:induction false} SplitWithoutSep(a: string, sep: char)
    requires sep !in a
    ensures Split(a, sep) == [a]
  {
    if a != [] {
      assert a[0] in a;
      SplitWithoutSep(a[1..], sep);
      assert [a[0]] + a[1..] == a;
    }
  }

  lemma {:induction false} SplitAtSep(a: string, b: string, sep: char)
    requires sep !in a
    ensures Split(a + [sep] + b, sep) == [a] + Split(b, sep)
  {
    if a == [] {
      assert (a + [sep] + b)[1..] == b;
    } else {
      assert (a + [sep] + b)[1..] == a[1..] + [sep] + b;
      SplitAtSep(a[1..], b, sep);
      assert [a[0]] + a[1..] == a;
    }
  }

  /** Splitting a join restores the pieces, when no piece holds the separator. */
  lemma {:induction false} SplitJoin(parts: seq<string>, sep: char)
    requires |parts| >= 1
    requires forall i :: 0 <= i < |parts| ==> sep !in parts[i]
    ensures Split(Join(parts, [sep]), sep) == parts
  {
    if |parts| == 1 {
      SplitWithoutSep(parts[0], sep);
    } else {
      SplitJoin(parts[1..], sep);
      SplitAtSep(parts[0], Join(parts[1..], [sep]), sep);
      assert [parts[0]] + parts[1..] == parts;
    }
  }

  /** Three pieces without the separator, joined by it, split back into themselves. */
  lemma Split3(a: string, b: string, c: string, sep: char)
    requires sep !in a && sep !in b && sep !in c
    ensures Split(a + [sep] + b + [sep] + c, sep) == [a, b, c]
  {
    Join3(a, b, c, [sep]);
    SplitJoin([a, b, c], sep);
  }

  /** A join of three pieces written out. */
  lemma Join3(a: string, b: string, c: string, sep: string)
    ensures Join([a, b, c], sep) == a + sep + b + sep + c
  {
    assert [a, b, c][1..] == [b, c];
    assert [b, c][1..] == [c];
    assert Join([b, c], sep) == b + sep + c;
    assert a + sep + (b + sep + c) == a + sep + b + sep + c;
  }

  /** Appending one more piece to a non-empty join adds the separator and the piece. */
  lemma {:induction false} JoinAppend(parts: seq<string>, p: string, sep: string)
    requires |parts| >= 1
    ensures Join(parts + [p], sep) == Join(parts, sep) + sep + p
  {
    if |parts| > 1 {
      assert (parts + [p])[1..] == parts[1..] + [p];
      JoinAppend(parts[1..], p, sep);
    }
  }

  predicate IsDigit(c: char) {
    '0' <= c <= '9'
  }

  predicate AllDigits(s: string) {
    forall i :: 0 <= i < |s| ==> IsDigit(s[i])
  }

  function DigitChar(d: nat): (c: char)
    requires d < 10
    ensures IsDigit(c)
  {
    ('0' as int + d) as char
  }

  function DigitValue(c: char): (d: nat)
    requires IsDigit(c)
    ensures d < 10 && DigitChar(d) == c
  {
    c as int - '0' as int
  }

  /** `str(n)` for a natural number: decimal digits, no leading zero. */
  function NatToString(n: nat): (s: string)
    ensures s != [] && AllDigits(s)
    ensures |s| > 1 ==> s[0] != '0'
  {
    if n < 10 then [DigitChar(n)] else NatToString(n / 10) + [DigitChar(n % 10)]
  }

  /** `str(i)` for any integer: a sign exactly for a negative number, then digits. */
  function IntToString(i: int): (s: string)
    ensures s != [] && (s[0] == '-' <==> i < 0)
    ensures AllDigits(if i < 0 then s[1..] else s)
  {
    if i < 0 then "-" + NatToString(-i) else NatToString(i)
  }

  /** `"%0<width>d" % n` for a natural number: pad with zeros on the left. */
  function ZeroPad(s: string, width: nat): (r: string)
    ensures |r| == if |s| < width then width else |s|
    ensures r[|r| - |s|..] == s
    ensures forall i :: 0 <= i < |r| - |s| ==> r[i] == '0'
    ensures AllDigits(s) ==> AllDigits(r)
  {
    if |s| < width then seq(width - |s|, _ => '0') + s else s
  }

  /** The value of a string of decimal digits. */
  function DigitsValue(s: string): nat
    requires AllDigits(s)
  {
    if s == [] then 0 else DigitsValue(s[..|s| - 1]) * 10 + DigitValue(s[|s| - 1])
  }

  /** `int(s)` restricted to plain ASCII digits; `None` where Python raises. */
  function ParseDecimal(s: string): (r: Option<nat>)
    ensures r.Some? <==> s != [] && AllDigits(s)
  {
    if s != [] && AllDigits(s) then Some(DigitsValue(s)) else None
  }

  lemma {:induction false} DigitsValueOfNatToString(n: nat)
    ensures DigitsValue(NatToString(n)) == n
  {
    var s := NatToString(n);
    if n >= 10 {
      DigitsValueOfNatToString(n / 10);
      assert s[..|s| - 1] == NatToString(n / 10);
    }
  }

  lemma {:induction false} DigitsValueOfZeros(z: string)
    requires forall i :: 0 <= i < |z| ==> z[i] == '0'
    ensures AllDigits(z) && DigitsValue(z) == 0
  {
    if z != [] {
      DigitsValueOfZeros(z[..|z| - 1]);
    }
  }

  lemma {:induction false} DigitsValueLeadingZeros(z: string, s: string)
    requires forall i :: 0 <= i < |z| ==> z[i] == '0'
    requires AllDigits(s)
    ensures AllDigits(z + s) && DigitsValue(z + s) == DigitsValue(s)
  {
    DigitsValueOfZeros(z);
    if s != [] {
      assert (z + s)[..|z + s| - 1] == z + s[..|s| - 1];
      DigitsValueLeadingZeros(z, s[..|s| - 1]);
    } else {
      assert z + s == z;
    }
  }

  /** Reading back a zero-padded string of digits gives its value. */
  lemma ParsePaddedDigits(s: string, width: nat)
    requires s != [] && AllDigits(s)
    ensures ParseDecimal(ZeroPad(s, width)) == Some(DigitsValue(s))
  {
    if |s| < width {
      DigitsValueLeadingZeros(seq(width - |s|, _ => '0'), s);
    }
  }

  /** Reading back a zero-padded rendering of `n` gives `n`. */
  lemma ParsePadded(n: nat, width: nat)
    ensures ParseDecimal(ZeroPad(NatToString(n), width)) == Some(n)
  {
    ParsePaddedDigits(NatToString(n), width);
    DigitsValueOfNatToString(n);
  }

  /** Distinct numbers render as distinct strings. */
  lemma NatToStringInjective(m: nat, n: nat)
    requires NatToString(m) == NatToString(n)
    ensures m == n
  {
    DigitsValueOfNatToString(m);
    DigitsValueOfNatToString(n);
  }

  /** The digits after the optional sign read back as the magnitude. */
  lemma IntToStringReadsBack(i: int)
    ensures i < 0 ==> ParseDecimal(IntToString(i)[1..]) == Some(-i)
    ensures i >= 0 ==> ParseDecimal(IntToString(i)) == Some(i)
  {
    if i < 0 {
      assert IntToString(i)[1..] == NatToString(-i);
      DigitsValueOfNatToString(-i);
    } else {
      DigitsValueOfNatToString(i);
    }
  }

  /** Distinct integers render as distinct strings. */
  lemma IntToStringInjective(i: int, j: int)
    requires IntToString(i) == IntToString(j)
    ensures i == j
  {
    IntToStringReadsBack(i);
    IntToStringReadsBack(j);
  }
}
