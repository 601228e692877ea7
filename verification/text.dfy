/** The fragment of Python's `str` that the two jammer scripts use: `strip()`,
    `startswith`, `in`, `replace(pat, "")`, `upper()`, repetition (`"F" * n`) and
    the decimal rendering of an `int` inside an f-string.  Strings are `seq<char>`. */
module Text {

  datatype Option<T> = None | Some(value: T)

  /** Python's `str.isspace()` for one character: the ASCII controls TAB..CR and
      0x1C..0x1F, SPACE, and the Unicode white-space code points. */
  predicate IsSpace(c: char) {
    var n := c as int;
    || 9 <= n <= 13
    || 28 <= n <= 32
    || n == 0x85 || n == 0xA0 || n == 0x1680
    || 0x2000 <= n <= 0x200A
    || n == 0x2028 || n == 0x2029 || n == 0x202F || n == 0x205F || n == 0x3000
  }

  /** The number of white-space characters `s` starts with. */
  function LeadingSpaces(s: string): (n: nat)
    ensures n <= |s|
    ensures forall i :: 0 <= i < n ==> IsSpace(s[i])
    ensures n == |s| || !IsSpace(s[n])
  {
    if s != [] && IsSpace(s[0]) then 1 + LeadingSpaces(s[1..]) else 0
  }

  /** The number of white-space characters `s` ends with. */
  function TrailingSpaces(s: string): (n: nat)
    ensures n <= |s|
    ensures forall i :: |s| - n <= i < |s| ==> IsSpace(s[i])
    ensures n == |s| || !IsSpace(s[|s| - n - 1])
  {
    if s != [] && IsSpace(s[|s| - 1]) then 1 + TrailingSpaces(s[..|s| - 1]) else 0
  }

  /** `s.lstrip()`. */
  function TrimStart(s: string): string {
    s[LeadingSpaces(s)..]
  }

  /** `s.rstrip()`. */
  function TrimEnd(s: string): string {
    s[..|s| - TrailingSpaces(s)]
  }

  /** The result of `s.strip()` starts at `lo` in `s`: everything before and after it
      is white space, and it neither starts nor ends with white space. */
  ghost predicate StrippedAt(s: string, r: string, lo: int) {
    && 0 <= lo <= lo + |r| <= |s|
    && r == s[lo..lo + |r|]
    && (forall i :: 0 <= i < lo ==> IsSpace(s[i]))
    && (forall i :: lo + |r| <= i < |s| ==> IsSpace(s[i]))
    && (r == [] || (!IsSpace(r[0]) && !IsSpace(r[|r| - 1])))
  }

  /** `s.strip()`. */
  function Strip(s: string): (r: string)
    ensures |r| <= |s|
  {
    TrimEnd(TrimStart(s))
  }

  /** `strip()` keeps the window of the line that neither starts nor ends with white
      space, and drops only white space around it. */
  lemma StripWindowed(s: string)
    ensures StrippedAt(s, Strip(s), LeadingSpaces(s))
  {
    var lo := LeadingSpaces(s);
    var t := s[lo..];
    var k := TrailingSpaces(t);
    var r := t[..|t| - k];
    assert TrimStart(s) == t;
    assert Strip(s) == TrimEnd(t) == r;
    assert r == s[lo..lo + |r|];
    forall i | lo + |r| <= i < |s|
      ensures IsSpace(s[i])
    {
      assert s[i] == t[i - lo];
    }
    if r != [] {
      assert r[0] == s[lo] && r[|r| - 1] == t[|t| - k - 1];
    }
    assert forall i :: 0 <= i < lo ==> IsSpace(s[i]);
    assert StrippedAt(s, r, lo);
  }

  /** A string without surrounding white space is its own strip. */
  lemma StripFixed(s: string)
    requires s == [] || (!IsSpace(s[0]) && !IsSpace(s[|s| - 1]))
    ensures Strip(s) == s
  {
  }

  /** Stripping twice is stripping once. */
  lemma StripIdempotent(s: string)
    ensures Strip(Strip(s)) == Strip(s)
  {
    StripWindowed(s);
    StripFixed(Strip(s));
  }

  /** `s.startswith(p)`. */
  predicate StartsWith(s: string, p: string) {
    |p| <= |s| && s[..|p|] == p
  }

  /** `p` occurs in `s` at position `i`. */
  ghost predicate OccursAt(s: string, p: string, i: int) {
    0 <= i && i + |p| <= |s| && s[i..i + |p|] == p
  }

  /** `p in s`. */
  predicate Contains(s: string, p: string)
    ensures Contains(s, p) <==> exists i :: OccursAt(s, p, i)
    decreases |s|
  {
    if StartsWith(s, p) then
      assert OccursAt(s, p, 0);
      true
    else if s == [] then
      assert forall i :: !OccursAt(s, p, i);
      false
    else
      OccursShift(s, p);
      Contains(s[1..], p)
  }

  lemma OccursShift(s: string, p: string)
    requires s != [] && !StartsWith(s, p)
    ensures (exists i :: OccursAt(s[1..], p, i)) <==> (exists i :: OccursAt(s, p, i))
  {
    forall i | OccursAt(s[1..], p, i)
      ensures OccursAt(s, p, i + 1)
    {
      assert s[i + 1..i + 1 + |p|] == s[1..][i..i + |p|];
    }
    forall i | OccursAt(s, p, i)
      ensures OccursAt(s[1..], p, i - 1)
    {
      assert s[0..|p|] == s[..|p|];
      assert i != 0;
      var shifted, window := s[1..][i - 1..i - 1 + |p|], s[i..i + |p|];
      forall k | 0 <= k < |p|
        ensures shifted[k] == window[k]
      {
        assert shifted[k] == s[i + k];
      }
      assert shifted == window;
    }
  }

  /** `s.replace(pat, "")`: a left-to-right scan that deletes each occurrence of
      `pat` and resumes after it, so occurrences never overlap. */
  function RemoveAll(s: string, pat: string): (r: string)
    ensures |r| <= |s|
    ensures !Contains(s, pat) ==> r == s
    ensures pat != [] && Contains(s, pat) ==> |r| <= |s| - |pat|
    decreases |s|
  {
    if pat == [] || s == [] then s
    else if StartsWith(s, pat) then RemoveAll(s[|pat|..], pat)
    else [s[0]] + RemoveAll(s[1..], pat)
  }

  /** The scan keeps everything before the first occurrence, drops that occurrence,
      and carries on with what follows it. */
  lemma {:induction false} RemoveFirst(a: string, pat: string, b: string)
    requires pat != []
    requires forall i :: 0 <= i < |a| ==> !OccursAt(a + pat + b, pat, i)
    ensures RemoveAll(a + pat + b, pat) == a + RemoveAll(b, pat)
    decreases |a|
  {
    var s := a + pat + b;
    if a == [] {
      assert s == pat + b;
      RemoveAllHead(pat, b);
    } else {
      var t := a[1..] + pat + b;
      var tail := RemoveAll(b, pat);
      assert RemoveAll(s, pat) == [a[0]] + RemoveAll(t, pat) by {
        NoOccurrenceShift(a, pat, b);
        assert s[1..] == t && s[0] == a[0];
        RemoveAllSkip(s, pat);
      }
      assert RemoveAll(t, pat) == a[1..] + tail by {
        NoOccurrenceShift(a, pat, b);
        RemoveFirst(a[1..], pat, b);
      }
      ConsSplit(a, tail);
    }
  }

  lemma ConsSplit(a: string, tail: string)
    requires a != []
    ensures [a[0]] + (a[1..] + tail) == a + tail
  {
    assert [a[0]] + a[1..] == a;
  }

  /** The scan drops an occurrence at the head. */
  lemma RemoveAllHead(pat: string, b: string)
    requires pat != []
    ensures RemoveAll(pat + b, pat) == RemoveAll(b, pat)
  {
    assert (pat + b)[..|pat|] == pat;
    assert (pat + b)[|pat|..] == b;
  }

  /** The scan keeps a first character that does not start an occurrence. */
  lemma RemoveAllSkip(s: string, pat: string)
    requires pat != [] && s != [] && !StartsWith(s, pat)
    ensures RemoveAll(s, pat) == [s[0]] + RemoveAll(s[1..], pat)
  {
  }

  /** No occurrence before `|a|` means the string does not start with `pat`, and the
      same holds one character further on. */
  lemma NoOccurrenceShift(a: string, pat: string, b: string)
    requires a != [] && pat != []
    requires forall i :: 0 <= i < |a| ==> !OccursAt(a + pat + b, pat, i)
    ensures !StartsWith(a + pat + b, pat)
    ensures forall i :: 0 <= i < |a| - 1 ==> !OccursAt(a[1..] + pat + b, pat, i)
  {
    var s := a + pat + b;
    var t := a[1..] + pat + b;
    assert !OccursAt(s, pat, 0);
    assert s[..|pat|] == s[0..|pat|];
    assert s[1..] == t;
    forall i | 0 <= i < |a| - 1
      ensures !OccursAt(t, pat, i)
    {
      if OccursAt(t, pat, i) {
        assert s[i + 1..i + 1 + |pat|] == t[i..i + |pat|];
        assert OccursAt(s, pat, i + 1);
      }
    }
  }

  /** Removing a pattern that heads the string and never recurs in the rest leaves
      exactly the rest. */
  lemma RemoveLeading(pat: string, t: string)
    requires pat != []
    requires !Contains(t, pat)
    ensures RemoveAll(pat + t, pat) == t
  {
    assert (pat + t)[..|pat|] == pat;
    assert (pat + t)[|pat|..] == t;
  }

  /** `str.upper()` restricted to ASCII letters. */
  function UpperChar(c: char): char {
    if 'a' <= c <= 'z' then (c as int - 32) as char else c
  }

  function Upper(s: string): (r: string)
    ensures |r| == |s|
    ensures forall i :: 0 <= i < |s| ==> r[i] == UpperChar(s[i])
  {
    if s == [] then [] else [UpperChar(s[0])] + Upper(s[1..])
  }

  /** `c * n` for a one-character string `c`. */
  function Repeat(c: char, n: nat): (r: string)
    ensures |r| == n
    ensures forall i :: 0 <= i < n ==> r[i] == c
  {
    if n == 0 then [] else [c] + Repeat(c, n - 1)
  }

  predicate IsDigit(c: char) {
    '0' <= c <= '9'
  }

  function DigitChar(d: nat): (c: char)
    requires d < 10
    ensures IsDigit(c)
  {
    ('0' as int + d) as char
  }

  function DigitValue(c: char): nat
    requires IsDigit(c)
  {
    c as int - '0' as int
  }

  predicate AllDigits(s: string) {
    forall i :: 0 <= i < |s| ==> IsDigit(s[i])
  }

  /** Decimal rendering of a non-negative `int`, as `f"{n}"` produces it. */
  function NatToString(n: nat): (r: string)
    ensures r != [] && AllDigits(r)
    ensures |r| > 1 ==> r[0] != '0'
  {
    if n < 10 then [DigitChar(n)] else NatToString(n / 10) + [DigitChar(n % 10)]
  }

  /** The value of a string of decimal digits, most significant first. */
  function DigitsValue(s: string): nat
    requires AllDigits(s)
  {
    if s == [] then 0 else DigitsValue(s[..|s| - 1]) * 10 + DigitValue(s[|s| - 1])
  }

  /** Reads a non-empty run of decimal digits; anything else is `None`. */
  function ParseNat(s: string): (r: Option<nat>)
    ensures r.Some? <==> s != [] && AllDigits(s)
  {
    if s != [] && AllDigits(s) then Some(DigitsValue(s)) else None
  }

  lemma {:induction false} DigitsOfNat(n: nat)
    ensures DigitsValue(NatToString(n)) == n
  {
    if n >= 10 {
      DigitsOfNat(n / 10);
      var s := NatToString(n / 10) + [DigitChar(n % 10)];
      assert s[..|s| - 1] == NatToString(n / 10);
    }
  }

  /** Decimal rendering is undone by decimal parsing. */
  lemma ParseNatToString(n: nat)
    ensures ParseNat(NatToString(n)) == Some(n)
  {
    DigitsOfNat(n);
  }
}
