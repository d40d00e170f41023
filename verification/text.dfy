/** String primitives the assembler relies on: Python's `str.strip()` over a
    fixed whitespace set, `sep.join(parts)` and `str(n)` for naturals. */
module Text {

  /** The characters `str.strip()` removes here: the ASCII characters Python
      counts as whitespace, plus NEXT LINE and NO-BREAK SPACE. */
  predicate IsSpace(c: char) {
    || c == ' ' || c == '\t' || c == '\n' || c == '\r'
    || c == '\U{0B}' || c == '\U{0C}'
    || c == '\U{1C}' || c == '\U{1D}' || c == '\U{1E}' || c == '\U{1F}'
    || c == '\U{85}' || c == '\U{A0}'
  }

  /** Every character of `s` is whitespace (so `s.strip()` is empty, and `s` is falsy once stripped). */
  predicate AllSpace(s: string) {
    forall i :: 0 <= i < |s| ==> IsSpace(s[i])
  }

  /** `s` starts and ends with a non-whitespace character, or is empty. */
  predicate Trimmed(s: string) {
    s == [] || (!IsSpace(s[0]) && !IsSpace(s[|s| - 1]))
  }

  predicate IsPrefix(p: string, s: string) {
    |p| <= |s| && s[..|p|] == p
  }

  /** `IsPrefix` is Dafny's sequence prefix `<=`, spelled so that it reads like `IsSuffix`. */
  lemma IsPrefixIsSequencePrefix(p: string, s: string)
    ensures IsPrefix(p, s) <==> p <= s
  {
    if p <= s {
      assert s[..|p|] == p;
    }
  }

  predicate IsSuffix(p: string, s: string) {
    |p| <= |s| && s[|s| - |p|..] == p
  }

  /** `s.lstrip()`: `s` without its leading whitespace. */
  function LStrip(s: string): (r: string)
    ensures |r| <= |s|
    ensures r == [] || !IsSpace(r[0])
  {
    if s != [] && IsSpace(s[0]) then LStrip(s[1..]) else s
  }

  /** `s.rstrip()`: `s` without its trailing whitespace. */
  function RStrip(s: string): (r: string)
    ensures |r| <= |s|
    ensures r == [] || !IsSpace(r[|r| - 1])
  {
    if s != [] && IsSpace(s[|s| - 1]) then RStrip(s[..|s| - 1]) else s
  }

  /** `LStrip` removes only whitespace, and only from the front. */
  lemma {:induction false} LStripDropsLeadingSpace(s: string)
    ensures IsSuffix(LStrip(s), s)
    ensures AllSpace(s[..|s| - |LStrip(s)|])
  {
    if s != [] && IsSpace(s[0]) {
      var t := s[1..];
      var r := LStrip(t);
      LStripDropsLeadingSpace(t);
      assert LStrip(s) == r;
      assert s[|s| - |r|..] == t[|t| - |r|..];
      forall i | 0 <= i < |s| - |r|
        ensures IsSpace(s[i])
      {
        if i > 0 {
          assert s[i] == t[..|t| - |r|][i - 1];
        }
      }
    }
  }

  /** `RStrip` removes only whitespace, and only from the back. */
  lemma {:induction false} RStripDropsTrailingSpace(s: string)
    ensures IsPrefix(RStrip(s), s)
    ensures AllSpace(s[|RStrip(s)|..])
  {
    if s != [] && IsSpace(s[|s| - 1]) {
      var r := RStrip(s[..|s| - 1]);
      RStripDropsTrailingSpace(s[..|s| - 1]);
      assert s[|r|..] == s[..|s| - 1][|r|..] + [s[|s| - 1]];
    }
  }

  /** `s.strip()`: `s` with whitespace removed from both ends. */
  function Strip(s: string): (r: string)
    ensures Trimmed(r)
    ensures r == [] <==> AllSpace(s)
    ensures |r| <= |s|
  {
    var l := LStrip(s);
    var r := RStrip(l);
    LStripDropsLeadingSpace(s);
    RStripDropsTrailingSpace(l);
    assert r == [] ==> AllSpace(s) by {
      if r == [] {
        assert s == s[..|s| - |l|] + l;
        assert l == l[..0] + l[0..];
      }
    }
    r
  }

  /** `Strip` removes only surrounding whitespace: the result sits inside `s`
      between an all-space prefix and an all-space suffix. */
  lemma StripIsInfix(s: string) returns (lo: nat)
    ensures lo + |Strip(s)| <= |s| && s[lo..lo + |Strip(s)|] == Strip(s)
    ensures AllSpace(s[..lo]) && AllSpace(s[lo + |Strip(s)|..])
  {
    var l := LStrip(s);
    LStripDropsLeadingSpace(s);
    RStripDropsTrailingSpace(l);
    lo := |s| - |l|;
    var r := Strip(s);
    assert s[lo..] == l;
    assert s[lo..lo + |r|] == l[..|r|];
    assert s[lo + |r|..] == l[|r|..];
  }

  /** Stripping leaves text that already starts and ends with a non-space unchanged. */
  lemma StripTrimmed(s: string)
    requires Trimmed(s)
    ensures Strip(s) == s
  {
  }

  /** Stripping twice is stripping once. */
  lemma StripIdempotent(s: string)
    ensures Strip(Strip(s)) == Strip(s)
  {
    StripTrimmed(Strip(s));
  }

  /** Stripping text that starts with a non-space keeps every character up to
      the last non-space: a prefix `p` that ends in a non-space survives. */
  lemma {:induction false} RStripKeepsPrefix(p: string, s: string)
    requires IsPrefix(p, s) && p != [] && !IsSpace(p[|p| - 1])
    ensures IsPrefix(p, RStrip(s))
    decreases |s|
  {
    if s != [] && IsSpace(s[|s| - 1]) {
      assert |p| < |s|;
      RStripKeepsPrefix(p, s[..|s| - 1]);
      RStripDropsTrailingSpace(s[..|s| - 1]);
    }
  }

  /** Python's `sep.join(parts)`. */
  function Join(sep: string, parts: seq<string>): (r: string)
    ensures parts != [] ==> IsPrefix(parts[0], r) && IsSuffix(parts[|parts| - 1], r)
    ensures parts == [] ==> r == []
  {
    if parts == [] then []
    else if |parts| == 1 then parts[0]
    else
      var rest := Join(sep, parts[1..]);
      var r := parts[0] + sep + rest;
      assert r[..|parts[0]|] == parts[0];
      assert parts[1..][|parts[1..]| - 1] == parts[|parts| - 1];
      assert r[|r| - |parts[|parts| - 1]|..] == rest[|rest| - |parts[|parts| - 1]|..];
      r
  }

  /** Joining runs the parts together in order with `sep` between neighbours:
      joining two non-empty lists is joining each and putting `sep` between. */
  lemma {:induction false} JoinAppend(sep: string, xs: seq<string>, ys: seq<string>)
    requires xs != [] && ys != []
    ensures Join(sep, xs + ys) == Join(sep, xs) + sep + Join(sep, ys)
  {
    if |xs| == 1 {
      assert (xs + ys)[1..] == ys;
    } else {
      assert (xs + ys)[1..] == xs[1..] + ys;
      JoinAppend(sep, xs[1..], ys);
    }
  }

  /** The characters Python prints for a decimal digit. */
  predicate IsDigit(c: char) {
    '0' <= c <= '9'
  }

  function DigitChar(d: nat): (c: char)
    requires d < 10
    ensures IsDigit(c) && c as int - '0' as int == d
  {
    (d + '0' as int) as char
  }

  /** Python's `str(n)` for a natural: its decimal digits, without leading zeros. */
  function NatToString(n: nat): (r: string)
    ensures r != []
    ensures forall i :: 0 <= i < |r| ==> IsDigit(r[i])
    ensures |r| > 1 ==> r[0] != '0'
  {
    if n < 10 then [DigitChar(n)] else NatToString(n / 10) + [DigitChar(n % 10)]
  }

  /** The number a string of decimal digits denotes: the reading side of `NatToString`. */
  function DecimalValue(s: string): nat
    requires forall i :: 0 <= i < |s| ==> IsDigit(s[i])
  {
    if s == [] then 0
    else
      assert IsDigit(s[|s| - 1]);
      DecimalValue(s[..|s| - 1]) * 10 + (s[|s| - 1] as int - '0' as int)
  }

  /** Reading back the digits written by `NatToString` yields the number: a label's ordinal is recoverable. */
  lemma {:induction false} NatToStringRoundTrip(n: nat)
    ensures DecimalValue(NatToString(n)) == n
  {
    if n >= 10 {
      var s := NatToString(n);
      assert s[..|s| - 1] == NatToString(n / 10);
      NatToStringRoundTrip(n / 10);
    }
  }

  /** Distinct ordinals are written as distinct strings. */
  lemma NatToStringInjective(m: nat, n: nat)
    requires NatToString(m) == NatToString(n)
    ensures m == n
  {
    NatToStringRoundTrip(m);
    NatToStringRoundTrip(n);
  }
}
