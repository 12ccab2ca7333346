/** Decimal rendering of naturals (Rust's `{}` on an unsigned integer) and
    Rust's `u64::from_str`, with the round trip between the two. */
module Decimal {
  import opened Errors
  import opened Ints

  predicate IsDigit(c: char) {
    '0' <= c <= '9'
  }

  predicate AllDigits(s: string) {
    forall i :: 0 <= i < |s| ==> IsDigit(s[i])
  }

  /** Canonical decimal: non-empty, digits only, no leading zero unless it is "0". */
  predicate Canonical(s: string) {
    |s| > 0 && AllDigits(s) && (|s| > 1 ==> s[0] != '0')
  }

  function DigitValue(c: char): (d: nat)
    requires IsDigit(c)
    ensures d < 10
  {
    c as int - '0' as int
  }

  function DigitChar(d: nat): (c: char)
    requires d < 10
    ensures IsDigit(c) && DigitValue(c) == d
  {
    ('0' as int + d) as char
  }

  /** The number a string of digits denotes, most significant digit first. */
  function DigitsValue(s: string): nat
    requires AllDigits(s)
  {
    if |s| == 0 then 0 else DigitsValue(s[..|s| - 1]) * 10 + DigitValue(s[|s| - 1])
  }

  /** Rust's `format!("{n}")` for an unsigned integer. */
  function NatToString(n: nat): (s: string)
    ensures Canonical(s)
    ensures DigitsValue(s) == n
    ensures n < 10 <==> |s| == 1
  {
    if n < 10 then [DigitChar(n)]
    else
      var p := NatToString(n / 10);
      var s := p + [DigitChar(n % 10)];
      assert s[..|s| - 1] == p;
      s
  }

  /** A non-empty digit string whose first digit is not zero denotes at least that digit. */
  lemma {:induction false} LeadingDigitBound(s: string)
    requires |s| > 0 && AllDigits(s)
    ensures DigitsValue(s) >= DigitValue(s[0])
    decreases |s|
  {
    if |s| > 1 {
      var p := s[..|s| - 1];
      assert p[0] == s[0];
      LeadingDigitBound(p);
    }
  }

  /** The converse round trip: every canonical decimal string is the rendering of its value. */
  lemma {:induction false} CanonicalIsRendering(s: string)
    requires Canonical(s)
    ensures NatToString(DigitsValue(s)) == s
    decreases |s|
  {
    if |s| > 1 {
      var p := s[..|s| - 1];
      assert p[0] == s[0];
      assert Canonical(p);
      CanonicalIsRendering(p);
      LeadingDigitBound(p);
      var v := DigitsValue(p);
      var d := DigitValue(s[|s| - 1]);
      assert DigitsValue(s) == v * 10 + d;
      assert (v * 10 + d) / 10 == v && (v * 10 + d) % 10 == d;
      assert s == p + [s[|s| - 1]];
    }
  }

  /** Rust's `u64::from_str`: an optional single `+` (which may not stand alone),
      then one or more ASCII digits whose value fits in 64 bits. A `-` sign, any
      other character, an empty string or an overflowing value is an error. */
  function ParseU64(s: string): (r: Option<u64>)
    ensures r.Some? ==> |s| > 0
  {
    var digits := if |s| > 1 && s[0] == '+' then s[1..] else s;
    if |digits| == 0 || !AllDigits(digits) || DigitsValue(digits) > U64_MAX then None
    else Some(DigitsValue(digits))
  }

  /** `u64::from_str(s).unwrap_or_default()`. */
  function ParseU64Or0(s: string): u64 {
    ParseU64(s).GetOr(0)
  }

  /** Parsing inverts rendering on the whole `u64` range, with or without a `+` sign. */
  lemma ParseRendering(n: u64)
    ensures ParseU64(NatToString(n)) == Some(n)
    ensures ParseU64("+" + NatToString(n)) == Some(n)
  {
    var s := NatToString(n);
    assert ("+" + s)[1..] == s;
  }

  /** Parsing accepts exactly the signed or unsigned digit strings in range, and
      their value is what they denote. */
  lemma ParseU64Accepts(s: string)
    ensures ParseU64(s).Some? <==>
      (AllDigits(s) && |s| > 0 && DigitsValue(s) <= U64_MAX) ||
      (|s| > 1 && s[0] == '+' && AllDigits(s[1..]) && DigitsValue(s[1..]) <= U64_MAX)
    ensures ParseU64(s).Some? ==>
      ParseU64(s).value == if s[0] == '+' then DigitsValue(s[1..]) else DigitsValue(s)
  {
    if |s| > 0 && s[0] == '+' {
      assert !AllDigits(s) by { assert !IsDigit(s[0]); }
    }
  }

  /** A minus sign is never accepted, not even on zero. */
  lemma ParseU64RejectsMinus(s: string)
    requires |s| > 0 && s[0] == '-'
    ensures ParseU64(s) == None
  {
    assert !IsDigit(s[0]);
  }

  /** Length of the longest prefix of `s` made of digits. */
  function DigitRunLen(s: string): (n: nat)
    ensures n <= |s| && AllDigits(s[..n])
    ensures n < |s| ==> !IsDigit(s[n])
  {
    if |s| == 0 || !IsDigit(s[0]) then 0
    else
      var n := 1 + DigitRunLen(s[1..]);
      assert s[..n] == [s[0]] + s[1..][..n - 1];
      n
  }

  /** The digit run of a digit string followed by a non-digit is that digit string. */
  lemma {:induction false} DigitRunOf(ds: string, t: string)
    requires AllDigits(ds)
    requires |t| > 0 ==> !IsDigit(t[0])
    ensures DigitRunLen(ds + t) == |ds|
    ensures (ds + t)[..|ds|] == ds && (ds + t)[|ds|..] == t
    decreases |ds|
  {
    if |ds| > 0 {
      assert (ds + t)[1..] == ds[1..] + t;
      DigitRunOf(ds[1..], t);
    }
  }
}
