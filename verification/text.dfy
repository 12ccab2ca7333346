/** The string operations of Rust's `str` that the samplers rely on:
    `split_ascii_whitespace`, `trim`, `strip_prefix`, `strip_suffix`,
    `split('\n').next()` and right-aligned `format!` padding. */
module Text {
  import opened Errors

  /** `u8::is_ascii_whitespace`: space, tab, line feed, form feed, carriage return
      (vertical tab is not included). */
  predicate IsAsciiWhitespace(c: char) {
    c == ' ' || c == '\t' || c == '\n' || c == '\U{000C}' || c == '\r'
  }

  /** `char::is_whitespace`: the Unicode White_Space property, used by `str::trim`. */
  predicate IsWhitespace(c: char) {
    ('\U{0009}' <= c <= '\U{000D}') || c == ' ' || c == '\U{0085}' || c == '\U{00A0}' ||
    c == '\U{1680}' || ('\U{2000}' <= c <= '\U{200A}') || c == '\U{2028}' ||
    c == '\U{2029}' || c == '\U{202F}' || c == '\U{205F}' || c == '\U{3000}'
  }

  // ---------------------------------------------------------------- tokens

  /** Length of the longest prefix of `s` free of ASCII whitespace. */
  function WordLen(s: string): (n: nat)
    ensures n <= |s|
    ensures forall i :: 0 <= i < n ==> !IsAsciiWhitespace(s[i])
    ensures n < |s| ==> IsAsciiWhitespace(s[n])
  {
    if |s| == 0 || IsAsciiWhitespace(s[0]) then 0 else 1 + WordLen(s[1..])
  }

  predicate IsToken(t: string) {
    |t| > 0 && forall i :: 0 <= i < |t| ==> !IsAsciiWhitespace(t[i])
  }

  /** `str::split_ascii_whitespace`: the maximal runs of non-whitespace, in order. */
  function Tokens(s: string): (ts: seq<string>)
    ensures forall k :: 0 <= k < |ts| ==> IsToken(ts[k])
    decreases |s|
  {
    if |s| == 0 then []
    else if IsAsciiWhitespace(s[0]) then Tokens(s[1..])
    else
      var n := WordLen(s);
      [s[..n]] + Tokens(s[n..])
  }

  /** A word ends at the first whitespace character, whatever follows it. */
  lemma {:induction false} WordLenStopsAt(a: string, c: char, b: string)
    requires IsAsciiWhitespace(c)
    ensures WordLen(a + [c] + b) == WordLen(a)
    ensures (a + [c] + b)[..WordLen(a)] == a[..WordLen(a)]
    decreases |a|
  {
    var s := a + [c] + b;
    if |a| == 0 {
      assert s[0] == c;
    } else if !IsAsciiWhitespace(a[0]) {
      assert s[1..] == a[1..] + [c] + b;
      WordLenStopsAt(a[1..], c, b);
    }
  }

  /** Joining two strings with a whitespace character concatenates their tokens. */
  lemma {:induction false} TokensOfSeparated(a: string, c: char, b: string)
    requires IsAsciiWhitespace(c)
    ensures Tokens(a + [c] + b) == Tokens(a) + Tokens(b)
    decreases |a|
  {
    var s := a + [c] + b;
    if |a| == 0 {
      assert s == [c] + b;
      assert s[1..] == b;
    } else if IsAsciiWhitespace(a[0]) {
      assert s[1..] == a[1..] + [c] + b;
      TokensOfSeparated(a[1..], c, b);
    } else {
      WordLenStopsAt(a, c, b);
      var n := WordLen(a);
      assert s[n..] == a[n..] + [c] + b;
      TokensOfSeparated(a[n..], c, b);
    }
  }

  /** A string that is one token tokenizes to itself. */
  lemma TokensOfToken(t: string)
    requires IsToken(t)
    ensures Tokens(t) == [t]
  {
    assert WordLen(t) == |t|;
    assert t[..|t|] == t;
  }

  /** `ts.join(" ")`. */
  function JoinSpaced(ts: seq<string>): string {
    if |ts| == 0 then ""
    else if |ts| == 1 then ts[0]
    else ts[0] + " " + JoinSpaced(ts[1..])
  }

  /** Splitting inverts joining with single spaces. */
  lemma {:induction false} TokensOfJoin(ts: seq<string>)
    requires forall k :: 0 <= k < |ts| ==> IsToken(ts[k])
    ensures Tokens(JoinSpaced(ts)) == ts
    decreases |ts|
  {
    if |ts| == 1 {
      TokensOfToken(ts[0]);
    } else if |ts| > 1 {
      TokensOfJoin(ts[1..]);
      TokensOfToken(ts[0]);
      assert ts[0] + " " + JoinSpaced(ts[1..]) == ts[0] + [' '] + JoinSpaced(ts[1..]);
      TokensOfSeparated(ts[0], ' ', JoinSpaced(ts[1..]));
      assert ts == [ts[0]] + ts[1..];
    }
  }

  // ---------------------------------------------------------------- trim

  function TrimStart(s: string): (r: string)
    ensures |r| <= |s| && r == s[|s| - |r|..]
    ensures forall i :: 0 <= i < |s| - |r| ==> IsWhitespace(s[i])
    ensures |r| > 0 ==> !IsWhitespace(r[0])
  {
    if |s| > 0 && IsWhitespace(s[0]) then TrimStart(s[1..]) else s
  }

  function TrimEnd(s: string): (r: string)
    ensures |r| <= |s| && r == s[..|r|]
    ensures forall i :: |r| <= i < |s| ==> IsWhitespace(s[i])
    ensures |r| > 0 ==> !IsWhitespace(r[|r| - 1])
  {
    if |s| > 0 && IsWhitespace(s[|s| - 1]) then TrimEnd(s[..|s| - 1]) else s
  }

  /** `r` is `s[i..i + |r|]` and everything of `s` outside that slice is whitespace. */
  predicate SliceAmidWhitespace(s: string, r: string, i: nat) {
    i + |r| <= |s| && r == s[i..i + |r|] &&
    (forall k :: 0 <= k < i ==> IsWhitespace(s[k])) &&
    (forall k :: i + |r| <= k < |s| ==> IsWhitespace(s[k]))
  }

  /** `str::trim`: the slice of `s` left after dropping leading and trailing
      whitespace; it neither starts nor ends with whitespace. */
  function Trim(s: string): (r: string)
    ensures exists i: nat :: SliceAmidWhitespace(s, r, i)
    ensures |r| > 0 ==> !IsWhitespace(r[0]) && !IsWhitespace(r[|r| - 1])
  {
    var a := TrimStart(s);
    var r := TrimEnd(a);
    var i := |s| - |a|;
    assert r == s[i..i + |r|];
    forall k | i + |r| <= k < |s|
      ensures IsWhitespace(s[k])
    {
      assert s[k] == a[k - i];
    }
    assert SliceAmidWhitespace(s, r, i);
    r
  }

  /** Trimming leaves alone a string that neither starts nor ends with whitespace. */
  lemma TrimUntouched(s: string)
    requires |s| > 0 ==> !IsWhitespace(s[0]) && !IsWhitespace(s[|s| - 1])
    ensures Trim(s) == s
  {
  }

  // ---------------------------------------------------------------- affixes

  /** `str::strip_prefix`. */
  function StripPrefix(s: string, p: string): (r: Option<string>)
    ensures r.Some? <==> p <= s
    ensures r.Some? ==> p + r.value == s
  {
    if p <= s then Some(s[|p|..]) else None
  }

  predicate IsSuffix(p: string, s: string) {
    |p| <= |s| && s[|s| - |p|..] == p
  }

  /** `str::strip_suffix`. */
  function StripSuffix(s: string, p: string): (r: Option<string>)
    ensures r.Some? <==> IsSuffix(p, s)
    ensures r.Some? ==> r.value + p == s
  {
    if IsSuffix(p, s) then Some(s[..|s| - |p|]) else None
  }

  // ---------------------------------------------------------------- lines

  function IndexOf(s: string, c: char): (n: nat)
    ensures n <= |s|
    ensures forall i :: 0 <= i < n ==> s[i] != c
    ensures n < |s| ==> s[n] == c
  {
    if |s| == 0 || s[0] == c then 0 else 1 + IndexOf(s[1..], c)
  }

  /** `s.split('\n').next()`: the split iterator always yields at least one piece,
      the text before the first line feed (all of `s` when there is none). */
  function FirstLine(s: string): (r: Option<string>)
    ensures r.Some?
    ensures r.value <= s && '\n' !in r.value
    ensures |r.value| < |s| ==> s[|r.value|] == '\n'
  {
    Some(s[..IndexOf(s, '\n')])
  }

  // ---------------------------------------------------------------- padding

  function Spaces(n: nat): (r: string)
    ensures |r| == n && forall i :: 0 <= i < n ==> r[i] == ' '
  {
    if n == 0 then "" else " " + Spaces(n - 1)
  }

  /** `format!("{s:>w}")`: right-aligned in a field of `w` characters, padded with spaces. */
  function PadLeft(s: string, w: nat): (r: string)
    ensures |s| >= w ==> r == s
    ensures |s| < w ==> |r| == w
    ensures IsSuffix(s, r)
    ensures forall i :: 0 <= i < |r| - |s| ==> r[i] == ' '
  {
    if |s| >= w then s else Spaces(w - |s|) + s
  }

  /** Left padding is undone by trimming leading whitespace. */
  lemma {:induction false} TrimStartOfPadded(s: string, w: nat)
    requires |s| > 0 && !IsWhitespace(s[0])
    ensures TrimStart(PadLeft(s, w)) == s
    decreases w
  {
    if |s| < w {
      var p := PadLeft(s, w);
      assert p == " " + PadLeft(s, w - 1) by {
        assert Spaces(w - |s|) == " " + Spaces(w - 1 - |s|);
      }
      assert p[1..] == PadLeft(s, w - 1);
      TrimStartOfPadded(s, w - 1);
    }
  }
}
