/** The Python string primitives the summary generator relies on. */
module PyText {

  /** `str.isspace()`, which is also what the regular-expression class `\s` matches in a str pattern. */
  predicate IsPySpace(c: char)
  {
    ('\U{9}' <= c <= '\U{D}') || ('\U{1C}' <= c <= '\U{1F}') || c == ' ' ||
    c == '\U{85}' || c == '\U{A0}' || c == '\U{1680}' || ('\U{2000}' <= c <= '\U{200A}') ||
    c == '\U{2028}' || c == '\U{2029}' || c == '\U{202F}' || c == '\U{205F}' || c == '\U{3000}'
  }

  /** The regular-expression class `\d`, restricted to ASCII digits. */
  predicate IsDigit(c: char)
  {
    '0' <= c <= '9'
  }

  predicate AllDigits(s: string)
  {
    forall k :: 0 <= k < |s| ==> IsDigit(s[k])
  }

  /** The length of the longest prefix of `s` matched by `\d*`. */
  function DigitRun(s: string): (n: nat)
    ensures n <= |s| && forall k :: 0 <= k < n ==> IsDigit(s[k])
    ensures n < |s| ==> !IsDigit(s[n])
  {
    if s != [] && IsDigit(s[0]) then 1 + DigitRun(s[1..]) else 0
  }

  /** A run of digits followed by a non-digit is exactly what `\d*` takes. */
  lemma DigitRunOfDigitsThen(d: string, x: string)
    requires AllDigits(d)
    requires x == [] || !IsDigit(x[0])
    ensures DigitRun(d + x) == |d|
  {
    assert forall k :: 0 <= k < |d| ==> (d + x)[k] == d[k];
    assert x != [] ==> (d + x)[|d|] == x[0];
  }

  /** The length of the longest prefix of `s` matched by `\s*`. */
  function SpaceRun(s: string): (n: nat)
    ensures n <= |s|
    ensures forall k :: 0 <= k < n ==> IsPySpace(s[k])
    ensures n < |s| ==> !IsPySpace(s[n])
  {
    if s != [] && IsPySpace(s[0]) then 1 + SpaceRun(s[1..]) else 0
  }

  /** A run of whitespace followed by something else is exactly what `\s*` takes. */
  lemma {:induction false} SpaceRunOfSpacesThen(w: string, x: string)
    requires forall k :: 0 <= k < |w| ==> IsPySpace(w[k])
    requires x == [] || !IsPySpace(x[0])
    ensures SpaceRun(w + x) == |w|
  {
    if w != [] {
      assert (w + x)[1..] == w[1..] + x;
      SpaceRunOfSpacesThen(w[1..], x);
    } else {
      assert w + x == x;
    }
  }

  /** `str.lstrip()`: the leading whitespace removed, and nothing else. */
  function StripStart(s: string): (r: string)
    ensures |r| <= |s| && r == s[|s| - |r|..]
    ensures r == [] || !IsPySpace(r[0])
    ensures forall k :: 0 <= k < |s| - |r| ==> IsPySpace(s[k])
  {
    s[SpaceRun(s)..]
  }

  /** `str.rstrip()`: the trailing whitespace removed, and nothing else. */
  function StripEnd(s: string): (r: string)
    ensures |r| <= |s| && r == s[..|r|]
    ensures r == [] || !IsPySpace(r[|r| - 1])
    ensures forall k :: |r| <= k < |s| ==> IsPySpace(s[k])
  {
    if s != [] && IsPySpace(s[|s| - 1]) then StripEnd(s[..|s| - 1]) else s
  }

  /** `str.strip()`: the slice of `s` left once the whitespace at both ends is removed. Every
      character outside the slice is whitespace, and the slice neither starts nor ends with any. */
  function Strip(s: string): (r: string)
    ensures |r| <= |s| - SpaceRun(s) && r == s[SpaceRun(s)..SpaceRun(s) + |r|]
    ensures forall k :: 0 <= k < SpaceRun(s) ==> IsPySpace(s[k])
    ensures forall k :: SpaceRun(s) + |r| <= k < |s| ==> IsPySpace(s[k])
    ensures r == [] || (!IsPySpace(r[0]) && !IsPySpace(r[|r| - 1]))
  {
    StripEndOfSuffix(s, SpaceRun(s));
    StripEnd(StripStart(s))
  }

  /** Right-stripping a suffix of `s` leaves a slice of `s` followed only by whitespace. */
  lemma StripEndOfSuffix(s: string, n: nat)
    requires n <= |s|
    ensures |StripEnd(s[n..])| <= |s| - n && StripEnd(s[n..]) == s[n..n + |StripEnd(s[n..])|]
    ensures forall k :: n + |StripEnd(s[n..])| <= k < |s| ==> IsPySpace(s[k])
  {
    var t := s[n..];
    var r := StripEnd(t);
    assert forall k :: n + |r| <= k < |s| ==> s[k] == t[k - n];
  }

  /** Characters of `Strip(s)` are characters of `s`. */
  lemma StripKeepsOut(s: string, c: char)
    requires c !in s
    ensures c !in Strip(s)
  {
    var t := StripStart(s);
    assert t == s[|s| - |t|..];
    assert Strip(s) == t[..|Strip(s)|];
  }

  function Zeros(n: nat): (z: string)
    ensures |z| == n && forall k :: 0 <= k < n ==> z[k] == '0'
  {
    if n == 0 then "" else "0" + Zeros(n - 1)
  }

  /** `str.zfill(width)`: zeros inserted after a leading sign up to `width` characters. */
  function ZFill(s: string, width: int): (r: string)
    ensures |r| == if width > |s| then width else |s|
    ensures s != [] && s[0] != '+' && s[0] != '-' && width > |s| ==> r == Zeros(width - |s|) + s
    ensures width <= |s| ==> r == s
  {
    if width <= |s| then s
    else if s != [] && (s[0] == '+' || s[0] == '-') then [s[0]] + Zeros(width - |s|) + s[1..]
    else Zeros(width - |s|) + s
  }

  /** Padding adds only zeros. */
  lemma ZFillKeepsOut(s: string, width: int, c: char)
    requires c !in s && c != '0'
    ensures c !in ZFill(s, width)
  {
    if width > |s| && s != [] && (s[0] == '+' || s[0] == '-') {
      assert c !in s[1..];
    }
  }
}
