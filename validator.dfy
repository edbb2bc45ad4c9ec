/**
 * `Validator.isEmail`, `Validator.isNotEmpty` and `Validator.isLength` of
 * templates/js/utils.js, over the JavaScript values they are called with.
 */
module Validator {
  import opened Strings

  /** The value passed to a validator: null, undefined or a string. */
  datatype JsValue = JsNull | JsUndefined | JsString(s: string)

  /** The characters of the regular-expression class `\s`, which are also the characters
      `String.prototype.trim` removes: WhiteSpace and LineTerminator of ECMAScript. */
  predicate IsJsSpace(c: char)
  {
    c == '\U{9}' || c == '\U{A}' || c == '\U{B}' || c == '\U{C}' || c == '\U{D}' ||
    c == ' ' || c == '\U{A0}' || c == '\U{1680}' || ('\U{2000}' <= c <= '\U{200A}') ||
    c == '\U{2028}' || c == '\U{2029}' || c == '\U{202F}' || c == '\U{205F}' ||
    c == '\U{3000}' || c == '\U{FEFF}'
  }

  /** The class `[^\s@]` of the default e-mail pattern. */
  predicate EmailChar(c: char)
  {
    !IsJsSpace(c) && c != '@'
  }

  /** `[^\s@]+`. */
  predicate EmailRun(x: string)
  {
    |x| > 0 && forall k :: 0 <= k < |x| ==> EmailChar(x[k])
  }

  /** The language of the default pattern `/^[^\s@]+@[^\s@]+\.[^\s@]+$/`: the text splits at an
      '@' at `i` and a '.' at `j` into three non-empty runs of `[^\s@]`. */
  ghost predicate MatchesEmailPattern(s: string)
  {
    exists i, j :: 0 < i < j < |s| - 1 && s[i] == '@' && s[j] == '.' &&
      EmailRun(s[..i]) && EmailRun(s[i + 1..j]) && EmailRun(s[j + 1..])
  }

  /** `Validator.isEmail(email)` with the default pattern: no whitespace, exactly one '@' with
      something before it, and after it a '.' with something on both sides. */
  function IsEmail(email: string): bool
  {
    '@' in email &&
    var at := IndexOfChar(email, '@');
    var domain := email[at + 1..];
    0 < at &&
    (forall k :: 0 <= k < |email| ==> !IsJsSpace(email[k])) &&
    '@' !in domain &&
    exists j :: 0 < j < |domain| - 1 && domain[j] == '.'
  }

  /** `isEmail` accepts exactly the strings the default pattern matches. */
  lemma IsEmailMatchesPattern(email: string)
    ensures IsEmail(email) <==> MatchesEmailPattern(email)
  {
    if IsEmail(email) {
      AcceptedMatches(email);
    }
    if MatchesEmailPattern(email) {
      var i, j :| 0 < i < j < |email| - 1 && email[i] == '@' && email[j] == '.' &&
        EmailRun(email[..i]) && EmailRun(email[i + 1..j]) && EmailRun(email[j + 1..]);
      MatchAccepted(email, i, j);
    }
  }

  lemma AcceptedMatches(email: string)
    requires IsEmail(email)
    ensures MatchesEmailPattern(email)
  {
    var at := IndexOfChar(email, '@');
    var domain := email[at + 1..];
    var d :| 0 < d < |domain| - 1 && domain[d] == '.';
    var j := at + 1 + d;
    assert email[j] == '.';
    assert EmailRun(email[..at]) by {
      forall k | 0 <= k < at ensures EmailChar(email[..at][k]) {
        assert email[..at][k] == email[k];
      }
    }
    var host, tld := email[at + 1..j], email[j + 1..];
    assert EmailRun(host) by {
      forall k | 0 <= k < |host| ensures EmailChar(host[k]) {
        assert host[k] == domain[k] == email[at + 1 + k];
      }
    }
    assert EmailRun(tld) by {
      forall k | 0 <= k < |tld| ensures EmailChar(tld[k]) {
        assert tld[k] == domain[d + 1 + k] == email[j + 1 + k];
      }
    }
  }

  lemma MatchAccepted(email: string, i: int, j: int)
    requires 0 < i < j < |email| - 1 && email[i] == '@' && email[j] == '.'
    requires EmailRun(email[..i]) && EmailRun(email[i + 1..j]) && EmailRun(email[j + 1..])
    ensures IsEmail(email)
  {
    forall k | 0 <= k < |email| && k != i && k != j ensures EmailChar(email[k]) {
      if k < i {
        assert email[k] == email[..i][k];
      } else if k < j {
        assert email[k] == email[i + 1..j][k - i - 1];
      } else {
        assert email[k] == email[j + 1..][k - j - 1];
      }
    }
    IndexOfCharFirst(email, '@', i);
    var domain := email[i + 1..];
    assert forall k :: 0 <= k < |domain| ==> domain[k] == email[i + 1 + k];
    assert domain[j - i - 1] == '.';
  }

  /** Leading whitespace removed. */
  function TrimStart(s: string): (r: string)
    ensures |r| <= |s| && r == s[|s| - |r|..]
    ensures r == [] || !IsJsSpace(r[0])
    ensures forall k :: 0 <= k < |s| - |r| ==> IsJsSpace(s[k])
  {
    if s != [] && IsJsSpace(s[0]) then TrimStart(s[1..]) else s
  }

  /** Trailing whitespace removed. */
  function TrimEnd(s: string): (r: string)
    ensures |r| <= |s| && r == s[..|r|]
    ensures r == [] || !IsJsSpace(r[|r| - 1])
    ensures forall k :: |r| <= k < |s| ==> IsJsSpace(s[k])
  {
    if s != [] && IsJsSpace(s[|s| - 1]) then TrimEnd(s[..|s| - 1]) else s
  }

  /** `String.prototype.trim`. */
  function Trim(s: string): string
  {
    TrimEnd(TrimStart(s))
  }

  /** Trimming leaves nothing exactly when every character is whitespace. */
  lemma TrimEmptyIffAllSpace(s: string)
    ensures Trim(s) == "" <==> forall k :: 0 <= k < |s| ==> IsJsSpace(s[k])
  {
    var t := TrimStart(s);
    if Trim(s) == "" {
      assert t == [];
    }
    if forall k :: 0 <= k < |s| ==> IsJsSpace(s[k]) {
      if t != [] {
        assert t[0] == s[|s| - |t|];
      }
    }
  }

  /** `value.toString()` for the values modelled. */
  function JsToString(v: JsValue): string
    requires v.JsString?
  {
    v.s
  }

  /** `Validator.isNotEmpty(value)`. */
  function IsNotEmpty(value: JsValue): bool
  {
    value != JsNull && value != JsUndefined && Trim(JsToString(value)) != ""
  }

  /** `isNotEmpty` holds exactly for strings with a non-whitespace character. */
  lemma IsNotEmptyCharacterised(value: JsValue)
    ensures IsNotEmpty(value) <==>
      value.JsString? && exists k :: 0 <= k < |value.s| && !IsJsSpace(value.s[k])
  {
    if value.JsString? {
      TrimEmptyIffAllSpace(value.s);
    }
  }

  /** The upper bound of `isLength`: a number, or the default `Infinity`. */
  datatype Bound = Finite(n: int) | Infinity

  /** A character of the Basic Multilingual Plane: one UTF-16 code unit. */
  predicate InBmp(c: char)
  {
    c as int <= 0xFFFF
  }

  /** JavaScript's `length` of a string: its UTF-16 code units. A character outside the Basic
      Multilingual Plane is a surrogate pair and counts twice. */
  function Utf16Length(s: string): (n: nat)
    ensures |s| <= n <= 2 * |s|
  {
    if s == [] then 0 else (if InBmp(s[0]) then 1 else 2) + Utf16Length(s[1..])
  }

  /** The length of a concatenation is the sum of the lengths. */
  lemma {:induction false} Utf16LengthAppend(a: string, b: string)
    ensures Utf16Length(a + b) == Utf16Length(a) + Utf16Length(b)
  {
    if a != [] {
      assert (a + b)[0] == a[0] && (a + b)[1..] == a[1..] + b;
      Utf16LengthAppend(a[1..], b);
    } else {
      assert a + b == b;
    }
  }

  /** The length counts characters exactly when every character is in the Basic Multilingual Plane. */
  lemma {:induction false} Utf16LengthIsCount(s: string)
    ensures Utf16Length(s) == |s| <==> forall k :: 0 <= k < |s| ==> InBmp(s[k])
  {
    if s != [] {
      Utf16LengthIsCount(s[1..]);
      assert forall k :: 1 <= k < |s| ==> s[k] == s[1..][k - 1];
    }
  }

  /** `(value || '').length`: null, undefined and the empty string count as length 0. */
  function LengthOrZero(value: JsValue): nat
  {
    if value.JsString? then Utf16Length(value.s) else 0
  }

  /** `Validator.isLength(value, min, max)`. */
  function IsLength(value: JsValue, min: int, max: Bound): bool
  {
    var len := LengthOrZero(value);
    len >= min && (max.Infinity? || len <= max.n)
  }

  /** `isLength` measures UTF-16 code units: for text in the Basic Multilingual Plane that is its
      number of characters, and in general a string of n characters measures between n and 2n. */
  lemma IsLengthInCharacters(value: JsValue, min: int, max: Bound)
    ensures value.JsString? && (forall k :: 0 <= k < |value.s| ==> InBmp(value.s[k])) ==>
      (IsLength(value, min, max) <==> min <= |value.s| && (max.Infinity? || |value.s| <= max.n))
    ensures value.JsString? && IsLength(value, min, max) ==>
      min <= 2 * |value.s| && (max.Infinity? || |value.s| <= max.n)
  {
    if value.JsString? {
      Utf16LengthIsCount(value.s);
    }
  }

  /** A single emoji is two code units long: it passes `isLength(value, 2, 2)` and fails
      `isLength(value, 1, 1)`. */
  lemma IsLengthCountsSurrogatePairs()
    ensures IsLength(JsString("\U{1F600}"), 2, Finite(2))
    ensures !IsLength(JsString("\U{1F600}"), 1, Finite(1))
  {
    assert !InBmp("\U{1F600}"[0]);
  }

  /** With the defaults `min = 0` and `max = Infinity` every value passes. */
  lemma IsLengthDefaultsAccept(value: JsValue)
    ensures IsLength(value, 0, Infinity)
  {
  }

  /** null and undefined are measured like the empty string. */
  lemma IsLengthMissingIsEmpty(min: int, max: Bound)
    ensures IsLength(JsNull, min, max) == IsLength(JsUndefined, min, max) == IsLength(JsString(""), min, max)
    ensures IsLength(JsNull, min, max) <==> min <= 0 && (max.Infinity? || 0 <= max.n)
  {
  }
}
