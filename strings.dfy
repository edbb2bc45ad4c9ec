/** String operations shared by the JavaScript and Python parts of the model. */
module Strings {
  import opened Base

  /** `m` occurs in `s` starting at index `k`. */
  predicate OccursAt(s: string, m: string, k: int)
  {
    0 <= k && k + |m| <= |s| && s[k..k + |m|] == m
  }

  /** JavaScript `s.includes(m)` and Python `m in s`. */
  predicate Contains(s: string, m: string)
  {
    exists k :: 0 <= k <= |s| - |m| && OccursAt(s, m, k)
  }

  /** A string that lacks one of the characters of `m` does not contain `m`. */
  lemma AbsentCharNotContained(s: string, m: string, j: nat)
    requires j < |m|
    requires forall i :: 0 <= i < |s| ==> s[i] != m[j]
    ensures !Contains(s, m)
  {
    forall k | 0 <= k <= |s| - |m| ensures !OccursAt(s, m, k) {
      assert s[k..k + |m|][j] == s[k + j];
    }
  }

  predicate StartsWith(s: string, p: string)
  {
    |p| <= |s| && s[..|p|] == p
  }

  /** The first occurrence of `m` in `s` at or after `from` (Python's `str.find`, JavaScript's `indexOf`). */
  function FindFrom(s: string, m: string, from: nat): (r: Option<nat>)
    ensures r.Some? ==> from <= r.value && OccursAt(s, m, r.value)
    ensures r.Some? ==> forall k :: from <= k < r.value ==> !OccursAt(s, m, k)
    ensures r.None? ==> forall k :: from <= k ==> !OccursAt(s, m, k)
    decreases |s| - from
  {
    if from + |m| > |s| then None
    else if s[from..from + |m|] == m then Some(from)
    else FindFrom(s, m, from + 1)
  }

  function Find(s: string, m: string): (r: Option<nat>)
    ensures r.Some? ==> OccursAt(s, m, r.value) && forall k :: 0 <= k < r.value ==> !OccursAt(s, m, k)
    ensures r.None? <==> !Contains(s, m)
  {
    FindFrom(s, m, 0)
  }

  /** Regrouping a concatenation of three sequences. */
  lemma AppendAssociative<T>(a: seq<T>, b: seq<T>, c: seq<T>)
    ensures a + b + c == a + (b + c)
  {
  }

  /** Python's `sep.join(parts)` and JavaScript's `parts.join(sep)`. */
  function Join(sep: string, parts: seq<string>): string
  {
    if |parts| == 0 then ""
    else if |parts| == 1 then parts[0]
    else parts[0] + sep + Join(sep, parts[1..])
  }

  /** Python's `s.split(c)` for a one-character separator. */
  function Split(s: string, c: char): (r: seq<string>)
    ensures |r| >= 1
    ensures forall i :: 0 <= i < |r| ==> c !in r[i]
    decreases |s|
  {
    if c in s then
      var i := IndexOfChar(s, c);
      [s[..i]] + Split(s[i + 1..], c)
    else [s]
  }

  function IndexOfChar(s: string, c: char): (i: nat)
    requires c in s
    ensures i < |s| && s[i] == c
    ensures forall k :: 0 <= k < i ==> s[k] != c
  {
    if s[0] == c then 0 else 1 + IndexOfChar(s[1..], c)
  }

  lemma {:induction false} JoinCons(sep: string, first: string, rest: seq<string>)
    requires |rest| >= 1
    ensures Join(sep, [first] + rest) == first + sep + Join(sep, rest)
  {
    assert ([first] + rest)[1..] == rest;
  }

  /** Splitting on `c` and joining back with `c` gives the original text. */
  lemma {:induction false} JoinSplit(s: string, c: char)
    ensures Join([c], Split(s, c)) == s
    decreases |s|
  {
    if c in s {
      var i := IndexOfChar(s, c);
      var rest := Split(s[i + 1..], c);
      assert Split(s, c) == [s[..i]] + rest;
      JoinCons([c], s[..i], rest);
      JoinSplit(s[i + 1..], c);
      assert s == s[..i] + [c] + s[i + 1..];
    }
  }

  /** Joining parts free of `c` with `c` and splitting on `c` gives the parts back. */
  lemma {:induction false} SplitJoin(parts: seq<string>, c: char)
    requires |parts| >= 1
    requires forall i :: 0 <= i < |parts| ==> c !in parts[i]
    ensures Split(Join([c], parts), c) == parts
  {
    if |parts| > 1 {
      assert parts == [parts[0]] + parts[1..];
      JoinCons([c], parts[0], parts[1..]);
      SplitAtFirst(parts[0], c, Join([c], parts[1..]));
      SplitJoin(parts[1..], c);
    }
  }

  /** Splitting at the first separator: the text before it is the first part. */
  lemma {:induction false} SplitAtFirst(a: string, c: char, b: string)
    requires c !in a
    ensures Split(a + [c] + b, c) == [a] + Split(b, c)
  {
    var s := a + [c] + b;
    assert s[|a|] == c;
    assert forall k :: 0 <= k < |a| ==> s[k] == a[k];
    IndexOfCharFirst(s, c, |a|);
    assert s[..|a|] == a;
    assert s[|a| + 1..] == b;
  }

  /** A character in neither the parts nor the separator is not in their join. */
  lemma {:induction false} JoinKeepsOut(sep: string, parts: seq<string>, c: char)
    requires c !in sep && forall i :: 0 <= i < |parts| ==> c !in parts[i]
    ensures c !in Join(sep, parts)
  {
    if |parts| > 1 {
      JoinKeepsOut(sep, parts[1..], c);
    }
  }

  lemma IndexOfCharFirst(s: string, c: char, i: nat)
    requires i < |s| && s[i] == c
    requires forall k :: 0 <= k < i ==> s[k] != c
    ensures IndexOfChar(s, c) == i
  {
  }

  /** Code-point-wise lexicographic `a <= b`: Python's and JavaScript's ordering of strings. */
  predicate LexLe(a: string, b: string)
  {
    if a == [] then true
    else if b == [] then false
    else if a[0] != b[0] then a[0] < b[0]
    else LexLe(a[1..], b[1..])
  }

  lemma {:induction false} LexLeReflexive(a: string)
    ensures LexLe(a, a)
  {
    if a != [] { LexLeReflexive(a[1..]); }
  }

  lemma {:induction false} LexLeTotal(a: string, b: string)
    ensures LexLe(a, b) || LexLe(b, a)
  {
    if a != [] && b != [] && a[0] == b[0] { LexLeTotal(a[1..], b[1..]); }
  }

  lemma {:induction false} LexLeAntisymmetric(a: string, b: string)
    requires LexLe(a, b) && LexLe(b, a)
    ensures a == b
  {
    if a != [] && b != [] {
      LexLeAntisymmetric(a[1..], b[1..]);
      assert a == [a[0]] + a[1..] && b == [b[0]] + b[1..];
    }
  }

  lemma {:induction false} LexLeTransitive(a: string, b: string, c: string)
    requires LexLe(a, b) && LexLe(b, c)
    ensures LexLe(a, c)
  {
    if a != [] && b != [] && c != [] && a[0] == b[0] && b[0] == c[0] {
      LexLeTransitive(a[1..], b[1..], c[1..]);
    }
  }
}
