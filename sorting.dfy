/**
 * Python's `sorted(xs, key=..., reverse=...)` on string keys: a stable sort,
 * specified by its output being ordered while the elements that share a key
 * keep their input order.
 */
module Sorting {
  import opened Strings

  /** `a` may come before `b` in the requested direction. */
  predicate Before(descending: bool, a: string, b: string)
  {
    if descending then LexLe(b, a) else LexLe(a, b)
  }

  lemma BeforeTotal(descending: bool, a: string, b: string)
    ensures Before(descending, a, b) || Before(descending, b, a)
  {
    LexLeTotal(a, b);
  }

  lemma BeforeTransitive(descending: bool, a: string, b: string, c: string)
    requires Before(descending, a, b) && Before(descending, b, c)
    ensures Before(descending, a, c)
  {
    if descending { LexLeTransitive(c, b, a); } else { LexLeTransitive(a, b, c); }
  }

  ghost predicate Sorted<T>(s: seq<T>, key: T -> string, descending: bool)
  {
    forall i, j :: 0 <= i < j < |s| ==> Before(descending, key(s[i]), key(s[j]))
  }

  /** The elements of `s` whose key is `k`, in order. */
  function WithKey<T>(s: seq<T>, key: T -> string, k: string): seq<T>
  {
    if s == [] then []
    else WithKey(s[..|s| - 1], key, k) + (if key(s[|s| - 1]) == k then [s[|s| - 1]] else [])
  }

  lemma {:induction false} WithKeyAppend<T>(a: seq<T>, b: seq<T>, key: T -> string, k: string)
    ensures WithKey(a + b, key, k) == WithKey(a, key, k) + WithKey(b, key, k)
    decreases |b|
  {
    if b != [] {
      assert (a + b)[..|a + b| - 1] == a + b[..|b| - 1];
      WithKeyAppend(a, b[..|b| - 1], key, k);
    } else {
      assert a + b == a;
    }
  }

  /** `x` placed after the last element of `t` that may precede it. */
  function Insert<T>(t: seq<T>, x: T, key: T -> string, descending: bool): (r: seq<T>)
    ensures multiset(r) == multiset(t) + multiset{x}
  {
    if t == [] then [x]
    else if Before(descending, key(t[|t| - 1]), key(x)) then t + [x]
    else
      assert t == t[..|t| - 1] + [t[|t| - 1]];
      Insert(t[..|t| - 1], x, key, descending) + [t[|t| - 1]]
  }

  lemma {:induction false} InsertSorted<T>(t: seq<T>, x: T, key: T -> string, descending: bool)
    requires Sorted(t, key, descending)
    ensures Sorted(Insert(t, x, key, descending), key, descending)
  {
    if t != [] {
      var r := Insert(t, x, key, descending);
      var last := t[|t| - 1];
      var init := t[..|t| - 1];
      if Before(descending, key(last), key(x)) {
        forall i, j | 0 <= i < j < |r| ensures Before(descending, key(r[i]), key(r[j])) {
          if j == |t| && i < |t| - 1 {
            BeforeTransitive(descending, key(t[i]), key(last), key(x));
          }
        }
      } else {
        BeforeTotal(descending, key(last), key(x));
        InsertSorted(init, x, key, descending);
        var u := Insert(init, x, key, descending);
        assert r == u + [last];
        forall i | 0 <= i < |u| ensures Before(descending, key(u[i]), key(last)) {
          var y := u[i];
          assert y in multiset(u);
          if y != x {
            assert y in multiset(init);
            var m :| 0 <= m < |init| && init[m] == y;
            assert t[m] == y;
          }
        }
        forall i, j | 0 <= i < j < |r| ensures Before(descending, key(r[i]), key(r[j])) {
          assert r[i] == u[i];
          if j < |u| {
            assert r[j] == u[j];
          }
        }
      }
    }
  }

  lemma WithKeySnoc<T>(s: seq<T>, x: T, key: T -> string, k: string)
    ensures WithKey(s + [x], key, k) == WithKey(s, key, k) + (if key(x) == k then [x] else [])
  {
    assert (s + [x])[..|s|] == s;
  }

  lemma Snoc<T>(t: seq<T>)
    requires t != []
    ensures t == t[..|t| - 1] + [t[|t| - 1]]
  {
  }

  lemma SwapEmpty<T>(a: seq<T>, b: seq<T>, c: seq<T>)
    requires b == [] || c == []
    ensures a + b + c == a + c + b
  {
  }

  lemma {:induction false} InsertWithKey<T>(t: seq<T>, x: T, key: T -> string, descending: bool, k: string)
    ensures WithKey(Insert(t, x, key, descending), key, k) == WithKey(t, key, k) + (if key(x) == k then [x] else [])
  {
    if t == [] {
      WithKeySnoc(t, x, key, k);
      assert t + [x] == [x];
    } else {
      var last := t[|t| - 1];
      var init := t[..|t| - 1];
      if Before(descending, key(last), key(x)) {
        WithKeySnoc(t, x, key, k);
      } else {
        var u := Insert(init, x, key, descending);
        var own := if key(x) == k then [x] else [];
        var lasts := if key(last) == k then [last] else [];
        assert WithKey(Insert(t, x, key, descending), key, k) == WithKey(u, key, k) + lasts by {
          assert Insert(t, x, key, descending) == u + [last];
          WithKeySnoc(u, last, key, k);
        }
        assert WithKey(t, key, k) == WithKey(init, key, k) + lasts by {
          Snoc(t);
          WithKeySnoc(init, last, key, k);
        }
        InsertWithKey(init, x, key, descending, k);
        assert own == [] || lasts == [] by {
          LexLeReflexive(key(x));
        }
        SwapEmpty(WithKey(init, key, k), own, lasts);
      }
    }
  }

  /** Inserting the next element into a stable sort of the elements before it gives a stable
      sort of both. */
  lemma InsertStep<T>(front: seq<T>, last: T, init: seq<T>, key: T -> string, descending: bool)
    requires |init| == |front| && multiset(init) == multiset(front) && Sorted(init, key, descending)
    requires forall k :: WithKey(init, key, k) == WithKey(front, key, k)
    ensures var r := Insert(init, last, key, descending);
      |r| == |front + [last]| && multiset(r) == multiset(front + [last]) && Sorted(r, key, descending) &&
      forall k :: WithKey(r, key, k) == WithKey(front + [last], key, k)
  {
    InsertSorted(init, last, key, descending);
    var r := Insert(init, last, key, descending);
    assert multiset(front + [last]) == multiset(front) + multiset{last};
    assert |r| == |multiset(r)| == |multiset(front + [last])| == |front + [last]|;
    forall k ensures WithKey(r, key, k) == WithKey(front + [last], key, k) {
      InsertWithKey(init, last, key, descending, k);
      WithKeySnoc(front, last, key, k);
    }
  }

  /** `sorted(s, key=key, reverse=descending)`: an ordered permutation of `s` in which elements
      with equal keys keep their order. */
  function SortBy<T>(s: seq<T>, key: T -> string, descending: bool): (r: seq<T>)
    ensures |r| == |s| && multiset(r) == multiset(s)
    ensures Sorted(r, key, descending)
    ensures forall k :: WithKey(r, key, k) == WithKey(s, key, k)
  {
    if s == [] then []
    else
      Snoc(s);
      var init := SortBy(s[..|s| - 1], key, descending);
      InsertStep(s[..|s| - 1], s[|s| - 1], init, key, descending);
      Insert(init, s[|s| - 1], key, descending)
  }

  /** `[f(x) for x in s]`. */
  function Map<A, B>(f: A -> B, s: seq<A>): (r: seq<B>)
    ensures |r| == |s|
    ensures forall i :: 0 <= i < |s| ==> r[i] == f(s[i])
  {
    if s == [] then [] else [f(s[0])] + Map(f, s[1..])
  }

  /** Mapping a prefix one element longer adds that element's image at the end. */
  lemma MapSnoc<A, B>(f: A -> B, s: seq<A>, i: nat)
    requires i < |s|
    ensures Map(f, s[..i + 1]) == Map(f, s[..i]) + [f(s[i])]
  {
    var longer := Map(f, s[..i + 1]);
    var shorter := Map(f, s[..i]) + [f(s[i])];
    forall j | 0 <= j < |longer| ensures longer[j] == shorter[j] {
      if j < i {
        assert s[..i + 1][j] == s[..i][j];
      }
    }
  }

  /** Taking one element out of a sequence takes one occurrence out of its multiset. */
  lemma MultisetRemove<T>(s: seq<T>, k: nat)
    requires k < |s|
    ensures multiset(s) == multiset{s[k]} + multiset(s[..k] + s[k + 1..])
  {
    assert s == s[..k] + [s[k]] + s[k + 1..];
  }

  lemma MapRemove<A, B>(f: A -> B, s: seq<A>, k: nat)
    requires k < |s|
    ensures Map(f, s[..k] + s[k + 1..]) == Map(f, s)[..k] + Map(f, s)[k + 1..]
  {
    var left := Map(f, s[..k] + s[k + 1..]);
    var right := Map(f, s)[..k] + Map(f, s)[k + 1..];
    forall j | 0 <= j < |left| ensures left[j] == right[j] {
      if j < k {
        assert (s[..k] + s[k + 1..])[j] == s[j];
      } else {
        assert (s[..k] + s[k + 1..])[j] == s[j + 1];
      }
    }
  }

  lemma MultisetCancel<T>(x: T, p: multiset<T>, q: multiset<T>)
    requires multiset{x} + p == multiset{x} + q
    ensures p == q
  {
    forall y ensures p[y] == q[y] {
      assert (multiset{x} + p)[y] == (multiset{x} + q)[y];
    }
  }

  /** Mapping two permutations of each other gives permutations of each other. */
  lemma {:induction false} MapPermuted<A, B>(f: A -> B, a: seq<A>, b: seq<A>)
    requires multiset(a) == multiset(b)
    ensures multiset(Map(f, a)) == multiset(Map(f, b))
    decreases |a|
  {
    if a == [] {
      assert |multiset(b)| == 0;
    } else {
      var x := a[0];
      assert x in multiset(b);
      var k :| 0 <= k < |b| && b[k] == x;
      var rest := b[..k] + b[k + 1..];
      MultisetRemove(a, 0);
      MultisetRemove(b, k);
      assert a[..0] + a[1..] == a[1..];
      MultisetCancel(x, multiset(a[1..]), multiset(rest));
      MapPermuted(f, a[1..], rest);
      MultisetRemove(Map(f, a), 0);
      MultisetRemove(Map(f, b), k);
      MapRemove(f, a, 0);
      MapRemove(f, b, k);
    }
  }
}
