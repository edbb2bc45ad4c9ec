/**
 * The scan behind Python's `re.findall` for a pattern that cannot match the
 * empty string: try a match at each position from left to right; after a match
 * resume at its end, otherwise at the next position. The pattern is given by
 * `at(j)`, the match that starts at `j` (its captured group), and `skip`, the
 * length of the fixed text before the group.
 */
module Findall {
  import opened Base

  /** Every match `at` reports is non-empty, so the scan always moves forward. */
  ghost predicate Advances(at: nat -> Option<string>)
  {
    forall j :: at(j).Some? ==> |at(j).value| > 0
  }

  /** The groups of the non-overlapping matches that start in `from..n`, left to right. */
  function Scan(at: nat -> Option<string>, skip: nat, n: nat, from: nat): (r: seq<string>)
    requires Advances(at)
    decreases if from <= n then n + 1 - from else 0
  {
    if from > n then []
    else match at(from)
      case Some(m) => [m] + Scan(at, skip, n, from + skip + |m|)
      case None => Scan(at, skip, n, from + 1)
  }

  /** Where each match of `Scan` starts. */
  ghost function Starts(at: nat -> Option<string>, skip: nat, n: nat, from: nat): seq<nat>
    requires Advances(at)
    decreases if from <= n then n + 1 - from else 0
  {
    if from > n then []
    else match at(from)
      case Some(m) => [from] + Starts(at, skip, n, from + skip + |m|)
      case None => Starts(at, skip, n, from + 1)
  }

  /** The k-th group is the match at the k-th start, and every start lies in `from..n`. */
  ghost predicate MatchesAt(at: nat -> Option<string>, n: nat, from: nat, starts: seq<nat>, groups: seq<string>)
  {
    |starts| == |groups| &&
    forall k :: 0 <= k < |starts| ==>
      from <= starts[k] <= n && at(starts[k]).Some? && at(starts[k]).value == groups[k]
  }

  /** The matches do not overlap and go left to right. */
  ghost predicate InOrder(skip: nat, starts: seq<nat>, groups: seq<string>)
    requires |starts| == |groups|
  {
    forall k :: 0 <= k < |starts| - 1 ==> starts[k] + skip + |groups[k]| <= starts[k + 1]
  }

  /** No match starts at or after `from` and before `until`. */
  ghost predicate NoMatchBetween(at: nat -> Option<string>, from: nat, until: nat)
  {
    forall j :: from <= j < until ==> at(j).None?
  }

  /** No match in `from..n` is skipped: none before the first start, none between the end of
      one match and the start of the next, none after the end of the last. */
  ghost predicate NoneMissed(at: nat -> Option<string>, skip: nat, n: nat, from: nat, starts: seq<nat>, groups: seq<string>)
    requires |starts| == |groups|
  {
    (|starts| == 0 ==> NoMatchBetween(at, from, n + 1)) &&
    (|starts| > 0 ==> NoMatchBetween(at, from, starts[0])) &&
    (forall k :: 0 <= k < |starts| - 1 ==> NoMatchBetween(at, starts[k] + skip + |groups[k]|, starts[k + 1])) &&
    (|starts| > 0 ==> NoMatchBetween(at, starts[|starts| - 1] + skip + |groups[|groups| - 1]|, n + 1))
  }

  lemma {:induction false} StartsMatch(at: nat -> Option<string>, skip: nat, n: nat, from: nat)
    requires Advances(at)
    ensures MatchesAt(at, n, from, Starts(at, skip, n, from), Scan(at, skip, n, from))
    decreases if from <= n then n + 1 - from else 0
  {
    if from <= n {
      match at(from)
      case Some(m) =>
        var e := from + skip + |m|;
        StartsMatch(at, skip, n, e);
        var p, r := Starts(at, skip, n, e), Scan(at, skip, n, e);
        forall k | 1 <= k < |p| + 1
          ensures from <= ([from] + p)[k] <= n && at(([from] + p)[k]).Some? &&
            at(([from] + p)[k]).value == ([m] + r)[k]
        {
          assert ([from] + p)[k] == p[k - 1] && ([m] + r)[k] == r[k - 1];
        }
      case None =>
        StartsMatch(at, skip, n, from + 1);
    }
  }

  lemma {:induction false} StartsInOrder(at: nat -> Option<string>, skip: nat, n: nat, from: nat)
    requires Advances(at)
    ensures |Starts(at, skip, n, from)| == |Scan(at, skip, n, from)|
    ensures InOrder(skip, Starts(at, skip, n, from), Scan(at, skip, n, from))
    decreases if from <= n then n + 1 - from else 0
  {
    if from <= n {
      match at(from)
      case Some(m) =>
        var e := from + skip + |m|;
        StartsInOrder(at, skip, n, e);
        StartsMatch(at, skip, n, e);
        var p, r := Starts(at, skip, n, e), Scan(at, skip, n, e);
        forall k | 0 <= k < |p|
          ensures ([from] + p)[k] + skip + |([m] + r)[k]| <= ([from] + p)[k + 1]
        {
          assert ([from] + p)[k + 1] == p[k];
          if k > 0 {
            assert ([from] + p)[k] == p[k - 1] && ([m] + r)[k] == r[k - 1];
          }
        }
      case None =>
        StartsInOrder(at, skip, n, from + 1);
    }
  }

  /** A position without a match extends the stretch with no missed match to its left. */
  lemma NoneMissedSkip(at: nat -> Option<string>, skip: nat, n: nat, from: nat, starts: seq<nat>, groups: seq<string>)
    requires |starts| == |groups| && at(from).None?
    requires NoneMissed(at, skip, n, from + 1, starts, groups)
    ensures NoneMissed(at, skip, n, from, starts, groups)
  {
    if |starts| == 0 {
      assert NoMatchBetween(at, from + 1, n + 1);
    } else {
      assert NoMatchBetween(at, from + 1, starts[0]);
    }
  }

  /** A match at `from` followed by a scan with nothing missed from its end misses nothing. */
  lemma NoneMissedCons(at: nat -> Option<string>, skip: nat, n: nat, from: nat, m: string, starts: seq<nat>, groups: seq<string>)
    requires |starts| == |groups| && at(from).Some? && at(from).value == m
    requires NoneMissed(at, skip, n, from + skip + |m|, starts, groups)
    ensures NoneMissed(at, skip, n, from, [from] + starts, [m] + groups)
  {
    var p2, r2 := [from] + starts, [m] + groups;
    forall k | 0 <= k < |p2| - 1
      ensures NoMatchBetween(at, p2[k] + skip + |r2[k]|, p2[k + 1])
    {
      assert p2[k + 1] == starts[k];
      if k > 0 {
        assert p2[k] == starts[k - 1] && r2[k] == groups[k - 1];
      }
    }
    if |starts| > 0 {
      assert p2[|p2| - 1] == starts[|starts| - 1] && r2[|r2| - 1] == groups[|groups| - 1];
    }
  }

  lemma {:induction false} StartsNoneMissed(at: nat -> Option<string>, skip: nat, n: nat, from: nat)
    requires Advances(at)
    ensures |Starts(at, skip, n, from)| == |Scan(at, skip, n, from)|
    ensures NoneMissed(at, skip, n, from, Starts(at, skip, n, from), Scan(at, skip, n, from))
    decreases if from <= n then n + 1 - from else 0
  {
    if from <= n {
      match at(from)
      case Some(m) =>
        StartsNoneMissed(at, skip, n, from + skip + |m|);
        NoneMissedCons(at, skip, n, from, m, Starts(at, skip, n, from + skip + |m|), Scan(at, skip, n, from + skip + |m|));
      case None =>
        StartsNoneMissed(at, skip, n, from + 1);
        NoneMissedSkip(at, skip, n, from, Starts(at, skip, n, from + 1), Scan(at, skip, n, from + 1));
    }
  }

  /** `Scan` is `re.findall`: the k-th group belongs to the match at the k-th start, the matches
      go left to right without overlapping, and no match in `from..n` is missed. */
  lemma ScanFindsAll(at: nat -> Option<string>, skip: nat, n: nat, from: nat)
    requires Advances(at)
    ensures var starts, groups := Starts(at, skip, n, from), Scan(at, skip, n, from);
      MatchesAt(at, n, from, starts, groups) && InOrder(skip, starts, groups) &&
      NoneMissed(at, skip, n, from, starts, groups)
  {
    StartsMatch(at, skip, n, from);
    StartsInOrder(at, skip, n, from);
    StartsNoneMissed(at, skip, n, from);
  }
}
