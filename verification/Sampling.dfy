/** Sampling without replacement: pickDistinct in app/internal/seeder/generator/common.go.
    Random draws are inputs. */
module Sampling {
  import opened Options

  /** Stream de-duplication: each value at its first appearance. */
  function Dedup(s: seq<string>): seq<string> {
    if s == [] then []
    else
      var d := Dedup(s[..|s| - 1]);
      if s[|s| - 1] in d then d else d + [s[|s| - 1]]
  }

  predicate Distinct(s: seq<string>) { forall i, j :: 0 <= i < j < |s| ==> s[i] != s[j] }

  lemma {:induction false} DedupProperties(s: seq<string>)
    ensures Distinct(Dedup(s))
    ensures forall x :: x in Dedup(s) <==> x in s
  {
    if s != [] {
      var n := |s| - 1;
      DedupProperties(s[..n]);
      assert s == s[..n] + [s[n]];
    }
  }

  lemma {:induction false} DedupPrefix(s: seq<string>, k: nat)
    requires k <= |s|
    ensures Dedup(s[..k]) <= Dedup(s)
  {
    if k < |s| {
      DedupPrefix(s[..|s| - 1], k);
      assert s[..|s| - 1][..k] == s[..k];
    } else {
      assert s[..k] == s;
    }
  }

  /** rng.Intn(len(items)) looked up in the pool. */
  function Values(items: seq<string>, draws: seq<nat>): (vs: seq<string>)
    requires forall k :: 0 <= k < |draws| ==> draws[k] < |items|
    ensures |vs| == |draws|
    ensures forall k :: 0 <= k < |draws| ==> vs[k] == items[draws[k]]
  {
    seq(|draws|, k requires 0 <= k < |draws| => items[draws[k]])
  }

  /** The rejection loop on a finite stretch of the draw stream. It has stopped exactly when the
      stretch holds count distinct values, and then returns the first count of them in order of
      first appearance. */
  method PickDistinct(items: seq<string>, count: nat, draws: seq<nat>) returns (picked: Option<seq<string>>)
    requires count < |items|
    requires forall k :: 0 <= k < |draws| ==> draws[k] < |items|
    ensures picked.Some? <==> |Dedup(Values(items, draws))| >= count
    ensures picked.Some? ==>
              && picked.value == Dedup(Values(items, draws))[..count]
              && Distinct(picked.value)
              && forall x :: x in picked.value ==> x in items
  {
    ghost var stream := Values(items, draws);
    var selected: set<string> := {};
    var result: seq<string> := [];
    var next := 0;
    while |result| < count
      invariant 0 <= next <= |draws|
      invariant result == Dedup(stream[..next]) && |result| <= count
      invariant forall x :: x in selected <==> x in result
      decreases |draws| - next
    {
      if next == |draws| {
        assert stream[..next] == stream;
        return None;
      }
      var item := items[draws[next]];
      assert stream[..next + 1][..next] == stream[..next];
      next := next + 1;
      if item in selected {
        continue;
      }
      selected := selected + {item};
      result := result + [item];
    }
    DedupPrefix(stream, next);
    DedupProperties(stream[..next]);
    picked := Some(result);
  }

  lemma SwapKeepsMultiset(s: seq<string>, i: nat, j: nat)
    requires i < |s| && j < |s|
    ensures multiset(s[i := s[j]][j := s[i]]) == multiset(s)
  {}

  /** Where swaps in this order take what was at a position. */
  function Follow(swaps: seq<(nat, nat)>, position: nat): nat {
    if swaps == [] then position
    else
      var (i, j), p := swaps[|swaps| - 1], Follow(swaps[..|swaps| - 1], position);
      if p == i then j else if p == j then i else p
  }

  predicate InRange(swaps: seq<(nat, nat)>, n: nat) {
    forall k :: 0 <= k < |swaps| ==> swaps[k].0 < n && swaps[k].1 < n
  }

  /** The pool after these swaps. */
  function Swapped(pool: seq<string>, swaps: seq<(nat, nat)>): (s: seq<string>)
    requires InRange(swaps, |pool|)
    ensures |s| == |pool|
  {
    if swaps == [] then pool
    else
      var (i, j), s := swaps[|swaps| - 1], Swapped(pool, swaps[..|swaps| - 1]);
      s[i := s[j]][j := s[i]]
  }

  lemma {:induction false} SwappedIsPermutation(pool: seq<string>, swaps: seq<(nat, nat)>)
    requires InRange(swaps, |pool|)
    ensures multiset(Swapped(pool, swaps)) == multiset(pool)
  {
    if swaps != [] {
      var (i, j) := swaps[|swaps| - 1];
      var before := swaps[..|swaps| - 1];
      SwappedIsPermutation(pool, before);
      SwapKeepsMultiset(Swapped(pool, before), i, j);
    }
  }

  /** Each element ends where the swaps take its position. */
  lemma {:induction false} SwappedAt(pool: seq<string>, swaps: seq<(nat, nat)>, p: nat)
    requires InRange(swaps, |pool|) && p < |pool|
    ensures Follow(swaps, p) < |pool| && Swapped(pool, swaps)[Follow(swaps, p)] == pool[p]
  {
    if swaps != [] {
      SwappedAt(pool, swaps[..|swaps| - 1], p);
    }
  }

  /** count >= len(items): a shuffled copy. Whatever swaps the shuffle performs, each element ends where they
      take it, the copy is a permutation of the pool and the pool itself is untouched. */
  method ShuffledCopy(items: array<string>, swaps: seq<(nat, nat)>) returns (cloned: array<string>)
    requires InRange(swaps, items.Length)
    ensures fresh(cloned) && multiset(cloned[..]) == multiset(items[..])
    ensures cloned[..] == Swapped(items[..], swaps)
    ensures forall p :: 0 <= p < items.Length ==>
              Follow(swaps, p) < cloned.Length && cloned[Follow(swaps, p)] == items[p]
    ensures items[..] == old(items[..])
  {
    cloned := new string[items.Length](k requires 0 <= k < items.Length reads items => items[k]);
    assert cloned[..] == items[..];
    ghost var pool := items[..];
    for k := 0 to |swaps|
      invariant items[..] == pool && cloned[..] == Swapped(pool, swaps[..k])
    {
      var (i, j) := swaps[k];
      assert swaps[..k + 1][..k] == swaps[..k];
      cloned[i], cloned[j] := cloned[j], cloned[i];
    }
    assert swaps[..|swaps|] == swaps;
    SwappedIsPermutation(pool, swaps);
    forall p | 0 <= p < |pool|
      ensures Follow(swaps, p) < |pool| && Swapped(pool, swaps)[Follow(swaps, p)] == pool[p]
    {
      SwappedAt(pool, swaps, p);
    }
  }
}
