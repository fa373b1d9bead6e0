/** Folds over sequences that the pipeline's conservation laws are stated with. */
module Sums {

  /** The sum of f over the elements of s. */
  function Total<T>(s: seq<T>, f: T -> nat): nat {
    if s == [] then 0 else Total(s[..|s| - 1], f) + f(s[|s| - 1])
  }

  /** The multiset of everything f yields over the elements of s. */
  function Gather<T, D(==)>(s: seq<T>, f: T -> seq<D>): multiset<D> {
    if s == [] then multiset{} else Gather(s[..|s| - 1], f) + multiset(f(s[|s| - 1]))
  }

  /** The concatenation of a sequence of sequences. */
  function Flatten<D>(s: seq<seq<D>>): seq<D> {
    if s == [] then [] else Flatten(s[..|s| - 1]) + s[|s| - 1]
  }

  lemma TotalSnoc<T>(s: seq<T>, x: T, f: T -> nat)
    ensures Total(s + [x], f) == Total(s, f) + f(x)
  {
    assert (s + [x])[..|s|] == s;
  }

  lemma {:induction false} TotalUpdate<T>(s: seq<T>, i: nat, x: T, f: T -> nat)
    requires i < |s|
    ensures Total(s[i := x], f) + f(s[i]) == Total(s, f) + f(x)
  {
    var n := |s| - 1;
    if i == n {
      assert s[i := x][..n] == s[..n];
    } else {
      TotalUpdate(s[..n], i, x, f);
      assert s[i := x][..n] == s[..n][i := x];
    }
  }

  lemma {:induction false} TotalLe<T>(s: seq<T>, f: T -> nat, g: T -> nat)
    requires forall i :: 0 <= i < |s| ==> f(s[i]) <= g(s[i])
    ensures Total(s, f) <= Total(s, g)
  {
    if s != [] {
      TotalLe(s[..|s| - 1], f, g);
    }
  }

  lemma {:induction false} TotalAtMost<T>(s: seq<T>, f: T -> nat, m: nat)
    requires forall i :: 0 <= i < |s| ==> f(s[i]) <= m
    ensures Total(s, f) <= m * |s|
  {
    if s != [] {
      TotalAtMost(s[..|s| - 1], f, m);
    }
  }

  lemma {:induction false} TotalScaled<T>(s: seq<T>, f: T -> nat, g: T -> nat, m: nat)
    requires forall i :: 0 <= i < |s| ==> f(s[i]) <= m * g(s[i])
    ensures Total(s, f) <= m * Total(s, g)
  {
    if s != [] {
      TotalScaled(s[..|s| - 1], f, g, m);
    }
  }

  lemma {:induction false} TotalZero<T>(s: seq<T>, f: T -> nat)
    requires forall i :: 0 <= i < |s| ==> f(s[i]) == 0
    ensures Total(s, f) == 0
  {
    if s != [] {
      TotalZero(s[..|s| - 1], f);
    }
  }

  lemma {:induction false} TotalOfSum<T>(s: seq<T>, f: T -> nat, g: T -> nat, h: T -> nat)
    requires forall i :: 0 <= i < |s| ==> f(s[i]) == g(s[i]) + h(s[i])
    ensures Total(s, f) == Total(s, g) + Total(s, h)
  {
    if s != [] {
      TotalOfSum(s[..|s| - 1], f, g, h);
    }
  }

  function Self(n: nat): nat { n }

  /** The pigeonhole principle: a sum below (m + 1) * |s| has a term of at most m. */
  lemma {:induction false} Pigeonhole(s: seq<nat>, m: nat) returns (i: nat)
    requires Total(s, Self) < (m + 1) * |s|
    ensures i < |s| && s[i] <= m
  {
    var n := |s| - 1;
    if s[n] <= m {
      i := n;
    } else {
      assert (m + 1) * n + (m + 1) == (m + 1) * (n + 1);
      i := Pigeonhole(s[..n], m);
    }
  }

  lemma GatherSnoc<T, D>(s: seq<T>, x: T, f: T -> seq<D>)
    ensures Gather(s + [x], f) == Gather(s, f) + multiset(f(x))
  {
    assert (s + [x])[..|s|] == s;
  }

  lemma {:induction false} GatherUpdate<T, D>(s: seq<T>, i: nat, x: T, f: T -> seq<D>)
    requires i < |s|
    ensures Gather(s[i := x], f) + multiset(f(s[i])) == Gather(s, f) + multiset(f(x))
  {
    var n := |s| - 1;
    if i == n {
      assert s[i := x][..n] == s[..n];
    } else {
      GatherUpdate(s[..n], i, x, f);
      assert s[i := x][..n] == s[..n][i := x];
      var before, after, last := Gather(s[..n], f), Gather(s[..n][i := x], f), multiset(f(s[n]));
      assert after + last + multiset(f(s[i])) == (after + multiset(f(s[i]))) + last;
      assert (before + multiset(f(x))) + last == before + last + multiset(f(x));
    }
  }

  lemma GatherPut<T, D>(s: seq<T>, i: nat, x: T, f: T -> seq<D>)
    requires i < |s| && f(s[i]) == []
    ensures Gather(s[i := x], f) == Gather(s, f) + multiset(f(x))
  {
    GatherUpdate(s, i, x, f);
    assert Gather(s[i := x], f) + multiset{} == Gather(s[i := x], f);
  }

  lemma GatherRemoved<T, D>(s: seq<T>, i: nat, x: T, f: T -> seq<D>)
    requires i < |s| && f(x) == []
    ensures Gather(s[i := x], f) + multiset(f(s[i])) == Gather(s, f)
  {
    GatherUpdate(s, i, x, f);
    assert Gather(s, f) + multiset{} == Gather(s, f);
  }

  lemma Regroup<D>(a: multiset<D>, b: multiset<D>, c: multiset<D>)
    ensures (a + b) + c == a + (b + c)
    ensures (a + c) + b == a + (b + c)
  {}

  /** Replacing an element by one that yields the same changes nothing. */
  lemma {:induction false} GatherKept<T, D>(s: seq<T>, i: nat, x: T, f: T -> seq<D>)
    requires i < |s| && f(x) == f(s[i])
    ensures Gather(s[i := x], f) == Gather(s, f)
  {
    var n := |s| - 1;
    if i == n {
      assert s[i := x][..n] == s[..n];
    } else {
      GatherKept(s[..n], i, x, f);
      assert s[i := x][..n] == s[..n][i := x];
    }
  }

  lemma {:induction false} GatherEmpty<T, D>(s: seq<T>, f: T -> seq<D>)
    requires forall i :: 0 <= i < |s| ==> f(s[i]) == []
    ensures Gather(s, f) == multiset{}
  {
    if s != [] {
      GatherEmpty(s[..|s| - 1], f);
    }
  }

  /** Counting what was gathered, through the function that counts one element's share. */
  lemma {:induction false} GatherSize<T, D>(s: seq<T>, f: T -> seq<D>, size: T -> nat)
    requires forall i :: 0 <= i < |s| ==> size(s[i]) == |f(s[i])|
    ensures |Gather(s, f)| == Total(s, size)
  {
    if s != [] {
      GatherSize(s[..|s| - 1], f, size);
    }
  }

  lemma FlattenSnoc<D>(s: seq<seq<D>>, x: seq<D>)
    ensures Flatten(s + [x]) == Flatten(s) + x
  {
    assert (s + [x])[..|s|] == s;
  }

  lemma {:induction false} FlattenCons<D>(s: seq<seq<D>>)
    requires s != []
    ensures Flatten(s) == s[0] + Flatten(s[1..])
  {
    var n := |s| - 1;
    if n == 0 {
      assert s[..0] == s[1..] == [];
    } else {
      FlattenCons(s[..n]);
      var middle := s[1..][..n - 1];
      assert s[..n][1..] == middle;
      assert Flatten(s[1..]) == Flatten(middle) + s[n];
      assert (s[0] + Flatten(middle)) + s[n] == s[0] + (Flatten(middle) + s[n]);
    }
  }

  /** An element of a concatenation lies in one of the pieces. */
  lemma {:induction false} FlattenMember<D>(s: seq<seq<D>>, d: D)
    ensures d in Flatten(s) <==> exists k :: 0 <= k < |s| && d in s[k]
  {
    if s != [] {
      var n := |s| - 1;
      FlattenMember(s[..n], d);
      assert forall k :: 0 <= k < n ==> s[..n][k] == s[k];
      assert s == s[..n] + [s[n]];
    }
  }

  lemma {:induction false} FlattenConcat<D>(s: seq<seq<D>>, t: seq<seq<D>>)
    ensures Flatten(s + t) == Flatten(s) + Flatten(t)
  {
    if t == [] {
      assert s + t == s;
      assert Flatten(s) + [] == Flatten(s);
    } else {
      var n := |t| - 1;
      FlattenConcat(s, t[..n]);
      assert (s + t)[..|s| + n] == s + t[..n];
      assert Flatten(s) + Flatten(t[..n]) + t[n] == Flatten(s) + (Flatten(t[..n]) + t[n]);
    }
  }

  /** A multiset without repetitions is as large as its set of elements. */
  lemma {:induction false} NoRepetition<D>(m: multiset<D>)
    requires forall x :: m[x] <= 1
    ensures |m| == |set x | x in m|
  {
    var elements := set x | x in m;
    if m != multiset{} {
      var x :| x in m;
      var rest := m - multiset{x};
      NoRepetition(rest);
      assert (set y | y in rest) == elements - {x};
      assert m == rest + multiset{x};
    } else {
      assert elements == {};
    }
  }

  /** In a sequence without repetitions every element occurs at most once. */
  lemma {:induction false} DistinctOnce<D>(s: seq<D>, d: D)
    requires forall i, j :: 0 <= i < j < |s| ==> s[i] != s[j]
    ensures multiset(s)[d] <= 1
  {
    if s != [] {
      var n := |s| - 1;
      DistinctOnce(s[..n], d);
      assert s == s[..n] + [s[n]];
    }
  }

  lemma {:induction false} FlattenAtMost<D>(s: seq<seq<D>>, m: nat)
    requires forall k :: 0 <= k < |s| ==> |s[k]| <= m
    ensures |Flatten(s)| <= m * |s|
  {
    if s != [] {
      FlattenAtMost(s[..|s| - 1], m);
    }
  }
}
