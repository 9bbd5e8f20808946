/** Rankings by score. Every sort in the indexes is unstable, so a ranking is specified by what
    it contains and how it is ordered, never by how ties fell. */
module Ranking {
  import opened Counting

  function Min(a: nat, b: nat): nat {
    if a <= b then a else b
  }

  ghost predicate Descending<T>(xs: seq<T>, score: T -> real) {
    forall i, j :: 0 <= i < j < |xs| ==> score(xs[i]) >= score(xs[j])
  }

  /** `out` lists `n` best members of `pool` (all of them when there are fewer), best first. */
  ghost predicate IsTopN<T(!new)>(out: seq<T>, pool: multiset<T>, n: nat, score: T -> real) {
    && multiset(out) <= pool
    && |out| == Min(n, |pool|)
    && Descending(out, score)
    && forall x, y :: x in out && y in pool - multiset(out) ==> score(y) <= score(x)
  }

  /** The specification leaves only ties open: any two rankings that meet it show the same
      scores position by position. */
  lemma TopNScoresUnique<T(!new)>(a: seq<T>, b: seq<T>, pool: multiset<T>, n: nat, score: T -> real)
    requires IsTopN(a, pool, n, score) && IsTopN(b, pool, n, score)
    ensures |a| == |b|
    ensures forall i :: 0 <= i < |a| ==> score(a[i]) == score(b[i])
  {
    forall i | 0 <= i < |a|
      ensures score(a[i]) == score(b[i])
    {
      TopNAtMost(a, b, pool, n, score, i);
      TopNAtMost(b, a, pool, n, score, i);
    }
  }

  lemma TopNMembers<T(!new)>(a: seq<T>, pool: multiset<T>, n: nat, score: T -> real)
    requires IsTopN(a, pool, n, score)
    ensures forall i :: 0 <= i < |a| ==> a[i] in pool
  {
    assert forall i :: 0 <= i < |a| ==> a[i] in multiset(a);
  }

  lemma TopNAtMost<T(!new)>(a: seq<T>, b: seq<T>, pool: multiset<T>, n: nat, score: T -> real, i: nat)
    requires IsTopN(a, pool, n, score) && IsTopN(b, pool, n, score) && i < |a|
    ensures score(a[i]) <= score(b[i])
  {
    if score(a[i]) > score(b[i]) {
      SplitAt(a, i + 1);
      SplitAt(b, i);
      HeadScores(a, score, i);
      TailScores(b, score, i);
      HeadFits(a[..i + 1], a[i + 1..], b[..i], b[i..], pool, score, score(a[i]));
    }
  }

  lemma SplitAt<T>(xs: seq<T>, k: nat)
    requires k <= |xs|
    ensures xs == xs[..k] + xs[k..]
  {
  }

  lemma HeadScores<T>(xs: seq<T>, score: T -> real, i: nat)
    requires Descending(xs, score) && i < |xs|
    ensures forall x :: x in xs[..i + 1] ==> score(x) >= score(xs[i])
  {
  }

  lemma TailScores<T>(xs: seq<T>, score: T -> real, i: nat)
    requires Descending(xs, score) && i < |xs|
    ensures forall y :: y in xs[i..] ==> score(y) <= score(xs[i])
  {
  }

  /** Members at or above the bar fit in `bHead` when everything in `bTail` is below it and
      nothing above the bar was left out of `bHead + bTail`. */
  lemma HeadFits<T(!new)>(aHead: seq<T>, aTail: seq<T>, bHead: seq<T>, bTail: seq<T>,
                          pool: multiset<T>, score: T -> real, bar: real)
    requires multiset(aHead + aTail) <= pool && bTail != []
    requires forall x :: x in aHead ==> score(x) >= bar
    requires forall y :: y in bTail ==> score(y) < bar
    requires forall z, y :: z in bHead + bTail && y in pool - multiset(bHead + bTail) ==> score(y) <= score(z)
    ensures |aHead| <= |bHead|
  {
    var head, rest := multiset(aHead), multiset(bHead);
    assert |head| == |aHead| && |rest| == |bHead|;
    forall x | x in head
      ensures head[x] <= rest[x]
    {
      assert x in aHead;
      CountedInOther(aHead, aTail, bHead, bTail, pool, score, x);
    }
    MultisetSizeMonotone(head, rest);
  }

  /** A member scoring above everything in `bTail` is in `bHead` at least as often as in `aHead`:
      otherwise a better member of the pool was left out of `bHead + bTail`. */
  lemma CountedInOther<T(!new)>(
      aHead: seq<T>, aTail: seq<T>, bHead: seq<T>, bTail: seq<T>,
      pool: multiset<T>, score: T -> real, x: T)
    requires multiset(aHead + aTail) <= pool && bTail != []
    requires forall y :: y in bTail ==> score(y) < score(x)
    requires forall z, y :: z in bHead + bTail && y in pool - multiset(bHead + bTail) ==> score(y) <= score(z)
    ensures multiset(aHead)[x] <= multiset(bHead)[x]
  {
    assert multiset(aHead + aTail)[x] == multiset(aHead)[x] + multiset(aTail)[x];
    assert x !in bTail;
    assert multiset(bTail)[x] == 0;
    assert multiset(bHead + bTail)[x] == multiset(bHead)[x];
    assert bTail[0] in bHead + bTail;
    assert x !in pool - multiset(bHead + bTail);
  }

  lemma MultisetSizeMonotone<T>(a: multiset<T>, b: multiset<T>)
    requires forall x :: x in a ==> a[x] <= b[x]
    ensures |a| <= |b|
  {
    assert a <= b;
    assert b == a + (b - a);
  }

  lemma SortedPrefixIsTopN<T(!new)>(sorted: seq<T>, pool: multiset<T>, n: nat, score: T -> real)
    requires multiset(sorted) == pool && Descending(sorted, score)
    ensures IsTopN(sorted[..Min(n, |sorted|)], pool, n, score)
  {
    var k := Min(n, |sorted|);
    var out, rest := sorted[..k], sorted[k..];
    RemainderOf(sorted, k);
    assert |multiset(sorted)| == |sorted|;
    forall x, y | x in out && y in rest
      ensures score(y) <= score(x)
    {
      PrefixBeatsRest(sorted, k, score, x, y);
    }
    assert forall y :: y in multiset(rest) ==> y in rest;
  }

  lemma PrefixBeatsRest<T>(xs: seq<T>, k: nat, score: T -> real, x: T, y: T)
    requires Descending(xs, score) && k <= |xs| && x in xs[..k] && y in xs[k..]
    ensures score(y) <= score(x)
  {
    var i :| 0 <= i < k && xs[..k][i] == x;
    var j :| 0 <= j < |xs| - k && xs[k..][j] == y;
    assert xs[i] == x && xs[k + j] == y;
  }

  lemma RemainderOf<T>(xs: seq<T>, k: nat)
    requires k <= |xs|
    ensures multiset(xs[..k]) <= multiset(xs)
    ensures multiset(xs) - multiset(xs[..k]) == multiset(xs[k..])
  {
    SplitAt(xs, k);
    assert multiset(xs) == multiset(xs[..k]) + multiset(xs[k..]);
  }

  /** Position at which `x` enters a descending sequence. */
  method InsertSorted<T>(x: T, xs: seq<T>, score: T -> real) returns (out: seq<T>)
    requires Descending(xs, score)
    ensures Descending(out, score)
    ensures multiset(out) == multiset(xs) + multiset{x}
  {
    var i := 0;
    while i < |xs| && score(xs[i]) >= score(x)
      invariant 0 <= i <= |xs|
      invariant forall j :: 0 <= j < i ==> score(xs[j]) >= score(x)
    {
      i := i + 1;
    }
    out := xs[..i] + [x] + xs[i..];
    InsertedMultiset(xs, i, x);
  }

  /** An unstable descending sort: callers learn nothing about the order of ties. */
  method SortDescending<T>(xs: seq<T>, score: T -> real) returns (out: seq<T>)
    ensures Descending(out, score)
    ensures multiset(out) == multiset(xs) && |out| == |xs|
  {
    out := [];
    var i := 0;
    while i < |xs|
      invariant 0 <= i <= |xs|
      invariant Descending(out, score)
      invariant multiset(out) == multiset(xs[..i])
    {
      assert xs[..i + 1] == xs[..i] + [xs[i]];
      out := InsertSorted(xs[i], out, score);
      i := i + 1;
    }
    assert xs[..i] == xs;
    assert |multiset(out)| == |out| && |multiset(xs)| == |xs|;
  }
}
