/** The parameter sweep's ground truth: sampling stored records as queries, dropping each query's own
    hit, and the recall of what a configuration returned. */
module Tune {
  import opened Counting
  import opened Orders
  import opened Ranking
  import opened SplitMix

  // ---------- Recall ----------

  /** How many of the returned entries are in the truth. */
  function HitCount<K(==)>(returned: seq<K>, truth: seq<K>): (n: nat)
    ensures n <= |returned|
  {
    if returned == [] then 0
    else HitCount(returned[..|returned| - 1], truth) + if returned[|returned| - 1] in truth then 1 else 0
  }

  lemma ElementsSnoc<K>(xs: seq<K>, x: K)
    ensures Elements(xs + [x]) == Elements(xs) + {x}
  {
  }

  lemma SharedSnoc<K>(a: set<K>, b: set<K>, x: K)
    requires x !in a
    ensures |(a + {x}) * b| == |a * b| + if x in b then 1 else 0
  {
    if x in b {
      assert (a + {x}) * b == a * b + {x};
    } else {
      assert (a + {x}) * b == a * b;
    }
  }

  lemma {:induction false} HitsAreShared<K>(returned: seq<K>, truth: seq<K>)
    requires Distinct(returned)
    ensures HitCount(returned, truth) == |Elements(returned) * Elements(truth)|
  {
    if returned == [] {
      assert Elements(returned) * Elements(truth) == {};
    } else {
      var init, last := returned[..|returned| - 1], returned[|returned| - 1];
      HitsAreShared(init, truth);
      ElementsSnoc(init, last);
      assert init + [last] == returned;
      SharedSnoc(Elements(init), Elements(truth), last);
    }
  }

  /** A list without repeats hits at most the truth's length, and all of it exactly when it contains it. */
  lemma HitsBounded<K>(returned: seq<K>, truth: seq<K>)
    requires Distinct(returned)
    ensures HitCount(returned, truth) <= |truth|
    ensures Distinct(truth) ==> (HitCount(returned, truth) == |truth| <==> forall x :: x in truth ==> x in returned)
  {
    HitsAreShared(returned, truth);
    ElementsSize(truth);
    if Distinct(truth) {
      DistinctSize(truth);
    }
    var shared := Elements(returned) * Elements(truth);
    SubsetCount(shared, Elements(truth));
    assert shared == Elements(truth) <==> forall x :: x in truth ==> x in returned by {
      assert forall x :: x in truth ==> x in Elements(truth);
      if shared == Elements(truth) {
        forall x | x in truth
          ensures x in returned
        {
          assert x in shared;
        }
      }
    }
  }

  function AtLeastOne(n: nat): nat {
    if n == 0 then 1 else n
  }

  function OneRecall<K(==)>(returned: seq<K>, truth: seq<K>): real {
    HitCount(returned, truth) as real / AtLeastOne(|truth|) as real
  }

  /** The summed recall of the first `q` queries. */
  function RecallSum<K(==)>(returned: seq<seq<K>>, truth: seq<seq<K>>, q: nat): real
    requires q <= |returned| && q <= |truth|
  {
    if q == 0 then 0.0
    else RecallSum(returned, truth, q - 1) + OneRecall(returned[q - 1], truth[q - 1])
  }

  /** Mean recall over the queries both lists cover; one when there are none. */
  function Recall<K(==)>(returned: seq<seq<K>>, truth: seq<seq<K>>): real {
    var q := Min(|returned|, |truth|);
    if q == 0 then 1.0 else RecallSum(returned, truth, q) / q as real
  }

  method RecallAtK<K(==)>(returned: seq<seq<K>>, truth: seq<seq<K>>) returns (recall: real)
    ensures recall == Recall(returned, truth)
  {
    var q := Min(|returned|, |truth|);
    if q == 0 {
      return 1.0;
    }
    var acc := 0.0;
    var i := 0;
    while i < q
      invariant 0 <= i <= q
      invariant acc == RecallSum(returned, truth, i)
    {
      var t := Elements(truth[i]);
      var hit, j := 0, 0;
      while j < |returned[i]|
        invariant 0 <= j <= |returned[i]|
        invariant hit == HitCount(returned[i][..j], truth[i])
      {
        assert returned[i][..j + 1][..j] == returned[i][..j];
        if returned[i][j] in t {
          hit := hit + 1;
        }
        j := j + 1;
      }
      assert returned[i][..j] == returned[i];
      acc := acc + hit as real / AtLeastOne(|truth[i]|) as real;
      i := i + 1;
    }
    return acc / q as real;
  }

  /** One query's recall is the share of its truth that was returned; nothing is no share of nothing. */
  lemma OneRecallIsShare<K>(returned: seq<K>, truth: seq<K>)
    requires Distinct(returned)
    ensures truth != [] ==>
      OneRecall(returned, truth) * |truth| as real == |Elements(returned) * Elements(truth)| as real
    ensures truth == [] ==> OneRecall(returned, truth) == 0.0
  {
    hide HitCount;
    HitsAreShared(returned, truth);
    if truth == [] {
      assert Elements(returned) * Elements(truth) == {};
      assert HitCount(returned, truth) as real == 0.0;
    } else {
      ShareOfTruth(returned, truth);
      hide OneRecall;
      TimesBack(HitCount(returned, truth) as real, |truth| as real);
    }
  }

  lemma ShareOfTruth<K>(returned: seq<K>, truth: seq<K>)
    requires truth != []
    ensures |truth| as real > 0.0
    ensures OneRecall(returned, truth) == HitCount(returned, truth) as real / |truth| as real
  {
    hide HitCount;
  }

  lemma TimesBack(a: real, b: real)
    requires b > 0.0
    ensures a / b * b == a
  {
  }

  lemma {:induction false} SumOfPrefix<K>(a: seq<seq<K>>, b: seq<seq<K>>, x: seq<K>, y: seq<K>, q: nat)
    requires q <= |a| == |b|
    ensures RecallSum(a + [x], b + [y], q) == RecallSum(a, b, q)
  {
    if q > 0 {
      SumOfPrefix(a, b, x, y, q - 1);
    }
  }

  /** Each further query counts for as much as any other. */
  lemma RecallAverages<K>(returned: seq<seq<K>>, truth: seq<seq<K>>, r: seq<K>, t: seq<K>)
    requires |returned| == |truth|
    ensures var n := |truth| as real;
      Recall(returned + [r], truth + [t]) * (n + 1.0)
        == (if |truth| == 0 then 0.0 else Recall(returned, truth) * n) + OneRecall(r, t)
  {
    var q := |truth|;
    var before, one := RecallSum(returned, truth, q), OneRecall(r, t);
    SumOfPrefix(returned, truth, r, t, q);
    assert RecallSum(returned + [r], truth + [t], q + 1) == before + one;
    TimesBack(before + one, q as real + 1.0);
    if q > 0 {
      TimesBack(before, q as real);
    }
  }

  /** The query's truth is not empty and everything in it was returned. */
  ghost predicate Perfect<K>(returned: seq<K>, truth: seq<K>) {
    truth != [] && forall x :: x in truth ==> x in returned
  }

  lemma Quotient(a: real, b: real)
    requires 0.0 <= a <= b && b > 0.0
    ensures 0.0 <= a / b <= 1.0 && (a / b == 1.0 <==> a == b)
  {
    var x := a / b;
    assert x * b == a;
    assert (1.0 - x) * b == b - a;
  }

  lemma OneRecallBounds<K>(returned: seq<K>, truth: seq<K>)
    requires Distinct(returned)
    ensures 0.0 <= OneRecall(returned, truth) <= 1.0
    ensures Distinct(truth) ==> (OneRecall(returned, truth) == 1.0 <==> Perfect(returned, truth))
  {
    HitsBounded(returned, truth);
    Quotient(HitCount(returned, truth) as real, AtLeastOne(|truth|) as real);
  }

  lemma {:induction false} SumBounds<K>(returned: seq<seq<K>>, truth: seq<seq<K>>, q: nat)
    requires q <= |returned| && q <= |truth|
    requires forall i :: 0 <= i < q ==> Distinct(returned[i])
    ensures 0.0 <= RecallSum(returned, truth, q) <= q as real
    ensures (forall i :: 0 <= i < q ==> Distinct(truth[i])) ==>
      (RecallSum(returned, truth, q) == q as real <==> forall i :: 0 <= i < q ==> Perfect(returned[i], truth[i]))
  {
    if q > 0 {
      SumBounds(returned, truth, q - 1);
      OneRecallBounds(returned[q - 1], truth[q - 1]);
    }
  }

  /** Recall over lists without repeats is a fraction, and is one exactly when every query it averages
      returned all of a truth that is not empty. */
  lemma RecallMeaning<K>(returned: seq<seq<K>>, truth: seq<seq<K>>)
    requires forall i :: 0 <= i < |returned| ==> Distinct(returned[i])
    requires forall i :: 0 <= i < |truth| ==> Distinct(truth[i])
    ensures 0.0 <= Recall(returned, truth) <= 1.0
    ensures Recall(returned, truth) == 1.0
       <==> forall i :: 0 <= i < Min(|returned|, |truth|) ==> Perfect(returned[i], truth[i])
  {
    var q := Min(|returned|, |truth|);
    SumBounds(returned, truth, q);
    if q > 0 {
      Quotient(RecallSum(returned, truth, q), q as real);
    }
  }

  // ---------- The self hit ----------

  function Without<K(==)>(xs: seq<K>, self: K): seq<K> {
    if xs == [] then []
    else if xs[0] == self then Without(xs[1..], self)
    else [xs[0]] + Without(xs[1..], self)
  }

  function Take<K>(xs: seq<K>, k: nat): seq<K> {
    if k <= |xs| then xs[..k] else xs
  }

  /** Drops the query's own hit, then keeps `k`. */
  function StripSelfHit<K(==)>(hits: seq<K>, self: K, k: nat): seq<K> {
    Take(Without(hits, self), k)
  }

  lemma {:induction false} WithoutKeepsOthers<K>(xs: seq<K>, self: K)
    requires self !in xs
    ensures Without(xs, self) == xs
  {
    if xs != [] {
      WithoutKeepsOthers(xs[1..], self);
    }
  }

  lemma WithoutCons<K>(x: K, xs: seq<K>, self: K)
    ensures Without([x] + xs, self) == if x == self then Without(xs, self) else [x] + Without(xs, self)
  {
    assert ([x] + xs)[1..] == xs;
  }

  lemma {:induction false} WithoutSplits<K>(a: seq<K>, b: seq<K>, self: K)
    ensures Without(a + b, self) == Without(a, self) + Without(b, self)
  {
    if a == [] {
      assert a + b == b;
    } else {
      var x, rest := a[0], a[1..];
      WithoutSplits(rest, b, self);
      WithoutCons(x, rest, self);
      WithoutCons(x, rest + b, self);
      Regroup([x], rest, b);
      Regroup([x], Without(rest, self), Without(b, self));
      assert a == [x] + rest;
    }
  }

  lemma Regroup<K>(a: seq<K>, b: seq<K>, c: seq<K>)
    ensures (a + b) + c == a + (b + c)
  {
  }

  lemma {:induction false} WithoutDropsOne<K>(xs: seq<K>, self: K)
    requires Distinct(xs)
    ensures |Without(xs, self)| == |xs| - if self in xs then 1 else 0
  {
    if xs != [] {
      var tail := xs[1..];
      assert xs == [xs[0]] + tail;
      if xs[0] == self {
        assert self !in tail;
        WithoutKeepsOthers(tail, self);
      } else {
        WithoutDropsOne(tail, self);
      }
    }
  }

  lemma TakeOfPrefix<K>(a: seq<K>, b: seq<K>, k: nat)
    requires k <= |a| || b == []
    ensures Take(a + b, k) == Take(a, k)
  {
  }

  /** Asking for one hit more than is scored and dropping the query's own gives the ranking of every
      other record, cut to `k`. */
  lemma StrippedTopK<K>(ranking: seq<K>, self: K, k: nat)
    requires Distinct(ranking)
    ensures StripSelfHit(Take(ranking, k + 1), self, k) == Take(Without(ranking, self), k)
    ensures self !in StripSelfHit(Take(ranking, k + 1), self, k)
  {
    var head := Take(ranking, k + 1);
    var tail := ranking[|head|..];
    assert ranking == head + tail;
    WithoutSplits(head, tail, self);
    WithoutDropsOne(head, self);
    TakeOfPrefix(Without(head, self), Without(tail, self), k);
    WithoutExcludes(head, self);
  }

  lemma {:induction false} WithoutExcludes<K>(xs: seq<K>, self: K)
    ensures self !in Without(xs, self)
    ensures forall x :: x in Without(xs, self) ==> x in xs
  {
    if xs != [] {
      WithoutExcludes(xs[1..], self);
    }
  }

  // ---------- Sampling ----------

  /** A stored record, with its vector standing for whatever it carries. */
  datatype Stored<V> = Stored(key: Key, vector: V)

  predicate Earlier<V>(a: Stored<V>, b: Stored<V>) {
    KeyLess(a.key, b.key)
  }

  lemma EarlierIsStrict<V(!new)>()
    ensures StrictOrder<Stored<V>>(Earlier)
  {
    forall a: Stored<V>, b: Stored<V> | Earlier(a, b)
      ensures !Earlier(b, a)
    {
      KeyAsymmetric(a.key, b.key);
    }
    forall a: Stored<V>, b: Stored<V>, c: Stored<V> | Earlier(a, b) && Earlier(b, c)
      ensures Earlier(a, c)
    {
      KeyTransitive(a.key, b.key, c.key);
    }
  }

  ghost predicate OnePerKey<V>(all: seq<Stored<V>>) {
    forall i, j :: 0 <= i < j < |all| ==> all[i].key != all[j].key
  }

  /** The records sorted by (collection, id): what the sampling starts from. */
  method SortByKey<V(!new)>(all: seq<Stored<V>>) returns (sorted: seq<Stored<V>>)
    ensures multiset(sorted) == multiset(all)
    ensures OnePerKey(all) ==> Ordered(sorted, Earlier)
  {
    sorted := [];
    EarlierIsStrict<V>();
    var i := 0;
    assert all[..i] == [];
    while i < |all|
      invariant 0 <= i <= |all|
      invariant multiset(sorted) == multiset(all[..i])
      invariant OnePerKey(all) ==> Ordered(sorted, Earlier)
    {
      if OnePerKey(all) {
        NewKeyCompares(all, i, sorted);
      }
      sorted := Insert(sorted, all[i], Earlier);
      assert all[..i + 1] == all[..i] + [all[i]];
      i := i + 1;
    }
    assert all[..i] == all;
  }

  lemma NewKeyCompares<V(!new)>(all: seq<Stored<V>>, i: nat, sorted: seq<Stored<V>>)
    requires OnePerKey(all) && i < |all| && multiset(sorted) == multiset(all[..i])
    ensures ComparesWithAll(sorted, all[i], Earlier)
  {
    forall y | y in sorted
      ensures Earlier(all[i], y) || Earlier(y, all[i])
    {
      assert y in multiset(all[..i]);
      KeyTotal(all[i].key, y.key);
    }
  }

  /** Whatever order the store lists its records in, the sampling starts from the same list and so draws
      the same sample. */
  lemma StartIgnoresStoreOrder<V(!new)>(a: seq<Stored<V>>, b: seq<Stored<V>>)
    requires Ordered(a, Earlier) && Ordered(b, Earlier) && multiset(a) == multiset(b)
    ensures a == b
  {
    EarlierIsStrict<V>();
    forall x
      ensures x in a <==> x in b
    {
      assert x in a <==> x in multiset(a);
      assert x in b <==> x in multiset(b);
    }
    SameMembersSameOrder(a, b, Earlier);
  }

  /** What the seed draws from a sorted list. */
  function Drawn<T>(sorted: seq<T>, take: nat, seed: nat): seq<T>
    requires take <= |sorted|
  {
    Shuffled(sorted, 0, take, seed)[..take]
  }

  lemma DrawnMembers<T>(sorted: seq<T>, take: nat, seed: nat)
    requires take <= |sorted|
    ensures |Drawn(sorted, take, seed)| == take && multiset(Drawn(sorted, take, seed)) <= multiset(sorted)
  {
    var all := Shuffled(sorted, 0, take, seed);
    ShuffleRearranges(sorted, 0, take, seed);
    assert all == all[..take] + all[take..];
  }

  method Draw<T>(sorted: seq<T>, take: nat, seed: nat) returns (sample: seq<T>)
    requires take <= |sorted|
    ensures sample == Drawn(sorted, take, seed)
  {
    var rng := new SplitMix64(seed);
    var a := new T[|sorted|](i requires 0 <= i < |sorted| => sorted[i]);
    assert a[..] == sorted;
    ShufflePrefix(a, take, rng);
    return a[..take];
  }

  lemma SameSize<T>(a: seq<T>, b: seq<T>)
    requires multiset(a) == multiset(b)
    ensures |a| == |b|
  {
    assert |multiset(a)| == |multiset(b)|;
  }

  /** Draws `min(sampleSize, n)` of the records, none more often than it is stored, whatever the generator
      yields; with one record per key, no key twice. The draw depends on the sorted records and the seed
      alone. */
  method SampleQueries<V(!new)>(all: seq<Stored<V>>, sampleSize: nat, seed: nat)
    returns (sample: seq<Stored<V>>, ghost sorted: seq<Stored<V>>)
    ensures multiset(sorted) == multiset(all) && (OnePerKey(all) ==> Ordered(sorted, Earlier))
    ensures |sorted| == |all| && sample == Drawn(sorted, Min(sampleSize, |all|), seed)
    ensures |sample| == Min(sampleSize, |all|) && multiset(sample) <= multiset(all)
    ensures OnePerKey(all) ==> OnePerKey(sample)
  {
    var ordered := SortByKey(all);
    sorted := ordered;
    SameSize(ordered, all);
    var take := Min(sampleSize, |ordered|);
    DrawnMembers(ordered, take, seed);
    if take == 0 {
      sample := [];
    } else {
      sample := Draw(ordered, take, seed);
    }
    if OnePerKey(all) {
      ShuffleRearranges(ordered, 0, take, seed);
      DrawnDistinct(all, Shuffled(ordered, 0, take, seed), take);
    }
  }

  /** Rearranging records with one key each leaves every prefix with one key each. */
  lemma DrawnDistinct<V(!new)>(all: seq<Stored<V>>, shuffled: seq<Stored<V>>, take: nat)
    requires OnePerKey(all) && multiset(shuffled) == multiset(all) && take <= |shuffled|
    ensures OnePerKey(shuffled[..take])
  {
    forall i, j | 0 <= i < j < |shuffled|
      ensures shuffled[i].key != shuffled[j].key
    {
      CountedOnce(all, shuffled[i], shuffled[j]);
      TwoPlaces(shuffled, i, j);
      assert shuffled[i] in multiset(shuffled) && shuffled[j] in multiset(shuffled);
    }
  }

  /** Two members with the same key are one record, held once. */
  lemma {:induction false} CountedOnce<V(!new)>(all: seq<Stored<V>>, x: Stored<V>, y: Stored<V>)
    requires OnePerKey(all)
    ensures multiset(all)[x] <= 1
    ensures x in all && y in all && x.key == y.key ==> x == y
  {
    if all != [] {
      var init, last := all[..|all| - 1], all[|all| - 1];
      CountedOnce(init, x, y);
      assert all == init + [last];
      assert x == last ==> x !in init;
      assert x !in init ==> multiset(init)[x] == 0;
    }
  }
}
