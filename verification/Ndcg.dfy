/** Normalised discounted cumulative gain, and the rearrangement argument its range rests on. */
module Ndcg {
  import opened Counting
  import opened Ranking

  type Doc = string
  type Judged = map<Doc, real>
  type Discount = nat -> real

  /** Positive and strictly increasing from rank one, as `log2(rank + 1)` is. */
  ghost predicate IsDiscount(d: Discount) {
    && (forall i :: 1 <= i ==> d(i) > 0.0)
    && forall i, j :: 1 <= i < j ==> d(i) < d(j)
  }

  /** The first `n` gains, each divided by its rank's discount. */
  ghost function Dcg(gains: seq<real>, n: nat, d: Discount): real
    requires n <= |gains| && IsDiscount(d)
  {
    if n == 0 then 0.0 else Dcg(gains, n - 1, d) + gains[n - 1] / d(n)
  }

  /** DCG@k: gains in the order given, truncated to `k`. */
  ghost function DcgAt(gains: seq<real>, k: nat, d: Discount): real
    requires IsDiscount(d)
  {
    Dcg(gains, Min(k, |gains|), d)
  }

  ghost function Total(xs: seq<real>, n: nat): real
    requires n <= |xs|
  {
    if n == 0 then 0.0 else Total(xs, n - 1) + xs[n - 1]
  }

  /** Gains at exactly `k` ranks: cut off at `k`, or filled up with zeros. */
  function Padded(gains: seq<real>, k: nat): (p: seq<real>)
    ensures |p| == k && forall i :: 0 <= i < k ==> p[i] == if i < |gains| then gains[i] else 0.0
  {
    seq(k, i requires 0 <= i < k => if i < |gains| then gains[i] else 0.0)
  }

  lemma {:induction false} PaddingAddsNothing(gains: seq<real>, k: nat, n: nat, d: Discount)
    requires IsDiscount(d) && n <= k
    ensures Dcg(Padded(gains, k), n, d) == Dcg(gains, Min(n, |gains|), d)
  {
    if n > 0 {
      PaddingAddsNothing(gains, k, n - 1, d);
      if n > |gains| {
        assert 0.0 / d(n) == 0.0;
      }
    }
  }

  /** A gain at rank `i + 1` counts divided by that rank's discount, on its own; no gains make nothing. */
  lemma {:induction false} GainCounts(gains: seq<real>, i: nat, gain: real, n: nat, d: Discount)
    requires IsDiscount(d) && i < n <= |gains|
    ensures Dcg(gains[i := gain], n, d) == Dcg(gains, n, d) + (gain - gains[i]) / d(i + 1)
    ensures (forall r :: 0 <= r < |gains| ==> gains[r] == 0.0) ==> Dcg(gains, n, d) == 0.0
  {
    assert gains[i := gain][n - 1] == if i == n - 1 then gain else gains[n - 1];
    if i == n - 1 {
      SamePrefix(gains, gains[i := gain], i, d);
      Quotients(gain, gains[i], d(n));
      NoGains(gains, n, d);
    } else {
      GainCounts(gains, i, gain, n - 1, d);
      NoGains(gains, n, d);
    }
  }

  lemma {:induction false} SamePrefix(a: seq<real>, b: seq<real>, n: nat, d: Discount)
    requires IsDiscount(d) && n <= |a| && n <= |b| && forall i :: 0 <= i < n ==> a[i] == b[i]
    ensures Dcg(a, n, d) == Dcg(b, n, d)
  {
    if n > 0 {
      SamePrefix(a, b, n - 1, d);
    }
  }

  lemma {:induction false} NoGains(gains: seq<real>, n: nat, d: Discount)
    requires IsDiscount(d) && n <= |gains|
    ensures (forall r :: 0 <= r < |gains| ==> gains[r] == 0.0) ==> Dcg(gains, n, d) == 0.0
  {
    if n > 0 {
      NoGains(gains, n - 1, d);
      assert 0.0 / d(n) == 0.0;
    }
  }

  // ---------- Prefix sums decide weighted sums ----------

  /** What the better sequence leads by after weighting, less the last weight times its lead. */
  ghost function Slack(a: seq<real>, b: seq<real>, n: nat, d: Discount): real
    requires n <= |a| == |b| && IsDiscount(d) && n >= 1
  {
    Dcg(b, n, d) - Dcg(a, n, d) - (Total(b, n) - Total(a, n)) / d(n)
  }

  lemma SlackStep(a: seq<real>, b: seq<real>, n: nat, d: Discount)
    requires 2 <= n <= |a| == |b| && IsDiscount(d)
    ensures Slack(a, b, n, d) == Slack(a, b, n - 1, d) + (Total(b, n - 1) - Total(a, n - 1)) * (1.0 / d(n - 1) - 1.0 / d(n))
  {
    Discounted(Total(b, n - 1) - Total(a, n - 1), b[n - 1] - a[n - 1], d(n - 1), d(n));
    Quotients(b[n - 1], a[n - 1], d(n));
  }

  lemma FirstGain(gains: seq<real>, d: Discount)
    requires gains != [] && IsDiscount(d)
    ensures Dcg(gains, 1, d) == gains[0] / d(1) && Total(gains, 1) == gains[0]
  {
    assert Dcg(gains, 0, d) == 0.0 && Total(gains, 0) == 0.0;
  }

  lemma SlackStart(a: seq<real>, b: seq<real>, d: Discount)
    requires |a| == |b| >= 1 && IsDiscount(d)
    ensures Slack(a, b, 1, d) == 0.0 && Total(a, 0) == Total(b, 0)
  {
    FirstGain(a, d);
    FirstGain(b, d);
    Quotients(b[0], a[0], d(1));
  }

  lemma Discounted(lead: real, more: real, before: real, now: real)
    requires before > 0.0 && now > 0.0
    ensures more / now - (lead + more) / now == -(lead / now)
    ensures lead / before - lead / now == lead * (1.0 / before - 1.0 / now)
  {
    Quotients(lead, -more, now);
    assert lead / before == lead * (1.0 / before);
    assert lead / now == lead * (1.0 / now);
  }

  lemma Quotients(x: real, y: real, d: real)
    requires d > 0.0
    ensures x / d - y / d == (x - y) / d
  {
  }

  lemma Reciprocals(a: real, b: real)
    requires 0.0 < a < b
    ensures 0.0 < 1.0 / b < 1.0 / a
  {
  }

  lemma ProductSign(x: real, y: real)
    requires x >= 0.0 && y > 0.0
    ensures x * y >= 0.0 && (x * y == 0.0 ==> x == 0.0)
  {
  }

  ghost predicate Dominates(b: seq<real>, a: seq<real>) {
    |a| == |b| && forall j :: 0 <= j <= |a| ==> Total(a, j) <= Total(b, j)
  }

  /** One more rank never lowers the slack, and keeps it only if the sums so far were level. */
  lemma SlackGain(a: seq<real>, b: seq<real>, n: nat, d: Discount) returns (gain: real)
    requires 2 <= n <= |a| && IsDiscount(d) && Dominates(b, a)
    ensures Slack(a, b, n, d) == Slack(a, b, n - 1, d) + gain && gain >= 0.0
    ensures gain == 0.0 ==> Total(a, n - 1) == Total(b, n - 1)
  {
    hide Slack, Total;
    SlackStep(a, b, n, d);
    var ahead, shrink := Total(b, n - 1) - Total(a, n - 1), 1.0 / d(n - 1) - 1.0 / d(n);
    gain := ahead * shrink;
    Reciprocals(d(n - 1), d(n));
    ProductSign(ahead, shrink);
  }

  /** Slack only accumulates, and stays zero only while the prefix sums agree. */
  lemma {:induction false} SlackGrows(a: seq<real>, b: seq<real>, n: nat, d: Discount)
    requires 1 <= n <= |a| && IsDiscount(d) && Dominates(b, a)
    ensures Slack(a, b, n, d) >= 0.0
    ensures Slack(a, b, n, d) == 0.0 ==> forall j :: 0 <= j < n ==> Total(a, j) == Total(b, j)
  {
    hide Slack, Total;
    if n == 1 {
      SlackStart(a, b, d);
    } else {
      SlackGrows(a, b, n - 1, d);
      var _ := SlackGain(a, b, n, d);
    }
  }

  /** The sequence ahead in every prefix sum is ahead after discounting, and level only with itself. */
  lemma DominanceDecides(a: seq<real>, b: seq<real>, d: Discount)
    requires IsDiscount(d) && Dominates(b, a)
    ensures Dcg(a, |a|, d) <= Dcg(b, |b|, d)
    ensures Dcg(a, |a|, d) == Dcg(b, |b|, d) <==> a == b
  {
    var n := |a|;
    if n > 0 {
      SlackGrows(a, b, n, d);
      var lead := Total(b, n) - Total(a, n);
      ProductSign(lead, 1.0 / d(n));
      assert lead / d(n) == lead * (1.0 / d(n));
      if Dcg(a, n, d) == Dcg(b, n, d) {
        SumsDecide(a, b);
      }
    }
  }

  lemma SumsDecide(a: seq<real>, b: seq<real>)
    requires |a| == |b| && forall j :: 0 <= j <= |a| ==> Total(a, j) == Total(b, j)
    ensures a == b
  {
    forall i | 0 <= i < |a|
      ensures a[i] == b[i]
    {
      assert Total(a, i + 1) == Total(a, i) + a[i];
      assert Total(b, i + 1) == Total(b, i) + b[i];
    }
  }

  // ---------- Any ranking against the ideal one ----------

  function Gains(docs: seq<Doc>, judged: Judged): (g: seq<real>)
    ensures |g| == |docs|
    ensures forall i :: 0 <= i < |docs| ==> g[i] == if docs[i] in judged then judged[docs[i]] else 0.0
  {
    seq(|docs|, i requires 0 <= i < |docs| => if docs[i] in judged then judged[docs[i]] else 0.0)
  }

  ghost predicate AllJudged(keys: seq<Doc>, judged: Judged) {
    forall i :: 0 <= i < |keys| ==> keys[i] in judged
  }

  function Values(keys: seq<Doc>, judged: Judged): (v: seq<real>)
    requires AllJudged(keys, judged)
    ensures |v| == |keys| && forall i :: 0 <= i < |keys| ==> v[i] == judged[keys[i]]
  {
    seq(|keys|, i requires 0 <= i < |keys| => judged[keys[i]])
  }

  ghost predicate HighToLow(xs: seq<real>) {
    Descending(xs, (x: real) => x)
  }

  /** The judged documents in some order, each once. */
  ghost predicate Lists(keys: seq<Doc>, judged: Judged) {
    && Distinct(keys) && AllJudged(keys, judged)
    && forall k :: k in judged ==> k in keys
  }

  /** The judgements' values from high to low. */
  ghost predicate IsIdeal(ideal: seq<real>, judged: Judged) {
    && HighToLow(ideal)
    && exists keys :: Lists(keys, judged) && multiset(ideal) == multiset(Values(keys, judged))
  }

  ghost predicate NonNegative(xs: seq<real>) {
    forall i :: 0 <= i < |xs| ==> xs[i] >= 0.0
  }

  /** The judged documents among the first `n`, in rank order. */
  ghost function Hits(docs: seq<Doc>, judged: Judged, n: nat): (h: seq<Doc>)
    requires n <= |docs|
    ensures |h| <= n && AllJudged(h, judged) && forall x :: x in h ==> x in docs[..n]
  {
    if n == 0 then []
    else if docs[n - 1] in judged then Hits(docs, judged, n - 1) + [docs[n - 1]]
    else Hits(docs, judged, n - 1)
  }

  lemma {:induction false} HitsDistinct(docs: seq<Doc>, judged: Judged, n: nat)
    requires n <= |docs| && Distinct(docs)
    ensures Distinct(Hits(docs, judged, n))
  {
    if n > 0 {
      HitsDistinct(docs, judged, n - 1);
      assert docs[n - 1] !in docs[..n - 1];
    }
  }

  lemma {:induction false} HitsCarryTheGain(docs: seq<Doc>, judged: Judged, n: nat)
    requires n <= |docs|
    ensures var v := Values(Hits(docs, judged, n), judged); Total(Gains(docs, judged), n) == Total(v, |v|)
  {
    if n > 0 {
      HitsCarryTheGain(docs, judged, n - 1);
      if docs[n - 1] in judged {
        var before := Values(Hits(docs, judged, n - 1), judged);
        assert Values(Hits(docs, judged, n), judged) == before + [judged[docs[n - 1]]];
        TotalAppend(before, judged[docs[n - 1]]);
      }
    }
  }

  lemma {:induction false} TotalPrefix(xs: seq<real>, ys: seq<real>, n: nat)
    requires n <= |xs| && n <= |ys| && forall i :: 0 <= i < n ==> xs[i] == ys[i]
    ensures Total(xs, n) == Total(ys, n)
  {
    if n > 0 {
      TotalPrefix(xs, ys, n - 1);
    }
  }

  lemma TotalAppend(xs: seq<real>, x: real)
    ensures Total(xs + [x], |xs| + 1) == Total(xs, |xs|) + x
  {
    TotalPrefix(xs + [x], xs, |xs|);
  }

  lemma {:induction false} TotalWithout(xs: seq<real>, p: nat)
    requires p < |xs|
    ensures var rest := xs[..p] + xs[p + 1..]; Total(xs, |xs|) == Total(rest, |rest|) + xs[p]
    decreases |xs|
  {
    var rest, last := xs[..p] + xs[p + 1..], |xs| - 1;
    if p == last {
      assert rest == xs[..last];
      TotalPrefix(xs, rest, last);
    } else {
      TotalWithout(xs[..last], p);
      var inner := xs[..last][..p] + xs[..last][p + 1..];
      assert rest == inner + [xs[last]];
      TotalAppend(inner, xs[last]);
      TotalPrefix(xs, xs[..last], last);
    }
  }

  lemma {:induction false} ValuesAmong(some: seq<Doc>, keys: seq<Doc>, judged: Judged)
    requires Distinct(some) && AllJudged(some, judged) && AllJudged(keys, judged)
    requires forall x :: x in some ==> x in keys
    ensures multiset(Values(some, judged)) <= multiset(Values(keys, judged))
    decreases |some|
  {
    if some != [] {
      var last := |some| - 1;
      var x := some[last];
      assert x in keys;
      var p :| 0 <= p < |keys| && keys[p] == x;
      var rest := keys[..p] + keys[p + 1..];
      forall y | y in some[..last]
        ensures y in rest
      {
        StillListed(keys, p, y);
      }
      ValuesAmong(some[..last], rest, judged);
      ValuesSplit(keys, p, judged);
      assert Values(some, judged) == Values(some[..last], judged) + [judged[x]];
    }
  }

  lemma StillListed(keys: seq<Doc>, p: nat, y: Doc)
    requires p < |keys| && y in keys && y != keys[p]
    ensures y in keys[..p] + keys[p + 1..]
  {
    var i :| 0 <= i < |keys| && keys[i] == y;
    assert (keys[..p] + keys[p + 1..])[if i < p then i else i - 1] == y;
  }

  lemma ValuesSplit(keys: seq<Doc>, p: nat, judged: Judged)
    requires p < |keys| && AllJudged(keys, judged) && AllJudged(keys[..p] + keys[p + 1..], judged)
    ensures multiset(Values(keys, judged)) == multiset(Values(keys[..p] + keys[p + 1..], judged)) + multiset{judged[keys[p]]}
  {
    var v := Values(keys, judged);
    assert v == v[..p] + [v[p]] + v[p + 1..];
    assert Values(keys[..p] + keys[p + 1..], judged) == v[..p] + v[p + 1..];
  }

  lemma SelectionLength(some: seq<real>, all: seq<real>)
    requires multiset(some) <= multiset(all)
    ensures |some| <= |all|
  {
    assert |multiset(some)| == |some| && |multiset(all)| == |all|;
    MultisetSizes(multiset(some), multiset(all));
  }

  lemma DropCommon(some: seq<real>, p: nat, head: seq<real>, e: real)
    requires p < |some| && some[p] == e && multiset(some) <= multiset(head + [e])
    ensures multiset(some[..p] + some[p + 1..]) <= multiset(head)
  {
    var rest := some[..p] + some[p + 1..];
    assert some == some[..p] + [e] + some[p + 1..];
    forall x | x in multiset(rest)
      ensures multiset(rest)[x] <= multiset(head)[x]
    {
      assert multiset(head + [e])[x] == multiset(head)[x] + multiset([e])[x];
      assert multiset(some)[x] == multiset(rest)[x] + multiset([e])[x];
    }
  }

  /** No selection from a descending list adds up to more than as many of its first entries. */
  lemma {:induction false} TopIsLargest(some: seq<real>, ideal: seq<real>)
    requires multiset(some) <= multiset(ideal) && HighToLow(ideal)
    ensures |some| <= |ideal| && Total(some, |some|) <= Total(ideal, |some|)
    decreases |ideal|
  {
    SelectionLength(some, ideal);
    if some != [] {
      var last := |ideal| - 1;
      var e, head := ideal[last], ideal[..last];
      assert ideal == head + [e];
      assert HighToLow(head);
      if e in some {
        var p :| 0 <= p < |some| && some[p] == e;
        DropCommon(some, p, head, e);
        TopIsLargest(some[..p] + some[p + 1..], head);
        LeastGoesLast(some, p, head, e);
      } else {
        NotInTail(some, head, e);
        TopIsLargest(some, head);
        TotalPrefix(head + [e], head, |some|);
      }
    }
  }

  lemma LeastGoesLast(some: seq<real>, p: nat, head: seq<real>, e: real)
    requires p < |some| <= |head| + 1 && some[p] == e && HighToLow(head + [e])
    requires var rest := some[..p] + some[p + 1..]; Total(rest, |rest|) <= Total(head, |rest|)
    ensures Total(some, |some|) <= Total(head + [e], |some|)
  {
    var n := |some| - 1;
    TotalWithout(some, p);
    TotalPrefix(head + [e], head, n);
    assert (head + [e])[n] >= (head + [e])[|head|];
  }

  lemma NotInTail(some: seq<real>, head: seq<real>, e: real)
    requires multiset(some) <= multiset(head + [e]) && e !in some
    ensures multiset(some) <= multiset(head)
  {
    forall x | x in multiset(some)
      ensures multiset(some)[x] <= multiset(head)[x]
    {
      assert multiset(head + [e])[x] == multiset(head)[x] + multiset([e])[x];
    }
  }

  lemma MultisetSizes(a: multiset<real>, b: multiset<real>)
    requires a <= b
    ensures |a| <= |b|
  {
    assert b == a + (b - a);
  }

  lemma {:induction false} TotalGrows(xs: seq<real>, n: nat, m: nat)
    requires n <= m <= |xs| && NonNegative(xs)
    ensures Total(xs, n) <= Total(xs, m)
    decreases m
  {
    if n < m {
      TotalGrows(xs, n, m - 1);
    }
  }

  lemma {:induction false} PaddedTotal(xs: seq<real>, k: nat, n: nat)
    requires n <= k
    ensures Total(Padded(xs, k), n) == Total(xs, Min(n, |xs|))
  {
    if n > 0 {
      PaddedTotal(xs, k, n - 1);
    }
  }

  /** The rearrangement: whatever a ranking without repeats retrieves by rank `j`, the ideal order
      has retrieved at least as much gain by then. */
  lemma IdealDominates(docs: seq<Doc>, judged: Judged, ideal: seq<real>, k: nat)
    requires Distinct(docs) && IsIdeal(ideal, judged) && NonNegative(ideal)
    ensures Dominates(Padded(ideal, k), Padded(Gains(docs, judged), k))
  {
    var keys :| Lists(keys, judged) && multiset(ideal) == multiset(Values(keys, judged));
    forall j | 0 <= j <= k
      ensures Total(Padded(Gains(docs, judged), k), j) <= Total(Padded(ideal, k), j)
    {
      var n := Min(j, |docs|);
      PaddedTotal(Gains(docs, judged), k, j);
      PaddedTotal(ideal, k, j);
      HitsCarryTheGain(docs, judged, n);
      HitsDistinct(docs, judged, n);
      var hits := Hits(docs, judged, n);
      ValuesAmong(hits, keys, judged);
      TopIsLargest(Values(hits, judged), ideal);
      TotalGrows(ideal, |hits|, Min(j, |ideal|));
    }
  }

  // ---------- The metric ----------

  type Query = string
  type Run = seq<(Query, seq<Doc>)>
  type Qrels = map<Query, Judged>

  method ListKeys(judged: Judged) returns (keys: seq<Doc>)
    ensures Lists(keys, judged)
  {
    keys := [];
    var rest := judged.Keys;
    while rest != {}
      invariant rest <= judged.Keys && Distinct(keys) && AllJudged(keys, judged)
      invariant forall k :: k in judged ==> (k in keys <==> k !in rest)
      decreases rest
    {
      var k :| k in rest;
      assert forall i :: 0 <= i < |keys| ==> keys[i] in judged && keys[i] in keys;
      keys := keys + [k];
      rest := rest - {k};
    }
  }

  /** The judgements' values, sorted from high to low. */
  method SortValues(judged: Judged) returns (ideal: seq<real>)
    ensures IsIdeal(ideal, judged)
  {
    var keys := ListKeys(judged);
    ideal := SortDescending(Values(keys, judged), (x: real) => x);
  }

  lemma IdealExists(judged: Judged)
    ensures exists ideal :: IsIdeal(ideal, judged)
  {
    var keys := SomeListing(judged.Keys);
    var ideal := SomeOrder(Values(keys, judged));
    assert Lists(keys, judged);
    assert IsIdeal(ideal, judged);
  }

  lemma SomeListing(docs: set<Doc>) returns (keys: seq<Doc>)
    ensures Distinct(keys) && forall k :: k in docs <==> k in keys
    decreases docs
  {
    if docs == {} {
      keys := [];
    } else {
      var d :| d in docs;
      var rest := SomeListing(docs - {d});
      keys := rest + [d];
      assert d !in rest;
    }
  }

  lemma SomeOrder(xs: seq<real>) returns (order: seq<real>)
    ensures HighToLow(order) && multiset(order) == multiset(xs)
  {
    if xs == [] {
      order := [];
    } else {
      var last := |xs| - 1;
      var rest := SomeOrder(xs[..last]);
      order := Inserted(rest, xs[last]);
      assert xs == xs[..last] + [xs[last]];
    }
  }

  lemma TailNoLarger(xs: seq<real>, y: real)
    requires HighToLow(xs) && xs != [] && y in xs[1..]
    ensures y <= xs[0]
  {
    var i :| 0 <= i < |xs[1..]| && xs[1..][i] == y;
    assert xs[i + 1] == y;
  }

  lemma Inserted(xs: seq<real>, x: real) returns (out: seq<real>)
    requires HighToLow(xs)
    ensures HighToLow(out) && multiset(out) == multiset(xs) + multiset{x}
    ensures forall y :: y in out ==> y in xs || y == x
  {
    if xs == [] || xs[0] <= x {
      out := [x] + xs;
      assert multiset([x] + xs) == multiset{x} + multiset(xs);
    } else {
      var rest := Inserted(xs[1..], x);
      out := [xs[0]] + rest;
      assert xs == [xs[0]] + xs[1..];
      forall y | y in rest
        ensures y <= xs[0]
      {
        if y in xs[1..] {
          TailNoLarger(xs, y);
        }
      }
      PrependLargest(xs[0], rest);
    }
  }

  lemma PrependLargest(x: real, rest: seq<real>)
    requires HighToLow(rest) && forall y :: y in rest ==> y <= x
    ensures HighToLow([x] + rest)
  {
    assert forall j :: 0 <= j < |rest| ==> rest[j] in rest;
  }

  lemma IdealUnique(a: seq<real>, b: seq<real>, judged: Judged)
    requires IsIdeal(a, judged) && IsIdeal(b, judged)
    ensures a == b
  {
    var ks :| Lists(ks, judged) && multiset(a) == multiset(Values(ks, judged));
    var ls :| Lists(ls, judged) && multiset(b) == multiset(Values(ls, judged));
    assert forall x :: x in ks ==> x in judged && x in ls;
    assert forall x :: x in ls ==> x in judged && x in ks;
    ValuesAmong(ks, ls, judged);
    ValuesAmong(ls, ks, judged);
    assert multiset(a) == multiset(b);
    SortedUnique(a, b);
  }

  lemma SortedUnique(a: seq<real>, b: seq<real>)
    requires multiset(a) == multiset(b)
    requires HighToLow(a) && HighToLow(b)
    ensures a == b
  {
    assert |multiset(a)| == |a| && |multiset(b)| == |b|;
    forall n | 0 <= n <= |a|
      ensures Total(a, n) == Total(b, n)
    {
      PrefixNoLarger(a, b, n);
      PrefixNoLarger(b, a, n);
    }
    SumsDecide(a, b);
  }

  lemma PrefixNoLarger(a: seq<real>, b: seq<real>, n: nat)
    requires multiset(a) == multiset(b) && HighToLow(b) && n <= |a| == |b|
    ensures Total(a, n) <= Total(b, n)
  {
    assert a == a[..n] + a[n..];
    TopIsLargest(a[..n], b);
    TotalPrefix(a, a[..n], n);
  }

  ghost function Ideal(judged: Judged): (ideal: seq<real>)
    ensures IsIdeal(ideal, judged)
  {
    IdealExists(judged);
    var ideal :| IsIdeal(ideal, judged);
    ideal
  }

  /** A query counts when it has judgements and something to gain. */
  ghost predicate Counts(query: Query, qrels: Qrels, k: nat, d: Discount)
    requires IsDiscount(d)
  {
    query in qrels && qrels[query] != map[] && DcgAt(Ideal(qrels[query]), k, d) > 0.0
  }

  ghost function QueryNdcg(docs: seq<Doc>, judged: Judged, k: nat, d: Discount): real
    requires IsDiscount(d) && DcgAt(Ideal(judged), k, d) > 0.0
  {
    DcgAt(Gains(docs, judged), k, d) / DcgAt(Ideal(judged), k, d)
  }

  /** The nDCG of each counted query among the first `n`, in run order. */
  ghost function Scores(run: Run, qrels: Qrels, k: nat, d: Discount, n: nat): seq<real>
    requires IsDiscount(d) && n <= |run|
  {
    if n == 0 then []
    else if Counts(run[n - 1].0, qrels, k, d)
    then Scores(run, qrels, k, d, n - 1) + [QueryNdcg(run[n - 1].1, qrels[run[n - 1].0], k, d)]
    else Scores(run, qrels, k, d, n - 1)
  }

  ghost function Mean(xs: seq<real>): real {
    if xs == [] then 0.0 else Total(xs, |xs|) / |xs| as real
  }

  method ComputeDcg(gains: seq<real>, k: nat, d: Discount) returns (sum: real)
    requires IsDiscount(d)
    ensures sum == DcgAt(gains, k, d)
  {
    sum := 0.0;
    var i := 0;
    while i < Min(k, |gains|)
      invariant 0 <= i <= Min(k, |gains|) && sum == Dcg(gains, i, d)
    {
      sum := sum + gains[i] / d(i + 1);
      i := i + 1;
    }
  }

  /** One query with judgements: scored unless there is nothing to gain. */
  method ScoreQuery(docs: seq<Doc>, judged: Judged, k: nat, d: Discount) returns (scored: bool, ndcg: real)
    requires IsDiscount(d)
    ensures scored <==> DcgAt(Ideal(judged), k, d) > 0.0
    ensures scored ==> ndcg == QueryNdcg(docs, judged, k, d)
  {
    var runDcg := ComputeDcg(Gains(docs, judged), k, d);
    var ideal := SortValues(judged);
    IdealUnique(ideal, Ideal(judged), judged);
    var idealDcg := ComputeDcg(ideal, k, d);
    scored, ndcg := idealDcg > 0.0, 0.0;
    if scored {
      ndcg := runDcg / idealDcg;
    }
  }

  /** Mean nDCG@k: queries without judgements, or with nothing to gain, are skipped. */
  method NdcgAtK(run: Run, qrels: Qrels, k: nat, d: Discount) returns (r: real)
    requires IsDiscount(d)
    ensures r == Mean(Scores(run, qrels, k, d, |run|))
    ensures Fair(run, qrels) ==> 0.0 <= r <= 1.0
  {
    var total, scored := 0.0, 0;
    ghost var scores := [];
    var i := 0;
    while i < |run|
      invariant 0 <= i <= |run| && scores == Scores(run, qrels, k, d, i)
      invariant scored == |scores| && total == Total(scores, |scores|)
    {
      var (query, docs) := run[i];
      if query in qrels && qrels[query] != map[] {
        var counts, ndcg := ScoreQuery(docs, qrels[query], k, d);
        if counts {
          TotalAppend(scores, ndcg);
          scores := scores + [ndcg];
          total := total + ndcg;
          scored := scored + 1;
        }
      }
      i := i + 1;
    }
    if Fair(run, qrels) {
      NdcgInRange(run, qrels, k, d);
    }
    r := if scored == 0 then 0.0 else total / scored as real;
  }

  // ---------- Main results ----------

  /** Non-negative judgements and rankings without repeats. */
  ghost predicate Fair(run: Run, qrels: Qrels) {
    && (forall q, x :: q in qrels && x in qrels[q] ==> qrels[q][x] >= 0.0)
    && forall i :: 0 <= i < |run| ==> Distinct(run[i].1)
  }

  lemma {:induction false} DcgNonNegative(gains: seq<real>, n: nat, d: Discount)
    requires IsDiscount(d) && n <= |gains| && NonNegative(gains)
    ensures Dcg(gains, n, d) >= 0.0
  {
    if n > 0 {
      DcgNonNegative(gains, n - 1, d);
      QuotientNonNegative(gains[n - 1], d(n));
    }
  }

  lemma QuotientNonNegative(x: real, d: real)
    requires x >= 0.0 && d > 0.0
    ensures x / d >= 0.0
  {
    Reciprocals(d, d + 1.0);
    ProductSign(x, 1.0 / d);
    assert x / d == x * (1.0 / d);
  }

  lemma QuotientRange(x: real, d: real)
    requires 0.0 <= x <= d && d > 0.0
    ensures 0.0 <= x / d <= 1.0 && (x / d == 1.0 <==> x == d)
  {
    assert x / d * d == x;
  }

  lemma IdealNonNegative(judged: Judged, ideal: seq<real>)
    requires IsIdeal(ideal, judged) && forall x :: x in judged ==> judged[x] >= 0.0
    ensures NonNegative(ideal)
  {
    var keys :| Lists(keys, judged) && multiset(ideal) == multiset(Values(keys, judged));
    forall i | 0 <= i < |ideal|
      ensures ideal[i] >= 0.0
    {
      assert ideal[i] in multiset(ideal);
      assert ideal[i] in Values(keys, judged);
    }
  }

  /** One query's nDCG lies between 0 and 1, and is 1 exactly when its top `k` ranks carry the gains
      of the ideal order. */
  lemma QueryInRange(docs: seq<Doc>, judged: Judged, k: nat, d: Discount)
    requires IsDiscount(d) && Distinct(docs) && (forall x :: x in judged ==> judged[x] >= 0.0)
    requires DcgAt(Ideal(judged), k, d) > 0.0
    ensures 0.0 <= QueryNdcg(docs, judged, k, d) <= 1.0
    ensures QueryNdcg(docs, judged, k, d) == 1.0 <==> Padded(Gains(docs, judged), k) == Padded(Ideal(judged), k)
  {
    var gains, ideal := Gains(docs, judged), Ideal(judged);
    IdealNonNegative(judged, ideal);
    IdealDominates(docs, judged, ideal, k);
    DominanceDecides(Padded(gains, k), Padded(ideal, k), d);
    PaddingAddsNothing(gains, k, k, d);
    PaddingAddsNothing(ideal, k, k, d);
    DcgNonNegative(gains, Min(k, |gains|), d);
    QuotientRange(DcgAt(gains, k, d), DcgAt(ideal, k, d));
  }

  /** A query's nDCG is what its ranking gained as a share of what the ideal order gains in the same `k` ranks. */
  lemma QueryShare(docs: seq<Doc>, judged: Judged, ideal: seq<real>, k: nat, d: Discount)
    requires IsDiscount(d) && IsIdeal(ideal, judged) && Dcg(ideal, Min(k, |ideal|), d) > 0.0
    requires DcgAt(Ideal(judged), k, d) > 0.0
    ensures QueryNdcg(docs, judged, k, d) * Dcg(ideal, Min(k, |ideal|), d) == Dcg(Gains(docs, judged), Min(k, |docs|), d)
  {
    hide QueryNdcg, Dcg, DcgAt, IsIdeal;
    var gained, whole := Dcg(Gains(docs, judged), Min(k, |docs|), d), Dcg(ideal, Min(k, |ideal|), d);
    QueryDivides(docs, judged, ideal, k, d);
    ShareOf(gained, whole);
  }

  lemma QueryDivides(docs: seq<Doc>, judged: Judged, ideal: seq<real>, k: nat, d: Discount)
    requires IsDiscount(d) && IsIdeal(ideal, judged) && DcgAt(Ideal(judged), k, d) > 0.0
    requires Dcg(ideal, Min(k, |ideal|), d) > 0.0
    ensures QueryNdcg(docs, judged, k, d)
         == Dcg(Gains(docs, judged), Min(k, |docs|), d) / Dcg(ideal, Min(k, |ideal|), d)
  {
    hide Dcg;
    IdealUnique(ideal, Ideal(judged), judged);
  }

  lemma ShareOf(x: real, whole: real)
    requires whole > 0.0
    ensures x / whole * whole == x
  {
  }

  /** Each counted query weighs the same. */
  lemma MeanAverages(xs: seq<real>, x: real)
    ensures Mean(xs + [x]) * (|xs| as real + 1.0) == Mean(xs) * |xs| as real + x
  {
    TotalAppend(xs, x);
    ShareOf(Total(xs, |xs|) + x, |xs| as real + 1.0);
    if xs != [] {
      ShareOf(Total(xs, |xs|), |xs| as real);
    }
  }

  lemma {:induction false} MeanOfUnits(xs: seq<real>, n: nat)
    requires n <= |xs| && forall i :: 0 <= i < |xs| ==> 0.0 <= xs[i] <= 1.0
    ensures 0.0 <= Total(xs, n) <= n as real
    ensures Total(xs, n) == n as real <==> forall i :: 0 <= i < n ==> xs[i] == 1.0
  {
    if n > 0 {
      MeanOfUnits(xs, n - 1);
    }
  }

  /** Each counted query's score, with where it came from. */
  lemma {:induction false} ScoresFollow(run: Run, qrels: Qrels, k: nat, d: Discount, n: nat)
    requires IsDiscount(d) && n <= |run| && Fair(run, qrels)
    ensures var s := Scores(run, qrels, k, d, n);
      && (forall i :: 0 <= i < |s| ==> 0.0 <= s[i] <= 1.0)
      && ((forall i :: 0 <= i < |s| ==> s[i] == 1.0) <==>
           forall i :: 0 <= i < n && Counts(run[i].0, qrels, k, d) ==> TopIsIdeal(run[i].1, qrels[run[i].0], k))
      && (s == [] <==> forall i :: 0 <= i < n ==> !Counts(run[i].0, qrels, k, d))
  {
    hide TopIsIdeal, QueryNdcg, Fair;
    if n > 0 {
      ScoresFollow(run, qrels, k, d, n - 1);
      if Counts(run[n - 1].0, qrels, k, d) {
        CountedInRange(run, qrels, k, d, n - 1);
        LastScore(Scores(run, qrels, k, d, n - 1), QueryNdcg(run[n - 1].1, qrels[run[n - 1].0], k, d));
      }
    }
  }

  lemma CountedInRange(run: Run, qrels: Qrels, k: nat, d: Discount, i: nat)
    requires IsDiscount(d) && i < |run| && Fair(run, qrels) && Counts(run[i].0, qrels, k, d)
    ensures var x := QueryNdcg(run[i].1, qrels[run[i].0], k, d);
      0.0 <= x <= 1.0 && (x == 1.0 <==> TopIsIdeal(run[i].1, qrels[run[i].0], k))
  {
    QueryInRange(run[i].1, qrels[run[i].0], k, d);
  }

  lemma LastScore(s: seq<real>, x: real)
    ensures (forall i :: 0 <= i < |s + [x]| ==> (s + [x])[i] == 1.0) <==> (forall i :: 0 <= i < |s| ==> s[i] == 1.0) && x == 1.0
  {
    assert (s + [x])[|s|] == x;
    assert forall i :: 0 <= i < |s| ==> (s + [x])[i] == s[i];
  }

  ghost predicate TopIsIdeal(docs: seq<Doc>, judged: Judged, k: nat) {
    Padded(Gains(docs, judged), k) == Padded(Ideal(judged), k)
  }

  /** The metric's range, for every run, every `k` and every admissible discount. */
  lemma NdcgInRange(run: Run, qrels: Qrels, k: nat, d: Discount)
    requires IsDiscount(d) && Fair(run, qrels)
    ensures 0.0 <= Mean(Scores(run, qrels, k, d, |run|)) <= 1.0
  {
    var s := Scores(run, qrels, k, d, |run|);
    ScoresFollow(run, qrels, k, d, |run|);
    if s != [] {
      MeanOfUnits(s, |s|);
      QuotientRange(Total(s, |s|), |s| as real);
    }
  }

  /** A perfect score means some query counted and every counted one ranked its top `k` ideally. */
  lemma NdcgPerfect(run: Run, qrels: Qrels, k: nat, d: Discount)
    requires IsDiscount(d) && Fair(run, qrels)
    ensures Mean(Scores(run, qrels, k, d, |run|)) == 1.0 <==>
      && (exists i :: 0 <= i < |run| && Counts(run[i].0, qrels, k, d))
      && forall i :: 0 <= i < |run| && Counts(run[i].0, qrels, k, d) ==> TopIsIdeal(run[i].1, qrels[run[i].0], k)
  {
    var s := Scores(run, qrels, k, d, |run|);
    ScoresFollow(run, qrels, k, d, |run|);
    if s != [] {
      MeanOfUnits(s, |s|);
      QuotientRange(Total(s, |s|), |s| as real);
    }
  }
}
