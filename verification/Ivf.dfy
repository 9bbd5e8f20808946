/** The inverted-file index: rows filed under their nearest centroid, probed list by list. */
module Ivf {
  import opened Counting
  import opened Ranking
  import opened Vectors
  import opened KMeans
  import opened SplitMix

  const KMEANS_ITERS: nat := 12

  type Lists = seq<seq<nat>>

  // ---------- Lists ----------

  /** Every row the lists hold, with its multiplicity. */
  ghost function Contents(lists: Lists): multiset<nat> {
    if lists == [] then multiset{} else Contents(lists[..|lists| - 1]) + multiset(lists[|lists| - 1])
  }

  /** Each row sits in the list of its best centroid. */
  ghost predicate Filed(sp: Space, cents: seq<Vec>, lists: Lists)
    requires sp.Valid() && Fits(sp, cents)
  {
    && |lists| == |cents|
    && forall c, i :: 0 <= c < |lists| && 0 <= i < |lists[c]| ==> IsNearest(sp, cents, sp.row(lists[c][i]), c)
  }

  lemma {:induction false} PushAddsOne(lists: Lists, c: nat, row: nat)
    requires c < |lists|
    ensures Contents(lists[c := lists[c] + [row]]) == Contents(lists) + multiset{row}
  {
    var last := |lists| - 1;
    var pushed := lists[c := lists[c] + [row]];
    if c < last {
      PushAddsOne(lists[..last], c, row);
      assert pushed[..last] == lists[..last][c := lists[..last][c] + [row]];
    } else {
      assert pushed[..last] == lists[..last];
      assert multiset(lists[c] + [row]) == multiset(lists[c]) + multiset{row};
    }
  }

  lemma {:induction false} EmptyContents(lists: Lists)
    requires forall c :: 0 <= c < |lists| ==> lists[c] == []
    ensures Contents(lists) == multiset{}
  {
    if lists != [] {
      EmptyContents(lists[..|lists| - 1]);
    }
  }

  /** Files rows one by one; used by the build and by incremental inserts. */
  method FileRows(sp: Space, cents: seq<Vec>, lists: Lists, rows: seq<nat>) returns (filed: Lists, ghost near: seq<nat>)
    requires sp.Valid() && Fits(sp, cents) && cents != [] && Filed(sp, cents, lists)
    ensures Filed(sp, cents, filed) && Contents(filed) == Contents(lists) + multiset(rows)
    ensures NearestEach(sp, cents, rows, near) && KMeans.InRange(near, |rows|, |cents|)
  {
    filed, near := lists, [];
    var n := 0;
    while n < |rows|
      invariant 0 <= n <= |rows| && |near| == n
      invariant Filed(sp, cents, filed) && Contents(filed) == Contents(lists) + multiset(rows[..n])
      invariant forall i :: 0 <= i < n ==> IsNearest(sp, cents, sp.row(rows[i]), near[i])
    {
      var c := NearestCentroid(sp, cents, sp.row(rows[n]));
      PushStaysFiled(sp, cents, filed, c, rows[n]);
      FiledOneMore(lists, filed, rows, n, c);
      filed, near := filed[c := filed[c] + [rows[n]]], near + [c];
      n := n + 1;
    }
    assert rows[..n] == rows;
  }

  lemma PushStaysFiled(sp: Space, cents: seq<Vec>, lists: Lists, c: nat, row: nat)
    requires sp.Valid() && Fits(sp, cents) && Filed(sp, cents, lists) && IsNearest(sp, cents, sp.row(row), c)
    ensures Filed(sp, cents, lists[c := lists[c] + [row]])
  {
  }

  lemma FiledOneMore(lists: Lists, filed: Lists, rows: seq<nat>, n: nat, c: nat)
    requires n < |rows| && c < |filed| && Contents(filed) == Contents(lists) + multiset(rows[..n])
    ensures Contents(filed[c := filed[c] + [rows[n]]]) == Contents(lists) + multiset(rows[..n + 1])
  {
    PushAddsOne(filed, c, rows[n]);
    assert rows[..n + 1] == rows[..n] + [rows[n]];
  }

  // ---------- Build ----------

  /** `r` is the integer nearest the square root of `n`: it lies between `r - 1/2` and `r + 1/2`. */
  predicate IsRoundedRoot(n: nat, r: nat) {
    (r == 0 || r * r - r < n) && n <= r * r + r
  }

  function RoundSqrtFrom(n: nat, r: nat): (root: nat)
    requires r == 0 || r * r - r < n
    ensures IsRoundedRoot(n, root)
    decreases n - r
  {
    if n <= r * r + r then r
    else
      NextRoot(n, r);
      RoundSqrtFrom(n, r + 1)
  }

  lemma NextRoot(n: nat, r: nat)
    requires r * r + r < n
    ensures (r + 1) * (r + 1) - (r + 1) < n && r < n
  {
    assert (r + 1) * (r + 1) - (r + 1) == r * r + r;
  }

  lemma RootInRange(n: nat, r: nat)
    requires n > 0 && IsRoundedRoot(n, r)
    ensures 1 <= r <= n
  {
    if r >= 2 {
      assert r * r - r == r * (r - 1) >= r;
    }
  }

  lemma SmallerRootFallsShort(n: nat, a: nat, b: nat)
    requires a < b && IsRoundedRoot(n, b)
    ensures a * a + a < n
  {
    assert b * b - b == b * (b - 1);
    assert a * a + a == a * (a + 1);
    assert a * (a + 1) <= (b - 1) * (a + 1) <= (b - 1) * b;
  }

  /** The rounding is never in doubt: no integer lies half way. */
  lemma RoundedRootUnique(n: nat, a: nat, b: nat)
    requires IsRoundedRoot(n, a) && IsRoundedRoot(n, b)
    ensures a == b
  {
    if a < b {
      SmallerRootFallsShort(n, a, b);
    } else if b < a {
      SmallerRootFallsShort(n, b, a);
    }
  }

  /** List count: configured, or the rounded square root of the row count; never zero for a
      non-empty build and never more than the rows. */
  function ListCount(configured: nat, n: nat): (k: nat)
    ensures n > 0 ==> 1 <= k <= n
    ensures configured > 0 ==> k == Min(configured, n)
    ensures configured == 0 && n > 0 ==> IsRoundedRoot(n, k)
  {
    var auto := RoundSqrtFrom(n, 0);
    assert n > 0 ==> 1 <= auto <= n by {
      if n > 0 {
        RootInRange(n, auto);
      }
    }
    if configured == 0 then Min(if auto >= 1 then auto else 1, n) else Min(configured, n)
  }

  function RowsAt(sp: Space, rows: seq<nat>): (vs: seq<Vec>)
    ensures |vs| == |rows| && forall i :: 0 <= i < |rows| ==> vs[i] == sp.row(rows[i])
  {
    seq(|rows|, i requires 0 <= i < |rows| => sp.row(rows[i]))
  }

  /** Under the Euclidean metric, `assign` over `cents` costs no more than any assignment over
      `seeds`. */
  ghost predicate NoDearer(sp: Space, seeds: seq<Vec>, cents: seq<Vec>, rows: seq<nat>, assign: seq<nat>)
    requires sp.Valid() && Fits(sp, cents) && Fits(sp, seeds) && KMeans.InRange(assign, |rows|, |cents|)
  {
    sp.distance == Euclidean ==>
      forall a :: KMeans.InRange(a, |rows|, |seeds|) ==>
        Cost(sp, cents, rows, assign, |rows|) <= Cost(sp, seeds, rows, a, |rows|)
  }

  lemma FirstRound(sp: Space, seeds: seq<Vec>, cents: seq<Vec>, rows: seq<nat>, near: seq<nat>)
    requires sp.Valid() && Fits(sp, seeds) && NearestEach(sp, seeds, rows, near) && KMeans.InRange(near, |rows|, |seeds|)
    requires cents == Refit(sp, rows, near, seeds, |seeds|)
    ensures NoDearer(sp, seeds, cents, rows, near)
  {
    if sp.distance == Euclidean {
      forall a | KMeans.InRange(a, |rows|, |seeds|)
        ensures Cost(sp, cents, rows, near, |rows|) <= Cost(sp, seeds, rows, a, |rows|)
      {
        LloydDescends(sp, seeds, rows, a, near);
      }
    }
  }

  lemma LaterRound(sp: Space, seeds: seq<Vec>, before: seq<Vec>, cents: seq<Vec>, rows: seq<nat>, assign: seq<nat>, near: seq<nat>)
    requires sp.Valid() && Fits(sp, seeds) && Fits(sp, before) && KMeans.InRange(assign, |rows|, |before|)
    requires NearestEach(sp, before, rows, near) && KMeans.InRange(near, |rows|, |before|)
    requires cents == Refit(sp, rows, near, before, |before|) || cents == before
    requires NoDearer(sp, seeds, before, rows, assign)
    ensures NoDearer(sp, seeds, cents, rows, near)
  {
    if sp.distance == Euclidean {
      LloydDescends(sp, before, rows, assign, near);
      NearestIsCheapest(sp, before, rows, near, assign, |rows|);
    }
  }

  // ---------- The history of a fit ----------

  /** The centroids before the first round and after each, and each round's assignment. */
  datatype Fit = Fit(cents: seq<seq<Vec>>, nears: seq<seq<nat>>)

  /** `after` holds the mean of each cluster's rows, rescaled to unit length for cosine; an empty cluster stays. */
  ghost predicate MeansOf(sp: Space, rows: seq<nat>, near: seq<nat>, before: seq<Vec>, after: seq<Vec>)
    requires sp.Valid() && |rows| == |near|
  {
    |after| == |before|
    && forall c :: 0 <= c < |before| ==>
         var n, sum := CountOf(near, c, |rows|), SumOf(sp, rows, near, c, |rows|);
         after[c] == if n == 0 then before[c]
                     else if sp.distance == Cosine then sp.normalize(Scale(sum, 1.0 / n as real))
                     else Scale(sum, 1.0 / n as real)
  }

  ghost predicate RoundOk(sp: Space, rows: seq<nat>, fit: Fit, r: nat)
    requires sp.Valid() && r < |fit.nears| && |fit.cents| == |fit.nears| + 1
  {
    && Fits(sp, fit.cents[r]) && NearestEach(sp, fit.cents[r], rows, fit.nears[r])
    && MeansOf(sp, rows, fit.nears[r], fit.cents[r], fit.cents[r + 1])
  }

  /** Whether round `r` assigned every row as the round before did; before the first all rows are with
      centroid 0. */
  ghost predicate Settled(fit: Fit, r: nat)
    requires r < |fit.nears|
  {
    if r == 0 then forall i :: 0 <= i < |fit.nears[0]| ==> fit.nears[0][i] == 0 else fit.nears[r] == fit.nears[r - 1]
  }

  /** From the seeds, each round assigns to the nearest and moves to the means; twelve rounds, or up to the first
      that is settled. */
  ghost predicate IsFit(sp: Space, rows: seq<nat>, seeds: seq<Vec>, fit: Fit)
    requires sp.Valid()
  {
    && 1 <= |fit.nears| <= 12 && |fit.cents| == |fit.nears| + 1 && fit.cents[0] == seeds
    && (forall r :: 0 <= r < |fit.nears| ==> RoundOk(sp, rows, fit, r))
    && (forall r :: 0 <= r < |fit.nears| - 1 ==> !Settled(fit, r))
    && (|fit.nears| == 12 || Settled(fit, |fit.nears| - 1))
  }

  /** A fit that settles after the first round is a fixed point: its rows are with their nearest final centroid,
      and the final centroids are the means of their rows. */
  lemma SettledIsFixed(sp: Space, rows: seq<nat>, seeds: seq<Vec>, fit: Fit)
    requires sp.Valid() && IsFit(sp, rows, seeds, fit) && |fit.nears| >= 2 && Settled(fit, |fit.nears| - 1)
    ensures var last := |fit.nears| - 1;
      var cents, near := fit.cents[last + 1], fit.nears[last];
      Fits(sp, cents) && NearestEach(sp, cents, rows, near) && MeansOf(sp, rows, near, cents, cents)
  {
    var last := |fit.nears| - 1;
    assert RoundOk(sp, rows, fit, last) && RoundOk(sp, rows, fit, last - 1);
    assert fit.cents[last + 1] == fit.cents[last];
  }

  lemma RefitIsMeans(sp: Space, rows: seq<nat>, near: seq<nat>, cents: seq<Vec>)
    requires sp.Valid() && Fits(sp, cents) && |rows| == |near|
    ensures MeansOf(sp, rows, near, cents, Refit(sp, rows, near, cents, |cents|))
  {
  }

  /** One more round leaves the earlier ones as they were. */
  lemma RoundAdded(sp: Space, rows: seq<nat>, fit: Fit, near: seq<nat>, moved: seq<Vec>)
    requires sp.Valid() && |fit.cents| == |fit.nears| + 1 && Fits(sp, fit.cents[|fit.nears|])
    requires forall r :: 0 <= r < |fit.nears| ==> RoundOk(sp, rows, fit, r)
    requires NearestEach(sp, fit.cents[|fit.nears|], rows, near) && MeansOf(sp, rows, near, fit.cents[|fit.nears|], moved)
    ensures var more := Fit(fit.cents + [moved], fit.nears + [near]);
      && (forall r :: 0 <= r < |more.nears| ==> RoundOk(sp, rows, more, r))
      && forall r :: 0 <= r < |fit.nears| ==> (Settled(more, r) <==> Settled(fit, r))
  {
    hide MeansOf, NearestEach, Fits;
    var more := Fit(fit.cents + [moved], fit.nears + [near]);
    forall r | 0 <= r < |more.nears|
      ensures RoundOk(sp, rows, more, r)
    {
      if r < |fit.nears| {
        assert RoundOk(sp, rows, fit, r);
      }
    }
    forall r | 0 <= r < |fit.nears|
      ensures Settled(more, r) <==> Settled(fit, r)
    {
      assert more.nears[r] == fit.nears[r] && more.nears[0] == fit.nears[0];
    }
  }

  /** The round just made is settled exactly when the assignment did not change. */
  lemma SettledIffUnchanged(fit: Fit, current: seq<nat>, near: seq<nat>, moved: seq<Vec>)
    requires |near| == |current|
    requires if fit.nears == [] then forall i :: 0 <= i < |current| ==> current[i] == 0
             else current == fit.nears[|fit.nears| - 1]
    ensures Settled(Fit(fit.cents + [moved], fit.nears + [near]), |fit.nears|) <==> near == current
  {
    var more := Fit(fit.cents + [moved], fit.nears + [near]);
    assert more.nears[|fit.nears|] == near;
    if fit.nears != [] {
      assert more.nears[|fit.nears| - 1] == current;
    }
  }

  /** At most twelve Lloyd rounds, stopping early when no assignment changed. */
  method Lloyd(sp: Space, rows: seq<nat>, seeds: seq<Vec>)
    returns (cents: seq<Vec>, ghost assign: seq<nat>, ghost fit: Fit)
    requires sp.Valid() && Fits(sp, seeds) && seeds != []
    ensures |cents| == |seeds| && Fits(sp, cents) && KMeans.InRange(assign, |rows|, |cents|)
    ensures IsFit(sp, rows, seeds, fit) && cents == fit.cents[|fit.nears|] && assign == fit.nears[|fit.nears| - 1]
    ensures NoDearer(sp, seeds, cents, rows, assign)
  {
    hide MeansOf, NearestEach, Settled;
    cents := seeds;
    var current := seq(|rows|, _ => 0);
    var round := 0;
    fit := Fit([seeds], []);
    while round < KMEANS_ITERS
      invariant 0 <= round <= KMEANS_ITERS
      invariant |cents| == |seeds| && Fits(sp, cents) && KMeans.InRange(current, |rows|, |cents|)
      invariant if round == 0 then cents == seeds else NoDearer(sp, seeds, cents, rows, current)
      invariant |fit.nears| == round && |fit.cents| == round + 1 && fit.cents[0] == seeds && fit.cents[round] == cents
      invariant forall r :: 0 <= r < round ==> RoundOk(sp, rows, fit, r)
      invariant forall r :: 0 <= r < round ==> !Settled(fit, r)
      invariant if round == 0 then forall i :: 0 <= i < |current| ==> current[i] == 0 else current == fit.nears[round - 1]
    {
      var near, changed := AssignRows(sp, cents, rows, current);
      var moved := UpdateCentroids(sp, rows, near, cents);
      if round == 0 {
        FirstRound(sp, seeds, moved, rows, near);
      } else {
        LaterRound(sp, seeds, cents, moved, rows, current, near);
      }
      RefitIsMeans(sp, rows, near, cents);
      RoundAdded(sp, rows, fit, near, moved);
      SettledIffUnchanged(fit, current, near, moved);
      fit := Fit(fit.cents + [moved], fit.nears + [near]);
      cents, current, round := moved, near, round + 1;
      if !changed {
        break;
      }
    }
    assign := current;
  }

  // ---------- Probing ----------

  ghost predicate Below(order: seq<nat>, k: nat) {
    forall i :: 0 <= i < |order| ==> order[i] < k
  }

  /** The rows of the lists named in `order`, with multiplicity. */
  ghost function Gathered(lists: Lists, order: seq<nat>): multiset<nat>
    requires Below(order, |lists|)
  {
    if order == [] then multiset{} else multiset(lists[order[0]]) + Gathered(lists, order[1..])
  }

  ghost predicate IsSelection(order: seq<nat>, k: nat) {
    && Below(order, k)
    && forall i, j :: 0 <= i < j < |order| ==> order[i] != order[j]
  }

  lemma {:induction false} GatheredSplit(lists: Lists, a: seq<nat>, b: seq<nat>)
    requires Below(a, |lists|) && Below(b, |lists|)
    ensures Below(a + b, |lists|) && Gathered(lists, a + b) == Gathered(lists, a) + Gathered(lists, b)
  {
    if a == [] {
      assert a + b == b;
    } else {
      assert (a + b)[1..] == a[1..] + b;
      GatheredSplit(lists, a[1..], b);
    }
  }

  lemma {:induction false} GatheredBelow(lists: Lists, order: seq<nat>, k: nat)
    requires k <= |lists| && Below(order, k)
    ensures Gathered(lists, order) == Gathered(lists[..k], order)
  {
    if order != [] {
      GatheredBelow(lists, order[1..], k);
    }
  }

  lemma RankInSelection(order: seq<nat>, k: nat)
    requires IsSelection(order, k + 1) && |order| == k + 1
    ensures k in order
  {
    if k !in order {
      SelectionFits(order, k);
    }
  }

  lemma {:induction false} SelectionFits(order: seq<nat>, k: nat)
    requires IsSelection(order, k)
    ensures |order| <= k
    decreases k
  {
    if order != [] {
      assert order[0] < k;
      var last := k - 1;
      if last in order {
        var p :| 0 <= p < |order| && order[p] == last;
        RankRemoved(order, last, p);
        SelectionFits(order[..p] + order[p + 1..], last);
      } else {
        SelectionFits(order, last);
      }
    }
  }

  lemma RankRemoved(order: seq<nat>, last: nat, p: nat)
    requires IsSelection(order, last + 1) && p < |order| && order[p] == last
    ensures IsSelection(order[..p] + order[p + 1..], last)
  {
    var rest := order[..p] + order[p + 1..];
    forall i | 0 <= i < |rest|
      ensures rest[i] < last
    {
      assert rest[i] == order[if i < p then i else i + 1];
    }
    forall i, j | 0 <= i < j < |rest|
      ensures rest[i] != rest[j]
    {
      assert rest[i] == order[if i < p then i else i + 1];
      assert rest[j] == order[if j < p then j else j + 1];
    }
  }

  /** Gathering the rest of the selection and one more list is gathering the selection. */
  lemma GatheredOne(lists: Lists, order: seq<nat>, p: nat)
    requires p < |order| && Below(order, |lists|)
    ensures Below(order[..p] + order[p + 1..], |lists|)
    ensures Gathered(lists, order) == Gathered(lists, order[..p] + order[p + 1..]) + multiset(lists[order[p]])
  {
    var a, b := order[..p], order[p + 1..];
    assert order == a + ([order[p]] + b);
    GatheredSplit(lists, a, [order[p]] + b);
    assert ([order[p]] + b)[1..] == b;
    GatheredSplit(lists, a, b);
  }

  /** Probing every list gathers everything the index holds. */
  lemma {:induction false} FullProbe(lists: Lists, order: seq<nat>)
    requires IsSelection(order, |lists|) && |order| == |lists|
    ensures Gathered(lists, order) == Contents(lists)
    decreases |lists|
  {
    if lists != [] {
      var last := |lists| - 1;
      RankInSelection(order, last);
      var p :| 0 <= p < |order| && order[p] == last;
      var rest := order[..p] + order[p + 1..];
      RankRemoved(order, last, p);
      GatheredOne(lists, order, p);
      GatheredBelow(lists, rest, last);
      FullProbe(lists[..last], rest);
    }
  }

  /** `order[..probe]` is the prefix after partitioning the centroids around the `probe`-th best. */
  method SelectBest(scores: seq<real>, probe: nat) returns (order: seq<nat>)
    requires 1 <= probe <= |scores|
    ensures IsSelection(order, |scores|) && |order| == |scores|
    ensures forall i, j :: 0 <= i < probe <= j < |order| ==> scores[order[i]] >= scores[order[j]]
  {
    var all: seq<nat> := seq(|scores|, (i: nat) => i);
    var f := (c: nat) => if c < |scores| then scores[c] else 0.0;
    order := SortDescending<nat>(all, f);
    PermutedSelection(all, order);
    assert forall i :: 0 <= i < |order| ==> f(order[i]) == scores[order[i]];
  }

  lemma PermutedSelection(all: seq<nat>, order: seq<nat>)
    requires forall i :: 0 <= i < |all| ==> all[i] == i
    requires multiset(all) == multiset(order) && |order| == |all|
    ensures IsSelection(order, |all|)
  {
    forall i | 0 <= i < |order|
      ensures order[i] < |all|
    {
      assert order[i] in multiset(order);
    }
    forall i, j | 0 <= i < j < |order|
      ensures order[i] != order[j]
    {
      OnceInRange(all, order[i]);
      TwoPlaces(order, i, j);
    }
  }

  lemma {:induction false} OnceInRange(all: seq<nat>, x: nat)
    requires forall i :: 0 <= i < |all| ==> all[i] == i
    ensures multiset(all)[x] <= 1
    decreases |all|
  {
    if all != [] {
      var last := |all| - 1;
      OnceInRange(all[..last], x);
      assert all == all[..last] + [last];
      assert last !in all[..last];
    }
  }

  /** What a query over `order[..probe]` returns: the best rows of the probed lists with their scores. */
  ghost predicate ProbeAnswer(lists: Lists, order: seq<nat>, probe: nat, qs: nat -> real, n: nat, out: seq<(nat, real)>)
    requires probe <= |order| && Below(order, |lists|)
  {
    AnswersFrom(Gathered(lists, order[..probe]), qs, n, out)
  }

  ghost predicate AnswersFrom(pool: multiset<nat>, qs: nat -> real, n: nat, out: seq<(nat, real)>) {
    exists rows :: IsTopN(rows, pool, n, qs) && HitsOf(rows, qs, out)
  }

  ghost predicate HitsOf(rows: seq<nat>, qs: nat -> real, out: seq<(nat, real)>) {
    |out| == |rows| && forall i :: 0 <= i < |rows| ==> out[i] == (rows[i], qs(rows[i]))
  }

  /** With every list probed, the answer is brute force over everything indexed. */
  lemma FullProbeIsBruteForce(lists: Lists, order: seq<nat>, qs: nat -> real, n: nat,
                              out: seq<(nat, real)>, brute: seq<nat>)
    requires IsSelection(order, |lists|) && |order| == |lists|
    requires ProbeAnswer(lists, order, |order|, qs, n, out) && IsTopN(brute, Contents(lists), n, qs)
    ensures |out| == |brute| && forall i :: 0 <= i < |out| ==> out[i].1 == qs(brute[i])
    ensures forall i :: 0 <= i < |out| ==> out[i].0 in Contents(lists) && out[i].1 == qs(out[i].0)
  {
    assert order[..|order|] == order;
    FullProbe(lists, order);
    AnswersAgree(Contents(lists), qs, n, out, brute);
  }

  lemma AnswersAgree(pool: multiset<nat>, qs: nat -> real, n: nat, out: seq<(nat, real)>, brute: seq<nat>)
    requires AnswersFrom(pool, qs, n, out) && IsTopN(brute, pool, n, qs)
    ensures |out| == |brute| && forall i :: 0 <= i < |out| ==> out[i].1 == qs(brute[i])
    ensures forall i :: 0 <= i < |out| ==> out[i].0 in pool && out[i].1 == qs(out[i].0)
  {
    var rows :| IsTopN(rows, pool, n, qs) && HitsOf(rows, qs, out);
    TopNScoresUnique(rows, brute, pool, n, qs);
    TopNMembers(rows, pool, n, qs);
    HitsFollow(rows, qs, out, brute, pool);
  }

  lemma HitsFollow(rows: seq<nat>, qs: nat -> real, out: seq<(nat, real)>, brute: seq<nat>, pool: multiset<nat>)
    requires HitsOf(rows, qs, out) && |rows| == |brute|
    requires forall i :: 0 <= i < |rows| ==> qs(rows[i]) == qs(brute[i])
    requires forall i :: 0 <= i < |rows| ==> rows[i] in pool
    ensures |out| == |brute| && forall i :: 0 <= i < |out| ==> out[i].1 == qs(brute[i])
    ensures forall i :: 0 <= i < |out| ==> out[i].0 in pool && out[i].1 == qs(out[i].0)
  {
  }

  /** Scores the rows of the probed lists into one buffer. */
  method GatherRows(lists: Lists, order: seq<nat>, probe: nat) returns (rows: seq<nat>)
    requires probe <= |order| && Below(order, |lists|)
    ensures multiset(rows) == Gathered(lists, order[..probe])
  {
    rows := [];
    var i := 0;
    while i < probe
      invariant 0 <= i <= probe
      invariant multiset(rows) == Gathered(lists, order[..i])
    {
      GatheredNext(lists, order, i);
      rows := rows + lists[order[i]];
      i := i + 1;
    }
  }

  lemma GatheredNext(lists: Lists, order: seq<nat>, i: nat)
    requires i < |order| && Below(order, |lists|)
    ensures Gathered(lists, order[..i + 1]) == Gathered(lists, order[..i]) + multiset(lists[order[i]])
  {
    assert order[..i + 1] == order[..i] + [order[i]];
    GatheredSplit(lists, order[..i], [order[i]]);
  }

  method Probe(lists: Lists, order: seq<nat>, probe: nat, qs: nat -> real, n: nat) returns (out: seq<(nat, real)>)
    requires probe <= |order| && Below(order, |lists|)
    ensures ProbeAnswer(lists, order, probe, qs, n, out)
  {
    var rows := GatherRows(lists, order, probe);
    var sorted := SortDescending(rows, qs);
    SortedPrefixIsTopN(sorted, multiset(rows), n, qs);
    var best := sorted[..Min(n, |sorted|)];
    out := seq(|best|, i requires 0 <= i < |best| => (best[i], qs(best[i])));
    assert HitsOf(best, qs, out);
  }

  method Seeds(sp: Space, rows: seq<nat>, k: nat, rng: SplitMix64) returns (seeds: seq<nat>)
    requires k <= |rows|
    modifies rng
    ensures |seeds| == k && multiset(seeds) <= multiset(rows)
    ensures seeds == Shuffled(rows, 0, k, old(rng.state))[..k]
  {
    var idx := new nat[|rows|](i requires 0 <= i < |rows| => rows[i]);
    assert idx[..] == rows;
    ShufflePrefix(idx, k, rng);
    seeds := idx[..k];
    assert idx[..] == idx[..k] + idx[k..];
  }

  class IvfIndex {
    const space: Space
    const listsConfigured: nat
    const seed: nat
    var nProbe: nat
    var centroids: seq<Vec>
    var lists: Lists

    ghost predicate Valid()
      reads this
    {
      && space.Valid() && nProbe >= 1
      && Fits(space, centroids) && Filed(space, centroids, lists)
      && (space.dim == 0 ==> centroids == [])
    }

    constructor (space: Space, listsConfigured: nat, nProbe: nat, seed: nat)
      requires space.Valid()
      ensures Valid() && centroids == [] && lists == []
      ensures this.space == space && this.listsConfigured == listsConfigured && this.seed == seed
      ensures this.nProbe == (if nProbe >= 1 then nProbe else 1)
    {
      this.space, this.listsConfigured, this.seed := space, listsConfigured, seed;
      this.nProbe := if nProbe >= 1 then nProbe else 1;
      centroids, lists := [], [];
    }

    /** Adopts decoded state as it is. */
    constructor FromParts(space: Space, listsConfigured: nat, nProbe: nat, seed: nat, centroids: seq<Vec>, lists: Lists)
      requires space.Valid()
      ensures this.space == space && this.listsConfigured == listsConfigured && this.seed == seed
      ensures this.nProbe == (if nProbe >= 1 then nProbe else 1)
      ensures this.centroids == centroids && this.lists == lists
      ensures Valid() <==> Fits(space, centroids) && Filed(space, centroids, lists) && (space.dim == 0 ==> centroids == [])
    {
      this.space, this.listsConfigured, this.seed := space, listsConfigured, seed;
      this.nProbe := if nProbe >= 1 then nProbe else 1;
      this.centroids, this.lists := centroids, lists;
    }

    method SetQueryParams(nProbe: nat)
      requires Valid()
      modifies this`nProbe
      ensures Valid() && this.nProbe == (if nProbe >= 1 then nProbe else 1)
    {
      this.nProbe := if nProbe >= 1 then nProbe else 1;
    }

    /** Fits centroids to the rows and files every row. `seeds`, `fit` and `assign` record the rows the
        fit started from, its rounds and the filing it ended with. */
    method Build(liveRows: seq<nat>) returns (ghost seeds: seq<nat>, ghost assign: seq<nat>, ghost fit: Fit)
      requires Valid()
      modifies this`centroids, this`lists
      ensures Valid()
      ensures space.dim == 0 || liveRows == [] ==> centroids == [] && lists == []
      ensures space.dim > 0 && liveRows != [] ==>
        && |centroids| == ListCount(listsConfigured, |liveRows|)
        && Contents(lists) == multiset(liveRows)
        && |seeds| == |centroids| && multiset(seeds) <= multiset(liveRows)
        && seeds == Shuffled(liveRows, 0, |seeds|, seed)[..|seeds|]
        && NearestEach(space, centroids, liveRows, assign) && KMeans.InRange(assign, |liveRows|, |centroids|)
        && IsFit(space, liveRows, RowsAt(space, seeds), fit) && centroids == fit.cents[|fit.nears|]
        && NoDearer(space, RowsAt(space, seeds), centroids, liveRows, assign)
    {
      centroids, lists, seeds, assign, fit := [], [], [], [], Fit([], []);
      if space.dim == 0 || liveRows == [] {
        return;
      }
      var k := ListCount(listsConfigured, |liveRows|);
      var rng := new SplitMix64(seed);
      var picked := Seeds(space, liveRows, k, rng);
      seeds := picked;
      var cents, filed;
      cents, filed, assign, fit := FitAndFile(space, liveRows, picked);
      centroids, lists := cents, filed;
    }

    /** Files new rows under the existing centroids; an index built empty is built from them. */
    method InsertRows(rows: seq<nat>) returns (ghost seeds: seq<nat>, ghost fit: Fit)
      requires Valid()
      modifies this`centroids, this`lists
      ensures Valid()
      ensures old(centroids) == [] && space.dim > 0 && rows != [] ==>
        && |seeds| == ListCount(listsConfigured, |rows|) && seeds == Shuffled(rows, 0, |seeds|, seed)[..|seeds|]
        && IsFit(space, rows, RowsAt(space, seeds), fit) && centroids == fit.cents[|fit.nears|]
      ensures old(centroids) != [] ==>
        centroids == old(centroids) && Contents(lists) == old(Contents(lists)) + multiset(rows)
      ensures old(centroids) == [] ==>
        Contents(lists) == if space.dim == 0 then multiset{} else multiset(rows)
    {
      seeds, fit := [], Fit([], []);
      if space.dim == 0 || |centroids| == 0 {
        EmptyContents(lists);
        if rows != [] {
          ghost var assign;
          seeds, assign, fit := Build(rows);
        }
        return;
      }
      ghost var near;
      lists, near := FileRows(space, centroids, lists, rows);
    }

    /** Ranks the centroids, probes the best `nProbe` lists and returns their best rows. */
    method Search(query: Vec, qs: nat -> real, nCandidates: nat) returns (out: seq<(nat, real)>, ghost order: seq<nat>)
      requires Valid() && |query| == space.dim
      ensures nCandidates == 0 || space.dim == 0 || centroids == [] ==> out == []
      ensures nCandidates > 0 && space.dim > 0 && centroids != [] ==>
        var probe := Min(nProbe, |centroids|);
        && IsSelection(order, |lists|) && |order| == |lists|
        && (forall i, j :: 0 <= i < probe <= j < |order| ==>
              space.Score(query, centroids[order[i]]) >= space.Score(query, centroids[order[j]]))
        && ProbeAnswer(lists, order, probe, qs, nCandidates, out)
    {
      out, order := [], [];
      if nCandidates == 0 || space.dim == 0 || |centroids| == 0 {
        return;
      }
      var scores := CentroidScores(space, centroids, query);
      var probe := Min(nProbe, |centroids|);
      var ranked := SelectBest(scores, probe);
      order := ranked;
      out := Probe(lists, ranked, probe, qs, nCandidates);
    }
  }

  function CentroidScores(sp: Space, cents: seq<Vec>, query: Vec): (scores: seq<real>)
    requires Fits(sp, cents) && |query| == sp.dim
    ensures |scores| == |cents| && forall c :: 0 <= c < |cents| ==> scores[c] == sp.Score(query, cents[c])
  {
    seq(|cents|, c requires 0 <= c < |cents| => sp.Score(query, cents[c]))
  }

  method FitAndFile(sp: Space, rows: seq<nat>, seeds: seq<nat>)
    returns (cents: seq<Vec>, filed: Lists, ghost assign: seq<nat>, ghost fit: Fit)
    requires sp.Valid() && seeds != []
    ensures IsFit(sp, rows, RowsAt(sp, seeds), fit) && cents == fit.cents[|fit.nears|]
    ensures |cents| == |seeds| && Fits(sp, cents) && Filed(sp, cents, filed)
    ensures Contents(filed) == multiset(rows)
    ensures NearestEach(sp, cents, rows, assign) && KMeans.InRange(assign, |rows|, |cents|)
    ensures NoDearer(sp, RowsAt(sp, seeds), cents, rows, assign)
  {
    ghost var last;
    cents, last, fit := Lloyd(sp, rows, RowsAt(sp, seeds));
    var empty: Lists := seq(|cents|, _ => []);
    EmptyContents(empty);
    filed, assign := FileRows(sp, cents, empty, rows);
    LaterRound(sp, RowsAt(sp, seeds), cents, cents, rows, last, assign);
  }
}
