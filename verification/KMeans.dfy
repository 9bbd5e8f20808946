/** The k-means fit behind the inverted lists: assignment, update, and why neither can increase the
    total squared distance under the Euclidean metric. */
module KMeans {
  import opened Vectors

  datatype Distance = Cosine | Euclidean | DotProduct

  /** The vectors an index is fitted to. `normalize` stands for the unit-length rescaling. */
  datatype Space = Space(dim: nat, distance: Distance, row: nat -> Vec, normalize: Vec -> Vec) {
    ghost predicate Valid() {
      && (forall r :: |row(r)| == dim)
      && forall v :: |normalize(v)| == |v|
    }

    /** Higher is nearer. */
    function Score(a: Vec, b: Vec): real
      requires |a| == |b|
    {
      if distance == Euclidean then -DistSq(a, b) else Dot(a, b)
    }
  }

  /** A squared distance is what the lengths do not share. */
  lemma {:induction false} DistSqExpands(a: Vec, b: Vec)
    requires |a| == |b|
    ensures DistSq(a, b) == Dot(a, a) + Dot(b, b) - 2.0 * Dot(a, b)
  {
    if a != [] {
      DistSqExpands(a[1..], b[1..]);
      SquareOfDifference(a[0], b[0]);
    }
  }

  lemma SquareOfDifference(x: real, y: real)
    ensures (x - y) * (x - y) == x * x + y * y - 2.0 * (x * y)
  {
  }

  /** Every metric ranks vectors of one length by nearness: a higher score is a smaller distance. */
  lemma HigherIsNearer(sp: Space, v: Vec, a: Vec, b: Vec)
    requires |v| == |a| == |b| && Dot(a, a) == Dot(b, b)
    ensures sp.Score(v, a) <= sp.Score(v, b) <==> DistSq(v, b) <= DistSq(v, a)
  {
    DistSqExpands(v, a);
    DistSqExpands(v, b);
  }

  /** Two vectors score, under cosine and dot product, half of what their own lengths have over their distance. */
  lemma ScoreIsDot(sp: Space, a: Vec, b: Vec)
    requires |a| == |b|
    ensures sp.distance != Euclidean ==> 2.0 * sp.Score(a, b) == Dot(a, a) + Dot(b, b) - DistSq(a, b)
    ensures sp.distance == Euclidean ==> sp.Score(a, b) == 2.0 * Dot(a, b) - Dot(a, a) - Dot(b, b)
  {
    DistSqExpands(a, b);
  }

  ghost predicate Fits(sp: Space, cents: seq<Vec>) {
    forall c :: 0 <= c < |cents| ==> |cents[c]| == sp.dim
  }

  /** The best-scoring centroid, the lowest index among equals. */
  ghost predicate IsNearest(sp: Space, cents: seq<Vec>, v: Vec, best: nat)
    requires Fits(sp, cents) && |v| == sp.dim
  {
    && best < |cents|
    && (forall c :: 0 <= c < |cents| ==> sp.Score(v, cents[c]) <= sp.Score(v, cents[best]))
    && forall c :: 0 <= c < best ==> sp.Score(v, cents[c]) < sp.Score(v, cents[best])
  }

  lemma NearestUnique(sp: Space, cents: seq<Vec>, v: Vec, a: nat, b: nat)
    requires Fits(sp, cents) && |v| == sp.dim && IsNearest(sp, cents, v, a) && IsNearest(sp, cents, v, b)
    ensures a == b
  {
    assert sp.Score(v, cents[a]) == sp.Score(v, cents[b]);
  }

  method NearestCentroid(sp: Space, cents: seq<Vec>, v: Vec) returns (best: nat)
    requires Fits(sp, cents) && |v| == sp.dim && cents != []
    ensures IsNearest(sp, cents, v, best)
  {
    best := 0;
    var c := 1;
    while c < |cents|
      invariant 1 <= c <= |cents| && best < c
      invariant forall d :: 0 <= d < c ==> sp.Score(v, cents[d]) <= sp.Score(v, cents[best])
      invariant forall d :: 0 <= d < best ==> sp.Score(v, cents[d]) < sp.Score(v, cents[best])
    {
      if sp.Score(v, cents[c]) > sp.Score(v, cents[best]) {
        best := c;
      }
      c := c + 1;
    }
  }

  ghost predicate InRange(assign: seq<nat>, n: nat, k: nat) {
    |assign| == n && forall i :: 0 <= i < n ==> assign[i] < k
  }

  ghost predicate NearestEach(sp: Space, cents: seq<Vec>, rows: seq<nat>, assign: seq<nat>)
    requires sp.Valid() && Fits(sp, cents)
  {
    |assign| == |rows| && forall i :: 0 <= i < |rows| ==> IsNearest(sp, cents, sp.row(rows[i]), assign[i])
  }

  /** Total squared distance of the first `n` rows to their assigned centroids. */
  ghost function Cost(sp: Space, cents: seq<Vec>, rows: seq<nat>, assign: seq<nat>, n: nat): real
    requires sp.Valid() && Fits(sp, cents) && n <= |rows| && InRange(assign, |rows|, |cents|)
  {
    if n == 0 then 0.0
    else Cost(sp, cents, rows, assign, n - 1) + DistSq(sp.row(rows[n - 1]), cents[assign[n - 1]])
  }

  /** The members of cluster `c` among the first `n` rows: their sum and their number. */
  ghost function SumOf(sp: Space, rows: seq<nat>, assign: seq<nat>, c: nat, n: nat): (s: Vec)
    requires sp.Valid() && n <= |rows| == |assign|
    ensures |s| == sp.dim
  {
    if n == 0 then Zero(sp.dim)
    else if assign[n - 1] == c then Add(SumOf(sp, rows, assign, c, n - 1), sp.row(rows[n - 1]))
    else SumOf(sp, rows, assign, c, n - 1)
  }

  ghost function CountOf(assign: seq<nat>, c: nat, n: nat): nat
    requires n <= |assign|
  {
    if n == 0 then 0 else CountOf(assign, c, n - 1) + if assign[n - 1] == c then 1 else 0
  }

  /** Where the update step puts centroid `c`: its members' mean, or where it was when empty. */
  ghost function Moved(sp: Space, rows: seq<nat>, assign: seq<nat>, c: nat, before: Vec): (v: Vec)
    requires sp.Valid() && |rows| == |assign| && |before| == sp.dim
    ensures |v| == sp.dim
  {
    var n := CountOf(assign, c, |rows|);
    if n == 0 then before
    else
      var mean := Scale(SumOf(sp, rows, assign, c, |rows|), 1.0 / n as real);
      if sp.distance == Cosine then sp.normalize(mean) else mean
  }

  /** The centroids after updating those below `upTo`. */
  ghost function Refit(sp: Space, rows: seq<nat>, assign: seq<nat>, cents: seq<Vec>, upTo: nat): (r: seq<Vec>)
    requires sp.Valid() && |rows| == |assign| && Fits(sp, cents)
    ensures |r| == |cents| && Fits(sp, r)
    ensures forall c :: 0 <= c < |cents| ==> r[c] == if c < upTo then Moved(sp, rows, assign, c, cents[c]) else cents[c]
  {
    seq(|cents|, c requires 0 <= c < |cents| => if c < upTo then Moved(sp, rows, assign, c, cents[c]) else cents[c])
  }

  // ---------- Descent ----------

  /** Reassigning every row to its nearest centroid costs no more than any other assignment. */
  lemma {:induction false} NearestIsCheapest(sp: Space, cents: seq<Vec>, rows: seq<nat>, near: seq<nat>, other: seq<nat>, n: nat)
    requires sp.Valid() && sp.distance == Euclidean && Fits(sp, cents) && n <= |rows|
    requires NearestEach(sp, cents, rows, near) && InRange(near, |rows|, |cents|) && InRange(other, |rows|, |cents|)
    ensures Cost(sp, cents, rows, near, n) <= Cost(sp, cents, rows, other, n)
  {
    if n > 0 {
      NearestIsCheapest(sp, cents, rows, near, other, n - 1);
      assert IsNearest(sp, cents, sp.row(rows[n - 1]), near[n - 1]);
      assert sp.Score(sp.row(rows[n - 1]), cents[other[n - 1]]) <= sp.Score(sp.row(rows[n - 1]), cents[near[n - 1]]);
    }
  }

  /** What one row saves when its centroid moves by `v` to `m`, summed over the members of `c`. */
  ghost function Saving(sp: Space, rows: seq<nat>, assign: seq<nat>, c: nat, v: Vec, a: real, d: real, n: nat): real
    requires sp.Valid() && n <= |rows| == |assign| && |v| == sp.dim
  {
    if n == 0 then 0.0
    else if assign[n - 1] == c then Saving(sp, rows, assign, c, v, a, d, n - 1) + (2.0 * (Dot(sp.row(rows[n - 1]), v) - a) + d)
    else Saving(sp, rows, assign, c, v, a, d, n - 1)
  }

  lemma {:induction false} MoveSaves(sp: Space, cents: seq<Vec>, rows: seq<nat>, assign: seq<nat>, c: nat, m: Vec, n: nat)
    requires sp.Valid() && Fits(sp, cents) && n <= |rows| && InRange(assign, |rows|, |cents|)
    requires c < |cents| && |m| == sp.dim && Fits(sp, cents[c := m])
    ensures var v := Sub(m, cents[c]);
      Cost(sp, cents, rows, assign, n) - Cost(sp, cents[c := m], rows, assign, n) ==
        Saving(sp, rows, assign, c, v, Dot(m, v), DistSq(m, cents[c]), n)
  {
    if n > 0 {
      MoveSaves(sp, cents, rows, assign, c, m, n - 1);
      if assign[n - 1] == c {
        DistSqMove(sp.row(rows[n - 1]), m, cents[c]);
      }
    }
  }

  ghost function Times(k: nat, x: real): real {
    if k == 0 then 0.0 else Times(k - 1, x) + x
  }

  lemma {:induction false} TimesIsProduct(k: nat, x: real)
    ensures Times(k, x) == k as real * x
  {
    if k > 0 {
      TimesIsProduct(k - 1, x);
      OneMore((k - 1) as real, x);
    }
  }

  lemma OneMore(k: real, x: real)
    ensures (k + 1.0) * x == k * x + x
  {
  }

  lemma {:induction false} TimesNonNegative(k: nat, x: real)
    requires x >= 0.0
    ensures Times(k, x) >= 0.0
  {
    if k > 0 {
      TimesNonNegative(k - 1, x);
    }
  }

  lemma {:induction false} SavingTotal(sp: Space, rows: seq<nat>, assign: seq<nat>, c: nat, v: Vec, a: real, d: real, n: nat)
    requires sp.Valid() && n <= |rows| == |assign| && |v| == sp.dim
    ensures var k := CountOf(assign, c, n);
      Saving(sp, rows, assign, c, v, a, d, n) == 2.0 * (Dot(SumOf(sp, rows, assign, c, n), v) - Times(k, a)) + Times(k, d)
  {
    if n == 0 {
      DotZero(v);
    } else {
      SavingTotal(sp, rows, assign, c, v, a, d, n - 1);
      if assign[n - 1] == c {
        DotAdd(SumOf(sp, rows, assign, c, n - 1), sp.row(rows[n - 1]), v);
      }
    }
  }

  /** `n` times the mean is the sum. */
  lemma MeanCancels(s: Vec, n: nat, v: Vec)
    requires n > 0 && |s| == |v|
    ensures Dot(s, v) == Times(n, Dot(Scale(s, 1.0 / n as real), v))
  {
    DotScale(s, 1.0 / n as real, v);
    TimesIsProduct(n, Dot(Scale(s, 1.0 / n as real), v));
    assert n as real * (1.0 / n as real) == 1.0;
    Reassociate(n as real, 1.0 / n as real, Dot(s, v));
  }

  lemma Reassociate(a: real, b: real, x: real)
    requires a * b == 1.0
    ensures a * (b * x) == x
  {
    assert a * (b * x) == (a * b) * x;
  }

  /** Moving one centroid to its members' mean never increases the cost. */
  lemma MoveDescends(sp: Space, cents: seq<Vec>, rows: seq<nat>, assign: seq<nat>, c: nat)
    requires sp.Valid() && sp.distance == Euclidean && Fits(sp, cents) && InRange(assign, |rows|, |cents|) && c < |cents|
    requires Fits(sp, cents[c := Moved(sp, rows, assign, c, cents[c])])
    ensures Cost(sp, cents[c := Moved(sp, rows, assign, c, cents[c])], rows, assign, |rows|)
         <= Cost(sp, cents, rows, assign, |rows|)
  {
    var m, n := Moved(sp, rows, assign, c, cents[c]), CountOf(assign, c, |rows|);
    if n == 0 {
      assert cents[c := m] == cents;
    } else {
      var v := Sub(m, cents[c]);
      MoveSaves(sp, cents, rows, assign, c, m, |rows|);
      SavingTotal(sp, rows, assign, c, v, Dot(m, v), DistSq(m, cents[c]), |rows|);
      MeanCancels(SumOf(sp, rows, assign, c, |rows|), n, v);
      DistSqNonNegative(m, cents[c]);
      TimesNonNegative(n, DistSq(m, cents[c]));
    }
  }

  /** The whole update step never increases the cost: it is `upTo` single moves. */
  lemma {:induction false} RefitDescends(sp: Space, cents: seq<Vec>, rows: seq<nat>, assign: seq<nat>, upTo: nat)
    requires sp.Valid() && sp.distance == Euclidean && Fits(sp, cents) && InRange(assign, |rows|, |cents|)
    requires upTo <= |cents|
    ensures Cost(sp, Refit(sp, rows, assign, cents, upTo), rows, assign, |rows|) <= Cost(sp, cents, rows, assign, |rows|)
  {
    if upTo == 0 {
      assert Refit(sp, rows, assign, cents, 0) == cents;
    } else {
      var c := upTo - 1;
      var part := Refit(sp, rows, assign, cents, c);
      RefitDescends(sp, cents, rows, assign, c);
      assert Refit(sp, rows, assign, cents, upTo) == part[c := Moved(sp, rows, assign, c, part[c])];
      MoveDescends(sp, part, rows, assign, c);
    }
  }

  /** One Lloyd iteration from any assignment: assign to the nearest centroids, then move the
      centroids. The cost never goes up. */
  lemma LloydDescends(sp: Space, cents: seq<Vec>, rows: seq<nat>, assign: seq<nat>, near: seq<nat>)
    requires sp.Valid() && sp.distance == Euclidean && Fits(sp, cents)
    requires InRange(assign, |rows|, |cents|) && NearestEach(sp, cents, rows, near) && InRange(near, |rows|, |cents|)
    ensures Cost(sp, Refit(sp, rows, near, cents, |cents|), rows, near, |rows|) <= Cost(sp, cents, rows, assign, |rows|)
  {
    NearestIsCheapest(sp, cents, rows, near, assign, |rows|);
    RefitDescends(sp, cents, rows, near, |cents|);
  }

  // ---------- The loops ----------

  method AssignRows(sp: Space, cents: seq<Vec>, rows: seq<nat>, assign: seq<nat>) returns (near: seq<nat>, changed: bool)
    requires sp.Valid() && Fits(sp, cents) && cents != [] && InRange(assign, |rows|, |cents|)
    ensures NearestEach(sp, cents, rows, near) && InRange(near, |rows|, |cents|)
    ensures changed <==> near != assign
  {
    near, changed := assign, false;
    var n := 0;
    while n < |rows|
      invariant 0 <= n <= |rows| && InRange(near, |rows|, |cents|)
      invariant forall i :: 0 <= i < n ==> IsNearest(sp, cents, sp.row(rows[i]), near[i])
      invariant forall i :: n <= i < |rows| ==> near[i] == assign[i]
      invariant changed <==> near != assign
    {
      var c := NearestCentroid(sp, cents, sp.row(rows[n]));
      if near[n] != c {
        near := near[n := c];
        assert near[n] != assign[n];
        changed := true;
      }
      n := n + 1;
    }
  }

  method Accumulate(sp: Space, rows: seq<nat>, assign: seq<nat>, k: nat) returns (sums: seq<Vec>, counts: seq<nat>)
    requires sp.Valid() && InRange(assign, |rows|, k)
    ensures |sums| == |counts| == k
    ensures forall c :: 0 <= c < k ==> sums[c] == SumOf(sp, rows, assign, c, |rows|) && counts[c] == CountOf(assign, c, |rows|)
  {
    sums, counts := seq(k, _ => Zero(sp.dim)), seq(k, _ => 0);
    var n := 0;
    while n < |rows|
      invariant 0 <= n <= |rows| && |sums| == |counts| == k
      invariant forall c :: 0 <= c < k ==> sums[c] == SumOf(sp, rows, assign, c, n) && counts[c] == CountOf(assign, c, n)
    {
      var c := assign[n];
      counts := counts[c := counts[c] + 1];
      sums := sums[c := Add(sums[c], sp.row(rows[n]))];
      n := n + 1;
    }
  }

  method UpdateCentroids(sp: Space, rows: seq<nat>, assign: seq<nat>, cents: seq<Vec>) returns (cents': seq<Vec>)
    requires sp.Valid() && Fits(sp, cents) && InRange(assign, |rows|, |cents|)
    ensures cents' == Refit(sp, rows, assign, cents, |cents|)
  {
    var sums, counts := Accumulate(sp, rows, assign, |cents|);
    cents' := cents;
    var c := 0;
    while c < |cents|
      invariant 0 <= c <= |cents| && cents' == Refit(sp, rows, assign, cents, c)
    {
      if counts[c] != 0 {
        var mean := Scale(sums[c], 1.0 / counts[c] as real);
        cents' := cents'[c := if sp.distance == Cosine then sp.normalize(mean) else mean];
      }
      assert cents' == Refit(sp, rows, assign, cents, c + 1);
      c := c + 1;
    }
  }
}
