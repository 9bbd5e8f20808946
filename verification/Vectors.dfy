/** Vectors over the reals, with the few identities the k-means argument needs. */
module Vectors {
  type Vec = seq<real>

  function Dot(a: Vec, b: Vec): real
    requires |a| == |b|
  {
    if a == [] then 0.0 else a[0] * b[0] + Dot(a[1..], b[1..])
  }

  function DistSq(a: Vec, b: Vec): real
    requires |a| == |b|
  {
    if a == [] then 0.0 else (a[0] - b[0]) * (a[0] - b[0]) + DistSq(a[1..], b[1..])
  }

  function Add(a: Vec, b: Vec): (r: Vec)
    requires |a| == |b|
    ensures |r| == |a| && forall i :: 0 <= i < |a| ==> r[i] == a[i] + b[i]
  {
    seq(|a|, i requires 0 <= i < |a| => a[i] + b[i])
  }

  function Sub(a: Vec, b: Vec): (r: Vec)
    requires |a| == |b|
    ensures |r| == |a| && forall i :: 0 <= i < |a| ==> r[i] == a[i] - b[i]
  {
    seq(|a|, i requires 0 <= i < |a| => a[i] - b[i])
  }

  function Scale(a: Vec, k: real): (r: Vec)
    ensures |r| == |a| && forall i :: 0 <= i < |a| ==> r[i] == a[i] * k
  {
    seq(|a|, i requires 0 <= i < |a| => a[i] * k)
  }

  function Zero(n: nat): (r: Vec)
    ensures |r| == n && forall i :: 0 <= i < n ==> r[i] == 0.0
  {
    seq(n, _ => 0.0)
  }

  lemma {:induction false} DotAdd(a: Vec, b: Vec, v: Vec)
    requires |a| == |b| == |v|
    ensures Dot(Add(a, b), v) == Dot(a, v) + Dot(b, v)
  {
    if a != [] {
      DotAdd(a[1..], b[1..], v[1..]);
      assert Add(a, b)[1..] == Add(a[1..], b[1..]);
      assert (a[0] + b[0]) * v[0] == a[0] * v[0] + b[0] * v[0];
    }
  }

  lemma {:induction false} DotScale(a: Vec, k: real, v: Vec)
    requires |a| == |v|
    ensures Dot(Scale(a, k), v) == k * Dot(a, v)
  {
    if a != [] {
      DotScale(a[1..], k, v[1..]);
      ScaleTail(a, k);
      ScaledSum(a[0], v[0], k, Dot(a[1..], v[1..]));
    }
  }

  lemma ScaleTail(a: Vec, k: real)
    requires a != []
    ensures Scale(a, k)[1..] == Scale(a[1..], k)
  {
    forall i | 0 <= i < |a| - 1
      ensures Scale(a, k)[1..][i] == Scale(a[1..], k)[i]
    {
      assert a[1..][i] == a[i + 1];
    }
  }

  lemma ScaledSum(x: real, y: real, k: real, rest: real)
    ensures (x * k) * y + k * rest == k * (x * y + rest)
  {
  }

  lemma {:induction false} DotZero(v: Vec)
    ensures Dot(Zero(|v|), v) == 0.0
  {
    if v != [] {
      DotZero(v[1..]);
      assert Zero(|v|)[1..] == Zero(|v[1..]|);
    }
  }

  lemma {:induction false} DistSqNonNegative(a: Vec, b: Vec)
    requires |a| == |b|
    ensures DistSq(a, b) >= 0.0
  {
    if a != [] {
      DistSqNonNegative(a[1..], b[1..]);
      SquareNonNegative(a[0] - b[0]);
    }
  }

  lemma SquareNonNegative(x: real)
    ensures x * x >= 0.0
  {
  }

  lemma SquareOfSum(x: real, m: real, c: real)
    ensures (x - c) * (x - c) == (x - m) * (x - m) + 2.0 * (x * (m - c) - m * (m - c)) + (m - c) * (m - c)
  {
  }

  lemma Assemble(xc: real, xm: real, x: real, m: real, mc: real, xcs: real, xms: real, xs: real, ms: real, mcs: real)
    requires xc == xm + 2.0 * (x - m) + mc && xcs == xms + 2.0 * (xs - ms) + mcs
    ensures xc + xcs == xm + xms + 2.0 * (x + xs - (m + ms)) + (mc + mcs)
  {
  }

  /** The first coordinates' share of each term below. */
  lemma Heads(x: Vec, m: Vec, c: Vec, diff: Vec)
    returns (xc: real, xm: real, xd: real, md: real, mc: real)
    requires |x| == |m| == |c| > 0 && diff == Sub(m, c)
    ensures DistSq(x, c) == xc + DistSq(x[1..], c[1..]) && DistSq(x, m) == xm + DistSq(x[1..], m[1..])
    ensures DistSq(m, c) == mc + DistSq(m[1..], c[1..])
    ensures Dot(x, diff) == xd + Dot(x[1..], diff[1..]) && Dot(m, diff) == md + Dot(m[1..], diff[1..])
    ensures xc == xm + 2.0 * (xd - md) + mc && diff[1..] == Sub(m[1..], c[1..])
  {
    var d := m[0] - c[0];
    xc, xm, xd, md, mc := (x[0] - c[0]) * (x[0] - c[0]), (x[0] - m[0]) * (x[0] - m[0]), x[0] * d, m[0] * d, d * d;
    SquareOfSum(x[0], m[0], c[0]);
  }

  /** How far moving the reference point from `c` to `m` changes a squared distance. */
  lemma {:induction false} DistSqMove(x: Vec, m: Vec, c: Vec)
    requires |x| == |m| == |c|
    ensures DistSq(x, c) == DistSq(x, m) + 2.0 * (Dot(x, Sub(m, c)) - Dot(m, Sub(m, c))) + DistSq(m, c)
  {
    if x != [] {
      var xt, mt, ct, diff := x[1..], m[1..], c[1..], Sub(m, c);
      var xc, xm, xd, md, mc := Heads(x, m, c, diff);
      DistSqMove(xt, mt, ct);
      Assemble(xc, xm, xd, md, mc, DistSq(xt, ct), DistSq(xt, mt), Dot(xt, diff[1..]), Dot(mt, diff[1..]), DistSq(mt, ct));
    }
  }
}
