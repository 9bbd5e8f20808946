/** Beam search over one layer of the graph: what the search promises (a certificate), and what
    follows from that promise whatever the order in which ties were explored. */
module BeamSearch {
  import opened Counting
  import opened Ranking

  /** One layer: node id -> the ids its adjacency list names. */
  type Layer = seq<seq<nat>>

  ghost predicate InRange(g: Layer) {
    forall n, i :: 0 <= n < |g| && 0 <= i < |g[n]| ==> g[n][i] < |g|
  }

  // ---------- Reachability ----------

  ghost predicate IsWalk(g: Layer, p: seq<nat>) {
    && p != []
    && (forall i :: 0 <= i < |p| ==> p[i] < |g|)
    && forall i, j :: 0 <= i < |p| - 1 && j == i + 1 ==> p[j] in g[p[i]]
  }

  ghost predicate Reaches(g: Layer, from: nat, to: nat) {
    exists p :: IsWalk(g, p) && p[0] == from && p[|p| - 1] == to
  }

  ghost predicate ReachedFrom(g: Layer, starts: seq<nat>, x: nat) {
    exists e :: e in starts && Reaches(g, e, x)
  }

  ghost function Reachable(g: Layer, starts: seq<nat>): set<nat> {
    set x | 0 <= x < |g| && ReachedFrom(g, starts, x)
  }

  lemma ReachesSelf(g: Layer, x: nat)
    requires x < |g|
    ensures Reaches(g, x, x)
  {
    assert IsWalk(g, [x]);
  }

  lemma ReachesStep(g: Layer, from: nat, mid: nat, to: nat)
    requires Reaches(g, from, mid) && to < |g| && to in g[mid]
    ensures Reaches(g, from, to)
  {
    var p :| IsWalk(g, p) && p[0] == from && p[|p| - 1] == mid;
    var q := p + [to];
    assert IsWalk(g, q) && q[0] == from && q[|q| - 1] == to;
  }

  ghost predicate Closed(g: Layer, s: set<nat>) {
    forall x, y :: x in s && x < |g| && y in g[x] ==> y in s
  }

  lemma {:induction false} WalkStaysInside(g: Layer, p: seq<nat>, s: set<nat>)
    requires IsWalk(g, p) && p[0] in s && Closed(g, s)
    ensures p[|p| - 1] in s
    decreases |p|
  {
    if |p| > 1 {
      var q := p[1..];
      assert forall i :: 0 <= i < |q| ==> q[i] == p[i + 1];
      assert p[0 + 1] in g[p[0]];
      WalkStaysInside(g, q, s);
    }
  }

  /** A closed set that holds the starts holds everything reachable from them. */
  lemma ReachableInside(g: Layer, starts: seq<nat>, s: set<nat>)
    requires Elements(starts) <= s && Closed(g, s)
    ensures Reachable(g, starts) <= s
  {
    forall x | x in Reachable(g, starts)
      ensures x in s
    {
      var e :| e in starts && Reaches(g, e, x);
      var p :| IsWalk(g, p) && p[0] == e && p[|p| - 1] == x;
      WalkStaysInside(g, p, s);
    }
  }

  // ---------- The certificate ----------

  /** What one search of a layer with beam width `ef` returns. `seen` are the nodes it scored:
      every neighbour of a kept node was scored, and a scored node was left out only when the
      beam was full of nodes at least as good. */
  ghost predicate CertifiedBy(g: Layer, starts: seq<nat>, ef: nat, f: nat -> real, out: seq<nat>, seen: set<nat>) {
    && Distinct(out) && Descending(out, f)
    && Elements(starts) <= seen <= Reachable(g, starts)
    && Elements(out) <= seen
    && |out| <= (if |Elements(starts)| <= ef then ef else |Elements(starts)|)
    && (forall x, y :: x in out && x < |g| && y in g[x] ==> y in seen)
    && (forall x, y :: x in out && y in seen - Elements(out) ==> f(y) <= f(x))
    && (seen != Elements(out) ==> ef <= |out|)
  }

  ghost predicate Certified(g: Layer, starts: seq<nat>, ef: nat, f: nat -> real, out: seq<nat>) {
    exists seen :: CertifiedBy(g, starts, ef, f, out, seen)
  }

  /** Local optimality: a neighbour of a result is a result, or the beam is full and the
      neighbour is no better than its worst. The same holds of every entry point. */
  lemma CertifiedIsLocallyOptimal(g: Layer, starts: seq<nat>, ef: nat, f: nat -> real, out: seq<nat>)
    requires Certified(g, starts, ef, f, out)
    ensures forall x, y :: x in out && x < |g| && y in g[x] && y !in out ==> ef <= |out| && f(y) <= f(out[|out| - 1])
    ensures forall y :: y in starts && y !in out && out != [] ==> ef <= |out| && f(y) <= f(out[|out| - 1])
  {
    var seen :| CertifiedBy(g, starts, ef, f, out, seen);
    forall x, y | x in out && x < |g| && y in g[x] && y !in out
      ensures ef <= |out| && f(y) <= f(out[|out| - 1])
    {
      assert y in seen - Elements(out);
      assert out[|out| - 1] in out;
    }
    forall y | y in starts && y !in out && out != []
      ensures ef <= |out| && f(y) <= f(out[|out| - 1])
    {
      assert y in Elements(starts);
      assert y in seen - Elements(out);
      assert out[|out| - 1] in out;
    }
  }

  /** Pruning never empties the beam: a search with a start and a positive width keeps a node. */
  lemma CertifiedNonEmpty(g: Layer, starts: seq<nat>, ef: nat, f: nat -> real, out: seq<nat>)
    requires Certified(g, starts, ef, f, out) && starts != [] && ef >= 1
    ensures out != []
  {
    var seen :| CertifiedBy(g, starts, ef, f, out, seen);
    assert starts[0] in Elements(starts);
  }

  lemma CertifiedReached(g: Layer, starts: seq<nat>, ef: nat, f: nat -> real, out: seq<nat>, x: nat)
    requires Certified(g, starts, ef, f, out) && x in out
    ensures x in Reachable(g, starts)
  {
    assert x in Elements(out);
  }

  lemma CertifiedInRange(g: Layer, starts: seq<nat>, ef: nat, f: nat -> real, out: seq<nat>)
    requires Certified(g, starts, ef, f, out)
    ensures Distinct(out) && forall x :: x in out ==> x < |g|
  {
    forall x | x in out
      ensures x < |g|
    {
      assert x in Elements(out);
    }
  }

  /** Wide-beam exactness: a beam at least as wide as the reachable part of the layer returns
      the whole reachable part. */
  lemma WideBeamIsExhaustive(g: Layer, starts: seq<nat>, ef: nat, f: nat -> real, out: seq<nat>)
    requires Certified(g, starts, ef, f, out) && |Reachable(g, starts)| <= ef
    ensures Elements(out) == Reachable(g, starts)
  {
    var seen :| CertifiedBy(g, starts, ef, f, out, seen);
    var r, kept := Reachable(g, starts), Elements(out);
    DistinctSize(out);
    SubsetCount(seen, r);
    SubsetCount(kept, seen);
    if |kept| == |seen| {
      SubsetCount(kept, seen);
    }
    assert kept == seen;
    ReachableInside(g, starts, kept);
  }

  /** ... and therefore its first `n` entries are what brute force over the reachable part
      returns, up to ties. */
  lemma WideBeamRefinesBruteForce(g: Layer, starts: seq<nat>, ef: nat, f: nat -> real, out: seq<nat>, n: nat)
    requires Certified(g, starts, ef, f, out) && |Reachable(g, starts)| <= ef
    ensures IsTopN(out[..Min(n, |out|)], multiset(Reachable(g, starts)), n, f)
  {
    WideBeamIsExhaustive(g, starts, ef, f, out);
    DistinctMultiset(out);
    SortedPrefixIsTopN(out, multiset(out), n, f);
  }
}
