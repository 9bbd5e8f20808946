/** The layered graph both builders write: per node, one adjacency list per level it occupies. */
module Graphs {
  import opened Counting
  import opened BeamSearch

  type Links = seq<seq<seq<nat>>>

  function Heights(links: Links): (hs: seq<nat>)
    ensures |hs| == |links|
    ensures forall n :: 0 <= n < |links| ==> hs[n] == |links[n]|
  {
    seq(|links|, n requires 0 <= n < |links| => |links[n]|)
  }

  /** The lists of one level; a node that does not reach the level has no neighbours there. */
  function LayerOf(links: Links, level: nat): (g: Layer)
    ensures |g| == |links|
    ensures forall n :: 0 <= n < |links| ==> g[n] == if level < |links[n]| then links[n][level] else []
  {
    seq(|links|, n requires 0 <= n < |links| => if level < |links[n]| then links[n][level] else [])
  }

  function SetList(links: Links, n: nat, level: nat, adj: seq<nat>): Links
    requires n < |links| && level < |links[n]|
  {
    links[n := links[n][level := adj]]
  }

  /** A well-formed list of node `n` at `level`: ids in range, no self-loop, no duplicate, and
      every neighbour itself occupies the level. */
  ghost predicate ListOk(heights: seq<nat>, n: nat, level: nat, adj: seq<nat>) {
    && Distinct(adj)
    && forall x :: x in adj ==> x < |heights| && x != n && level < heights[x]
  }

  ghost predicate Sound(links: Links) {
    forall n, l :: 0 <= n < |links| && 0 <= l < |links[n]| ==> ListOk(Heights(links), n, l, links[n][l])
  }

  ghost predicate HasLevel(links: Links, n: nat, level: nat) {
    n < |links| && level < |links[n]|
  }

  /** The entry point sits on the top level of the graph. */
  ghost predicate EntryOnTop(links: Links, entry: nat, maxLevel: nat) {
    && entry < |links| && |links[entry]| == maxLevel + 1
    && forall n :: 0 <= n < |links| ==> 1 <= |links[n]| <= maxLevel + 1
  }

  lemma SoundLayerInRange(links: Links, level: nat)
    requires Sound(links)
    ensures InRange(LayerOf(links, level))
  {
    var g := LayerOf(links, level);
    forall n, i | 0 <= n < |g| && 0 <= i < |g[n]|
      ensures g[n][i] < |g|
    {
      assert ListOk(Heights(links), n, level, links[n][level]);
      assert g[n][i] in links[n][level];
    }
  }

  /** Walking along a level never leaves the nodes that occupy it. */
  lemma {:induction false} WalkKeepsLevel(links: Links, level: nat, p: seq<nat>)
    requires Sound(links) && IsWalk(LayerOf(links, level), p) && HasLevel(links, p[0], level)
    ensures HasLevel(links, p[|p| - 1], level)
    decreases |p|
  {
    if |p| > 1 {
      var q := p[1..];
      assert forall i :: 0 <= i < |q| ==> q[i] == p[i + 1];
      assert p[0 + 1] in links[p[0]][level];
      assert ListOk(Heights(links), p[0], level, links[p[0]][level]);
      WalkKeepsLevel(links, level, q);
    }
  }

  lemma ReachKeepsLevel(links: Links, level: nat, from: nat, to: nat)
    requires Sound(links) && Reaches(LayerOf(links, level), from, to) && HasLevel(links, from, level)
    ensures HasLevel(links, to, level)
  {
    var p :| IsWalk(LayerOf(links, level), p) && p[0] == from && p[|p| - 1] == to;
    WalkKeepsLevel(links, level, p);
  }
}
