/** The graph object: insertion keeps its structure whatever levels are drawn, and queries
    return certified beams. */
module HnswIndex {
  import opened Counting
  import opened Options
  import opened Ranking
  import opened BeamSearch
  import opened Neighbours
  import opened Graphs
  import opened Hnsw

  function SaturatingDouble(m: nat): nat {
    if 2 * m <= USIZE_MAX then 2 * m else USIZE_MAX
  }

  /** Degree cap of a level: the bottom level holds twice as many links. */
  function CapAt(level: nat, m: nat, mMax0: nat): nat {
    if level == 0 then mMax0 else m
  }

  ghost predicate SameShape(a: Links, b: Links) {
    |a| == |b| && forall n :: 0 <= n < |a| ==> |a[n]| == |b[n]|
  }

  lemma SetListSound(links: Links, n: nat, level: nat, adj: seq<nat>)
    requires Sound(links) && HasLevel(links, n, level) && ListOk(Heights(links), n, level, adj)
    ensures Sound(SetList(links, n, level, adj)) && SameShape(links, SetList(links, n, level, adj))
  {
    var after := SetList(links, n, level, adj);
    assert Heights(after) == Heights(links);
    forall x, l | 0 <= x < |after| && 0 <= l < |after[x]|
      ensures ListOk(Heights(after), x, l, after[x][l])
    {
      assert ListOk(Heights(links), x, l, links[x][l]);
    }
  }

  /** What linking `node` to `selected` does to one level: the node's list is the selection,
      each selected neighbour's list gains the node and is pruned, nothing else moves. */
  ghost predicate LayerLinked(rows: seq<nat>, walk: RowScore, before: Layer, after: Layer,
                              node: nat, selected: seq<nat>, cap: nat)
  {
    && |after| == |before| == |rows| && node < |after|
    && after[node] == selected
    && (forall x :: 0 <= x < |after| && x != node && x in selected ==>
          PrunedTo(rows, walk, x, before[x] + [node], cap, after[x]))
    && (forall x :: 0 <= x < |after| && x != node && x !in selected ==> after[x] == before[x])
  }

  /** One level of one insertion: `found` is a certified beam from `starts` over the level as it
      was, and the node is linked to the heuristic's selection from it. */
  ghost predicate LayerInserted(rows: seq<nat>, walk: RowScore, before: Layer, after: Layer, node: nat,
                                starts: seq<nat>, found: seq<nat>, ef: nat, cap: nat)
  {
    && node < |rows|
    && (var f := NodeScore(rows, FromRow(walk, rows[node]));
        && Certified(before, starts, ef, f, found) && found != []
        && NodesBelow(WithScores(found, f), node)
        && LayerLinked(rows, walk, before, after, node, Select(rows, walk, WithScores(found, f), cap), cap))
  }

  /** How an insertion left the levels it touched: the first `level + 1` of them at most, each
      searched from what the level above returned, the topmost from `ep`. */
  ghost predicate Inserted(rows: seq<nat>, walk: RowScore, before: Links, after: Links, node: nat,
                           top: nat, ep: nat, founds: seq<seq<nat>>, ef: nat, m: nat, mMax0: nat)
  {
    && |founds| == top + 2 && founds[top + 1] == [ep]
    && InsertedDownTo(rows, walk, before, after, node, 0, top, founds, ef, m, mMax0)
    && (forall l: nat :: l > top ==> LayerOf(after, l) == LayerOf(before, l))
  }

  ghost predicate InsertedDownTo(rows: seq<nat>, walk: RowScore, before: Links, after: Links, node: nat,
                                 low: nat, top: nat, founds: seq<seq<nat>>, ef: nat, m: nat, mMax0: nat)
    requires |founds| == top + 2
  {
    forall l: nat :: low <= l <= top ==> InsertedAt(rows, walk, before, after, node, l, founds, ef, CapAt(l, m, mMax0))
  }

  ghost predicate InsertedAt(rows: seq<nat>, walk: RowScore, before: Links, after: Links, node: nat,
                             l: nat, founds: seq<seq<nat>>, ef: nat, cap: nat)
    requires l + 1 < |founds|
  {
    LayerInserted(rows, walk, LayerOf(before, l), LayerOf(after, l), node, founds[l + 1], founds[l], ef, cap)
  }

  /** One level of a greedy descent: walked along the level's links to a node no neighbour beats. */
  ghost predicate Hopped(links: Links, level: nat, f: nat -> real, from: nat, to: nat) {
    Reaches(LayerOf(links, level), from, to) && LocallyBest(LayerOf(links, level), f, to) && f(to) >= f(from)
  }

  /** `ep` is where a greedy descent from the top through `level` ends: one hop a level. */
  ghost predicate DescendedThrough(rows: seq<nat>, links: Links, score: nat -> real,
                                   from: nat, maxLevel: nat, level: nat, ep: nat)
    decreases maxLevel - level
  {
    if level > maxLevel then ep == from
    else exists prev: nat ::
      && Hopped(links, level, NodeScore(rows, score), prev, ep)
      && DescendedThrough(rows, links, score, from, maxLevel, level + 1, prev)
  }

  /** A descent stops above level `stop`. */
  ghost predicate DescendedTo(rows: seq<nat>, links: Links, score: nat -> real,
                              from: nat, maxLevel: nat, stop: nat, ep: nat)
  {
    DescendedThrough(rows, links, score, from, maxLevel, stop + 1, ep)
  }

  ghost predicate Capped(links: Links, m: nat, mMax0: nat) {
    forall n, l :: 0 <= n < |links| && 0 <= l < |links[n]| ==>
      |links[n][l]| <= CapAt(l, m, mMax0)
  }

  /** With two or more nodes every node keeps a neighbour on the bottom level. */
  ghost predicate Linked(links: Links) {
    |links| >= 2 ==> forall n :: 0 <= n < |links| ==> |links[n]| >= 1 && |links[n][0]| >= 1
  }

  /** What adding one row does to the links: its node is linked level by level from where the descent
      from the entry ended. */
  ghost predicate RowLinked(rows: seq<nat>, walk: RowScore, before: Links, row: nat, from: nat, maxLevel: nat,
                            level: nat, ef: nat, m: nat, mMax0: nat, after: Links, founds: seq<seq<nat>>, ep: nat)
  {
    && SameShape(Appended(before, level), after)
    && Inserted(rows + [row], walk, Appended(before, level), after, |rows|, Min(level, maxLevel), ep, founds, ef, m, mMax0)
    && DescendedTo(rows, before, FromRow(walk, row), from, maxLevel, level, ep)
  }

  /** Degrees stay within their caps and no node loses its last neighbour on the bottom level. */
  ghost predicate StaysLinked(before: Links, after: Links, m: nat, mMax0: nat) {
    (Capped(before, m, mMax0) ==> Capped(after, m, mMax0)) && (Linked(before) ==> Linked(after))
  }

  /** What a query needs of a graph, wherever the graph came from. */
  ghost predicate Navigable(rows: seq<nat>, links: Links, entry: Option<nat>, maxLevel: nat) {
    && |links| == |rows| && Sound(links)
    && (entry.None? ==> rows == [])
    && (entry.Some? ==> EntryOnTop(links, entry.value, maxLevel))
  }

  /** A new last node with one empty list per level. */
  function Appended(links: Links, level: nat): (after: Links)
    ensures |after| == |links| + 1 && after[..|links|] == links
    ensures |after[|links|]| == level + 1 && forall l :: 0 <= l <= level ==> after[|links|][l] == []
  {
    links + [seq(level + 1, _ => [])]
  }

  method DescendOnce(rows: seq<nat>, links: Links, score: nat -> real, ep: nat, level: nat) returns (hop: nat)
    requires |links| == |rows| && Sound(links) && HasLevel(links, ep, level)
    ensures HasLevel(links, hop, level) && Hopped(links, level, NodeScore(rows, score), ep, hop)
  {
    hop := GreedyDescend(rows, links, score, ep, level);
    ReachKeepsLevel(links, level, ep, hop);
  }

  /** Greedy descent from the top level down to the level above `stop`. */
  method Descend(rows: seq<nat>, links: Links, score: nat -> real, from: nat, top: nat, stop: nat) returns (ep: nat)
    requires |links| == |rows| && Sound(links) && HasLevel(links, from, top)
    ensures HasLevel(links, ep, Min(stop, top))
    ensures DescendedTo(rows, links, score, from, top, stop, ep)
  {
    ep := from;
    var lc := top;
    while lc > stop
      invariant Min(stop, top) <= lc <= top
      invariant HasLevel(links, ep, lc)
      invariant DescendedTo(rows, links, score, from, top, lc, ep)
    {
      var hop := DescendOnce(rows, links, score, ep, lc);
      DescendedOneLower(rows, links, score, from, top, lc, ep, hop);
      ep := hop;
      lc := lc - 1;
    }
  }

  method Connect(links: Links, from: nat, to: nat, level: nat) returns (links': Links)
    requires HasLevel(links, from, level)
    ensures |links'| == |links| && HasLevel(links', from, level)
    ensures links' == SetList(links, from, level, links'[from][level])
    ensures links[from][level] <= links'[from][level]
    ensures from == to ==> links' == links
    ensures from != to ==> to in links'[from][level] && Elements(links'[from][level]) == Elements(links[from][level]) + {to}
    ensures Distinct(links[from][level]) ==> Distinct(links'[from][level])
    ensures from != to && to !in links[from][level] ==> links'[from][level] == links[from][level] + [to]
  {
    links' := links;
    assert links[from][level := links[from][level]] == links[from];
    if from == to {
      return;
    }
    if to !in links[from][level] {
      links' := SetList(links, from, level, links[from][level] + [to]);
    }
  }

  method Prune(rows: seq<nat>, walk: RowScore, links: Links, node: nat, level: nat, cap: nat) returns (links': Links)
    requires |links| == |rows| && Sound(links) && HasLevel(links, node, level)
    ensures |links'| == |links| && HasLevel(links', node, level)
    ensures links' == SetList(links, node, level, links'[node][level])
    ensures PrunedTo(rows, walk, node, links[node][level], cap, links'[node][level])
  {
    assert ListOk(Heights(links), node, level, links[node][level]);
    var kept := PruneList(rows, walk, node, links[node][level], cap);
    links' := SetList(links, node, level, kept);
  }

  /** Both directions of one new edge, then the far end trimmed to its cap. */
  method LinkPair(rows: seq<nat>, walk: RowScore, links: Links, node: nat, nbr: nat, level: nat, cap: nat)
    returns (links': Links)
    requires |links| == |rows| && Sound(links) && node != nbr
    requires HasLevel(links, node, level) && HasLevel(links, nbr, level)
    requires nbr !in links[node][level] && node !in links[nbr][level]
    ensures Sound(links') && SameShape(links, links')
    ensures links' == SetList(SetList(links, node, level, links[node][level] + [nbr]), nbr, level, links'[nbr][level])
    ensures PrunedTo(rows, walk, nbr, links[nbr][level] + [node], cap, links'[nbr][level])
    ensures |links'[nbr][level]| == Min(cap, |links[nbr][level]| + 1)
  {
    assert ListOk(Heights(links), node, level, links[node][level]);
    assert ListOk(Heights(links), nbr, level, links[nbr][level]);
    var one := Connect(links, node, nbr, level);
    SetListSound(links, node, level, links[node][level] + [nbr]);
    var two := Connect(one, nbr, node, level);
    assert Heights(one) == Heights(links);
    SetListSound(one, nbr, level, one[nbr][level] + [node]);
    links' := Prune(rows, walk, two, nbr, level, cap);
    assert Heights(two) == Heights(links);
    PrunedKeeps(rows, walk, nbr, two[nbr][level], cap, links'[nbr][level]);
    SetListSound(two, nbr, level, links'[nbr][level]);
    SetListTwice(one, nbr, level, two[nbr][level], links'[nbr][level]);
  }

  /** Links `node` to every selected neighbour on one level. */
  method LinkLayer(rows: seq<nat>, walk: RowScore, links: Links, node: nat, selected: seq<nat>, level: nat,
                   m: nat, mMax0: nat)
    returns (links': Links)
    requires |links| == |rows| && Sound(links) && HasLevel(links, node, level) && links[node][level] == []
    requires Distinct(selected) && |selected| <= CapAt(level, m, mMax0)
    requires forall x :: x in selected ==> x != node && HasLevel(links, x, level) && node !in links[x][level]
    ensures Sound(links') && SameShape(links, links')
    ensures LayerLinked(rows, walk, LayerOf(links, level), LayerOf(links', level), node, selected, CapAt(level, m, mMax0))
    ensures forall l: nat :: l != level ==> LayerOf(links', l) == LayerOf(links, l)
    ensures Capped(links, m, mMax0) ==> Capped(links', m, mMax0)
  {
    links' := links;
    var cap := CapAt(level, m, mMax0);
    var i := 0;
    while i < |selected|
      invariant 0 <= i <= |selected|
      invariant Sound(links') && SameShape(links, links')
      invariant LayerLinked(rows, walk, LayerOf(links, level), LayerOf(links', level), node, selected[..i], cap)
      invariant forall l: nat :: l != level ==> LayerOf(links', l) == LayerOf(links, l)
      invariant Capped(links, m, mMax0) ==> Capped(links', m, mMax0)
    {
      var nbr := selected[i];
      var mid := links';
      assert nbr in selected && nbr !in selected[..i];
      assert LayerOf(mid, level)[nbr] == LayerOf(links, level)[nbr];
      assert LayerOf(mid, level)[node] == selected[..i];
      links' := LinkPair(rows, walk, mid, node, nbr, level, cap);
      TakeMore(selected, i);
      PairCapped(mid, links', node, nbr, level, m, mMax0);
      PairLinked(rows, walk, links, mid, links', node, selected[..i], nbr, level, cap);
      i := i + 1;
    }
    assert selected[..i] == selected;
  }

  /** Search one level for the new node and link it. */
  method InsertAtLevel(rows: seq<nat>, walk: RowScore, links: Links, node: nat, entryPoints: seq<nat>, level: nat,
                       ef: nat, m: nat, mMax0: nat)
    returns (links': Links, found: seq<nat>)
    requires |links| == |rows| && Sound(links) && node == |rows| - 1 && ef >= 1 && m >= 1 && mMax0 >= 1
    requires HasLevel(links, node, level) && Fresh(LayerOf(links, level), node)
    requires entryPoints != [] && forall e :: e in entryPoints ==> e != node && HasLevel(links, e, level)
    ensures Sound(links') && SameShape(links, links')
    ensures LayerInserted(rows, walk, LayerOf(links, level), LayerOf(links', level), node,
                          entryPoints, found, ef, CapAt(level, m, mMax0))
    ensures forall l: nat :: l != level ==> LayerOf(links', l) == LayerOf(links, l)
    ensures found != [] && forall x :: x in found ==> x != node && HasLevel(links, x, level)
    ensures Capped(links, m, mMax0) ==> Capped(links', m, mMax0)
  {
    ghost var g := LayerOf(links, level);
    var score := FromRow(walk, rows[node]);
    var f := NodeScore(rows, score);
    found := SearchLayer(rows, links, score, entryPoints, ef, level);
    BeamAvoidsNewNode(links, level, node, entryPoints, ef, f, found);
    var cs := WithScores(found, f);
    assert Nodes(cs) == found;
    var selected := SelectNeighbors(rows, walk, cs, CapAt(level, m, mMax0));
    forall x | x in selected
      ensures x != node && HasLevel(links, x, level) && node !in links[x][level]
    {
      assert x in Nodes(cs);
      assert node !in g[x];
    }
    links' := LinkLayer(rows, walk, links, node, selected, level, m, mMax0);
  }

  /** From `top` down to the bottom: search, connect, prune. */
  method InsertLevels(rows: seq<nat>, walk: RowScore, links: Links, ghost before: Links, node: nat, ep: nat, top: nat,
                      ef: nat, m: nat, mMax0: nat)
    returns (links': Links, ghost founds: seq<seq<nat>>)
    requires |links| == |rows| && Sound(links) && node == |rows| - 1 && ef >= 1 && m >= 1 && mMax0 >= 1
    requires Sound(before) && |before| == node && links[..node] == before
    requires forall k :: 0 <= k < |links[node]| ==> links[node][k] == []
    requires HasLevel(links, node, top) && HasLevel(links, ep, top) && ep != node
    ensures Sound(links') && SameShape(links, links')
    ensures Inserted(rows, walk, links, links', node, top, ep, founds, ef, m, mMax0)
    ensures Capped(links, m, mMax0) ==> Capped(links', m, mMax0)
  {
    hide Sound, Capped, Fresh;
    links' := links;
    var lc: int := top;
    var entryPoints := [ep];
    founds := seq(top + 2, _ => [ep]);
    while lc >= 0
      invariant -1 <= lc <= top
      invariant Sound(links') && SameShape(links, links')
      invariant |founds| == top + 2 && founds[top + 1] == [ep] && founds[lc + 1] == entryPoints
      invariant entryPoints != []
      invariant forall e :: e in entryPoints ==> e != node && HasLevel(links, e, if lc >= 0 then lc else 0)
      invariant forall l: nat :: l <= lc || l > top ==> LayerOf(links', l) == LayerOf(links, l)
      invariant InsertedDownTo(rows, walk, links, links', node, lc + 1, top, founds, ef, m, mMax0)
      invariant Capped(links, m, mMax0) ==> Capped(links', m, mMax0)
      decreases lc
    {
      NewNodeIsFresh(before, links, node, lc);
      ghost var mid, above := links', founds;
      links', entryPoints := InsertAtLevel(rows, walk, links', node, entryPoints, lc, ef, m, mMax0);
      founds := above[lc := entryPoints];
      InsertedOneLower(rows, walk, links, mid, links', node, lc, top, above, entryPoints, ef, m, mMax0);
      lc := lc - 1;
    }
  }

  /** Descend to the new node's top level and link it on every level it shares. */
  method InsertBelow(rows: seq<nat>, walk: RowScore, links: Links, row: nat, from: nat, maxLevel: nat, level: nat,
                     ef: nat, m: nat, mMax0: nat)
    returns (links': Links, ghost founds: seq<seq<nat>>, ghost ep: nat)
    requires Navigable(rows, links, Some(from), maxLevel)
    requires ef >= 1 && m >= 1 && mMax0 >= 1
    ensures Navigable(rows + [row], links', if level > maxLevel then Some(|rows|) else Some(from), Max(level, maxLevel))
    ensures RowLinked(rows, walk, links, row, from, maxLevel, level, ef, m, mMax0, links', founds, ep)
    ensures StaysLinked(links, links', m, mMax0)
  {
    var node, top := |rows|, Min(level, maxLevel);
    var probe := Descend(rows, links, FromRow(walk, row), from, maxLevel, level);
    var base := Appended(links, level);
    AppendSound(links, level);
    AppendCapped(links, level, m, mMax0);
    assert HasLevel(base, probe, top) by {
      assert base[probe] == links[probe];
    }
    ep := probe;
    links', founds := InsertLevels(rows + [row], walk, base, links, node, probe, top, ef, m, mMax0);
    NewNodeIsFresh(links, base, node, 0);
    EveryNodeHasBottom(links, level, from, maxLevel);
    BottomStaysLinked(rows + [row], walk, links, base, links', node, top, probe, founds, ef, m, mMax0);
    NavigableAfter(links, rows + [row], links', level, from, maxLevel);
  }

  lemma AppendCapped(links: Links, level: nat, m: nat, mMax0: nat)
    ensures Capped(links, m, mMax0) ==> Capped(Appended(links, level), m, mMax0)
  {
    assert forall n :: 0 <= n < |links| ==> Appended(links, level)[n] == links[n];
  }

  lemma EveryNodeHasBottom(links: Links, level: nat, from: nat, maxLevel: nat)
    requires EntryOnTop(links, from, maxLevel)
    ensures forall n :: 0 <= n <= |links| ==> |Appended(links, level)[n]| >= 1
  {
    assert forall n :: 0 <= n < |links| ==> Appended(links, level)[n] == links[n];
  }

  /** Pairs each node with its row and its score. */
  function Hits(rows: seq<nat>, score: nat -> real, nodes: seq<nat>): (hits: seq<(nat, real)>)
    requires forall i :: 0 <= i < |nodes| ==> nodes[i] < |rows|
    ensures |hits| == |nodes|
    ensures forall i :: 0 <= i < |nodes| ==> hits[i] == (rows[nodes[i]], score(rows[nodes[i]]))
  {
    seq(|nodes|, i requires 0 <= i < |nodes| => (rows[nodes[i]], score(rows[nodes[i]])))
  }

  /** What a query returns: the scores and rows of the first `n` nodes of a certified beam over the
      bottom level, started where the descent ended. */
  ghost predicate Answer(rows: seq<nat>, links: Links, score: nat -> real, from: nat, maxLevel: nat, ef: nat, n: nat,
                         ep: nat, nodes: seq<nat>, out: seq<(nat, real)>)
  {
    && ep < |rows| && DescendedTo(rows, links, score, from, maxLevel, 0, ep)
    && Certified(LayerOf(links, 0), [ep], ef, NodeScore(rows, score), nodes)
    && (forall i :: 0 <= i < |nodes| ==> nodes[i] < |rows|)
    && out == Hits(rows, score, nodes[..Min(n, |nodes|)]) && out != []
  }

  lemma BeamHits(g: Layer, ep: nat, ef: nat, f: nat -> real, found: seq<nat>)
    requires Certified(g, [ep], ef, f, found) && ef >= 1
    ensures found != [] && forall i :: 0 <= i < |found| ==> found[i] < |g|
  {
    CertifiedNonEmpty(g, [ep], ef, f, found);
    CertifiedInRange(g, [ep], ef, f, found);
    assert forall i :: 0 <= i < |found| ==> found[i] in found;
  }

  /** A query whose beam covers what its descent can reach answers as brute force over those rows
      would: its scores are the scores of any best-`n` ranking of them. */
  lemma WideQueryMatchesBruteForce(
      rows: seq<nat>, links: Links, score: nat -> real, from: nat, maxLevel: nat, ef: nat, n: nat,
      ep: nat, nodes: seq<nat>, out: seq<(nat, real)>, brute: seq<nat>)
    requires Answer(rows, links, score, from, maxLevel, ef, n, ep, nodes, out)
    requires |Reachable(LayerOf(links, 0), [ep])| <= ef
    requires IsTopN(brute, multiset(Reachable(LayerOf(links, 0), [ep])), n, NodeScore(rows, score))
    ensures |out| == |brute|
    ensures forall i :: 0 <= i < |out| ==> out[i].1 == NodeScore(rows, score)(brute[i])
  {
    var f, g := NodeScore(rows, score), LayerOf(links, 0);
    var best := nodes[..Min(n, |nodes|)];
    WideBeamRefinesBruteForce(g, [ep], ef, f, nodes, n);
    TopNScoresUnique(best, brute, multiset(Reachable(g, [ep])), n, f);
    forall i | 0 <= i < |out|
      ensures out[i].1 == f(brute[i])
    {
      assert out[i] == (rows[best[i]], score(rows[best[i]]));
    }
  }

  lemma NavigableAfter(before: Links, rows: seq<nat>, after: Links, level: nat, entry: nat, maxLevel: nat)
    requires EntryOnTop(before, entry, maxLevel) && SameShape(Appended(before, level), after)
    requires |after| == |rows| && Sound(after)
    ensures Navigable(rows, after, if level > maxLevel then Some(|before|) else Some(entry), Max(level, maxLevel))
  {
    assert forall n :: 0 <= n < |before| ==> Appended(before, level)[n] == before[n];
  }

  /** No list of the level names the node, and its own is empty. */
  ghost predicate Fresh(g: Layer, node: nat) {
    node < |g| && g[node] == [] && forall x :: 0 <= x < |g| ==> node !in g[x]
  }

  lemma AppendSound(before: Links, level: nat)
    requires Sound(before)
    ensures Sound(Appended(before, level))
  {
    var after := Appended(before, level);
    forall x, l | 0 <= x < |after| && 0 <= l < |after[x]|
      ensures ListOk(Heights(after), x, l, after[x][l])
    {
      if x < |before| {
        assert ListOk(Heights(before), x, l, before[x][l]);
      }
    }
  }

  lemma NewNodeIsFresh(before: Links, after: Links, node: nat, l: nat)
    requires Sound(before) && |before| == node && |after| == node + 1
    requires after[..node] == before && forall k :: 0 <= k < |after[node]| ==> after[node][k] == []
    ensures Fresh(LayerOf(after, l), node)
  {
    var g := LayerOf(after, l);
    forall x | 0 <= x < |g|
      ensures node !in g[x]
    {
      if x < node {
        assert after[x] == before[x];
        if l < |before[x]| {
          assert ListOk(Heights(before), x, l, before[x][l]);
        }
      }
    }
  }

  /** The older nodes of a level lead only to one another. */
  lemma OlderNodesInside(links: Links, level: nat, node: nat, starts: seq<nat>, x: nat)
    requires Sound(links) && Fresh(LayerOf(links, level), node) && node == |links| - 1
    requires forall e :: e in starts ==> e != node && HasLevel(links, e, level)
    requires x in Reachable(LayerOf(links, level), starts)
    ensures x < node && HasLevel(links, x, level)
  {
    var g := LayerOf(links, level);
    var inside := set y | 0 <= y < |g| && y != node && HasLevel(links, y, level);
    forall y, z | y in inside && y < |g| && z in g[y]
      ensures z in inside
    {
      assert ListOk(Heights(links), y, level, links[y][level]);
    }
    ReachableInside(g, starts, inside);
  }

  lemma BeamAvoidsNewNode(links: Links, level: nat, node: nat, starts: seq<nat>, ef: nat, f: nat -> real, found: seq<nat>)
    requires Sound(links) && Fresh(LayerOf(links, level), node) && node == |links| - 1 && ef >= 1
    requires starts != [] && forall e :: e in starts ==> e != node && HasLevel(links, e, level)
    requires Certified(LayerOf(links, level), starts, ef, f, found)
    ensures found != [] && NodesBelow(WithScores(found, f), node)
    ensures forall x :: x in found ==> x < node && HasLevel(links, x, level)
  {
    hide Certified, Sound, Fresh, Reachable;
    var g := LayerOf(links, level);
    CertifiedNonEmpty(g, starts, ef, f, found);
    forall x | x in found
      ensures x < node && HasLevel(links, x, level)
    {
      CertifiedReached(g, starts, ef, f, found, x);
      OlderNodesInside(links, level, node, starts, x);
    }
    assert forall i :: 0 <= i < |found| ==> found[i] in found;
  }

  /** A neighbour of the new node keeps something when it is pruned; any other node keeps its list. */
  lemma OldNodeStaysLinked(rows: seq<nat>, walk: RowScore, before: Links, base: Links, h: Layer, node: nat,
                           selected: seq<nat>, cap: nat, x: nat)
    requires x < node == |before| && |base| == node + 1 == |rows| && base[..node] == before && cap >= 1
    requires Sound(base) && |base[x]| >= 1 && LayerLinked(rows, walk, LayerOf(base, 0), h, node, selected, cap)
    requires node !in LayerOf(base, 0)[x] && selected != [] && forall y :: y in selected ==> y < node
    ensures Linked(before) ==> |h[x]| >= 1
  {
    var g := LayerOf(base, 0);
    assert selected[0] in selected;
    if x in selected {
      assert ListOk(Heights(base), x, 0, base[x][0]);
      PrunedKeeps(rows, walk, x, g[x] + [node], cap, h[x]);
    } else {
      assert node >= 2;
      assert base[x] == before[x];
    }
  }

  /** Linking keeps every bottom list that had a neighbour non-empty, and gives the new node and
      each node it selected one. */
  lemma BottomStaysLinked(rows: seq<nat>, walk: RowScore, before: Links, base: Links, after: Links, node: nat,
                          top: nat, ep: nat, founds: seq<seq<nat>>, ef: nat, m: nat, cap: nat)
    requires |before| == node && |base| == |after| == node + 1 == |rows| && base[..node] == before
    requires Sound(base) && Sound(after) && SameShape(base, after) && cap >= 1
    requires forall n :: 0 <= n < |base| ==> |base[n]| >= 1
    requires Inserted(rows, walk, base, after, node, top, ep, founds, ef, m, cap)
    requires Fresh(LayerOf(base, 0), node)
    ensures Linked(before) ==> Linked(after)
  {
    var starts, found := founds[1], founds[0];
    assert InsertedAt(rows, walk, base, after, node, 0, founds, ef, CapAt(0, m, cap));
    hide PrunedTo, Certified, Inserted;
    var g, h := LayerOf(base, 0), LayerOf(after, 0);
    var f := NodeScore(rows, FromRow(walk, rows[node]));
    var cs := WithScores(found, f);
    assert Nodes(cs) == found;
    SelectSizes(rows, walk, cs, cap);
    var selected := Select(rows, walk, cs, cap);
    assert selected[0] in Nodes(cs) && selected[0] in selected;
    assert h[node] == selected;
    forall x | 0 <= x < node
      ensures Linked(before) ==> |h[x]| >= 1
    {
      OldNodeStaysLinked(rows, walk, before, base, h, node, selected, cap, x);
    }
    assert forall n :: 0 <= n < |after| ==> after[n][0] == h[n];
  }

  lemma InsertedOneLower(rows: seq<nat>, walk: RowScore, before: Links, mid: Links, after: Links, node: nat,
                         lc: nat, top: nat, above: seq<seq<nat>>, found: seq<nat>, ef: nat, m: nat, mMax0: nat)
    requires |above| == top + 2 && lc <= top
    requires InsertedDownTo(rows, walk, before, mid, node, lc + 1, top, above, ef, m, mMax0)
    requires LayerOf(mid, lc) == LayerOf(before, lc)
    requires forall l: nat :: l != lc ==> LayerOf(after, l) == LayerOf(mid, l)
    requires LayerInserted(rows, walk, LayerOf(mid, lc), LayerOf(after, lc), node, above[lc + 1], found, ef,
                           CapAt(lc, m, mMax0))
    ensures InsertedDownTo(rows, walk, before, after, node, lc, top, above[lc := found], ef, m, mMax0)
  {
    var founds := above[lc := found];
    forall l: nat | lc <= l <= top
      ensures InsertedAt(rows, walk, before, after, node, l, founds, ef, CapAt(l, m, mMax0))
    {
      if l > lc {
        assert InsertedAt(rows, walk, before, mid, node, l, above, ef, CapAt(l, m, mMax0));
        InsertedAtFrame(rows, walk, before, mid, after, node, l, above, founds, ef, CapAt(l, m, mMax0));
      } else {
        InsertedAtNew(rows, walk, before, mid, after, node, lc, above, found, ef, CapAt(lc, m, mMax0));
      }
    }
  }

  lemma InsertedAtNew(rows: seq<nat>, walk: RowScore, before: Links, mid: Links, after: Links, node: nat,
                      lc: nat, above: seq<seq<nat>>, found: seq<nat>, ef: nat, cap: nat)
    requires lc + 1 < |above| && LayerOf(mid, lc) == LayerOf(before, lc)
    requires LayerInserted(rows, walk, LayerOf(mid, lc), LayerOf(after, lc), node, above[lc + 1], found, ef, cap)
    ensures InsertedAt(rows, walk, before, after, node, lc, above[lc := found], ef, cap)
  {
  }

  lemma InsertedAtFrame(rows: seq<nat>, walk: RowScore, before: Links, mid: Links, after: Links, node: nat,
                        l: nat, above: seq<seq<nat>>, founds: seq<seq<nat>>, ef: nat, cap: nat)
    requires l + 1 < |above| == |founds| && above[l] == founds[l] && above[l + 1] == founds[l + 1]
    requires LayerOf(after, l) == LayerOf(mid, l)
    requires InsertedAt(rows, walk, before, mid, node, l, above, ef, cap)
    ensures InsertedAt(rows, walk, before, after, node, l, founds, ef, cap)
  {
  }

  lemma TakeMore<T>(xs: seq<T>, i: nat)
    requires i < |xs|
    ensures xs[..i + 1] == xs[..i] + [xs[i]]
  {
  }

  lemma TakeMoreAfter<T>(prefix: seq<T>, xs: seq<T>, i: nat)
    requires i < |xs|
    ensures prefix + xs[..i] + [xs[i]] == prefix + xs[..i + 1]
  {
  }

  /** A descent never ends on a worse node than it began. */
  lemma {:induction false} DescentImproves(rows: seq<nat>, links: Links, score: nat -> real,
                                           from: nat, maxLevel: nat, level: nat, ep: nat)
    requires DescendedThrough(rows, links, score, from, maxLevel, level, ep)
    ensures NodeScore(rows, score)(ep) >= NodeScore(rows, score)(from)
    decreases maxLevel - level
  {
    if level <= maxLevel {
      var prev: nat :| && Hopped(links, level, NodeScore(rows, score), prev, ep)
                       && DescendedThrough(rows, links, score, from, maxLevel, level + 1, prev);
      DescentImproves(rows, links, score, from, maxLevel, level + 1, prev);
    }
  }

  lemma DescendedOneLower(rows: seq<nat>, links: Links, score: nat -> real,
                          from: nat, maxLevel: nat, level: nat, ep: nat, hop: nat)
    requires 1 <= level <= maxLevel && DescendedTo(rows, links, score, from, maxLevel, level, ep)
    requires Hopped(links, level, NodeScore(rows, score), ep, hop)
    ensures DescendedTo(rows, links, score, from, maxLevel, level - 1, hop)
  {
  }

  lemma PairCapped(mid: Links, after: Links, node: nat, nbr: nat, level: nat, m: nat, mMax0: nat)
    requires HasLevel(mid, node, level) && HasLevel(mid, nbr, level) && HasLevel(after, nbr, level)
    requires after == SetList(SetList(mid, node, level, mid[node][level] + [nbr]), nbr, level, after[nbr][level])
    requires |mid[node][level]| + 1 <= CapAt(level, m, mMax0) && |after[nbr][level]| <= CapAt(level, m, mMax0)
    ensures Capped(mid, m, mMax0) ==> Capped(after, m, mMax0)
  {
  }

  lemma SetListTwice(links: Links, n: nat, level: nat, first: seq<nat>, second: seq<nat>)
    requires HasLevel(links, n, level)
    ensures SetList(SetList(links, n, level, first), n, level, second) == SetList(links, n, level, second)
  {
    assert links[n][level := first][level := second] == links[n][level := second];
  }

  lemma PairLinked(rows: seq<nat>, walk: RowScore, before: Links, mid: Links, after: Links,
                   node: nat, done: seq<nat>, nbr: nat, level: nat, cap: nat)
    requires HasLevel(mid, node, level) && HasLevel(mid, nbr, level) && node != nbr && nbr !in done
    requires SameShape(before, mid) && SameShape(mid, after)
    requires LayerLinked(rows, walk, LayerOf(before, level), LayerOf(mid, level), node, done, cap)
    requires after == SetList(SetList(mid, node, level, mid[node][level] + [nbr]), nbr, level, after[nbr][level])
    requires PrunedTo(rows, walk, nbr, mid[nbr][level] + [node], cap, after[nbr][level])
    ensures LayerLinked(rows, walk, LayerOf(before, level), LayerOf(after, level), node, done + [nbr], cap)
    ensures forall l: nat :: l != level ==> LayerOf(after, l) == LayerOf(mid, l)
  {
    hide PrunedTo, Sound;
    var g, h := LayerOf(mid, level), LayerOf(after, level);
    assert forall x :: 0 <= x < |h| && x != node && x != nbr ==> h[x] == g[x];
    assert h[node] == g[node] + [nbr];
    assert g[nbr] == LayerOf(before, level)[nbr];
    forall l: nat | l != level
      ensures LayerOf(after, l) == LayerOf(mid, l)
    {
      assert forall x :: 0 <= x < |after| ==> LayerOf(after, l)[x] == LayerOf(mid, l)[x];
    }
  }

  // ---------- The history of a batch ----------

  /** The graph between two insertions. */
  datatype Snap = Snap(rows: seq<nat>, links: Links, entry: Option<nat>, top: nat)

  /** One row added at `level`: the first alone, any other linked under `walk` from the entry; a row above the top
      becomes the entry. */
  ghost predicate RowAdded(walk: RowScore, before: Snap, after: Snap, row: nat, level: nat, ef: nat, m: nat, mMax0: nat) {
    && after.rows == before.rows + [row]
    && match before.entry
       case None => after.links == Appended([], level) && after.entry == Some(0) && after.top == level
       case Some(from) =>
         && after.top == (if level > before.top then level else before.top)
         && after.entry == (if level > before.top then Some(|before.rows|) else Some(from))
         && exists founds, ep ::
              RowLinked(before.rows, walk, before.links, row, from, before.top, level, ef, m, mMax0,
                        after.links, founds, ep)
  }

  ghost predicate AddedAt(walk: RowScore, history: seq<Snap>, i: nat, row: nat, draw: nat, ef: nat, m: nat, mMax0: nat)
    requires i + 1 < |history|
  {
    RowAdded(walk, history[i], history[i + 1], row, if m > 1 then draw else 0, ef, m, mMax0)
  }

  /** A batch adds its rows in order, each at the level drawn for it; with `m` of one all stay on the bottom. */
  ghost predicate Grown(walk: RowScore, history: seq<Snap>, rows: seq<nat>, draws: seq<nat>, ef: nat, m: nat, mMax0: nat) {
    && |rows| == |draws| && |history| == |rows| + 1
    && forall i :: 0 <= i < |rows| ==> AddedAt(walk, history, i, rows[i], draws[i], ef, m, mMax0)
  }

  lemma GrownByOne(walk: RowScore, history: seq<Snap>, rows: seq<nat>, draws: seq<nat>, i: nat, next: Snap,
                   ef: nat, m: nat, mMax0: nat)
    requires i < |rows| == |draws| && |history| == i + 1
    requires Grown(walk, history, rows[..i], draws[..i], ef, m, mMax0)
    requires RowAdded(walk, history[i], next, rows[i], if m > 1 then draws[i] else 0, ef, m, mMax0)
    ensures Grown(walk, history + [next], rows[..i + 1], draws[..i + 1], ef, m, mMax0)
  {
    hide RowAdded;
    var more, rs, ds := history + [next], rows[..i + 1], draws[..i + 1];
    forall j | 0 <= j < i + 1
      ensures AddedAt(walk, more, j, rs[j], ds[j], ef, m, mMax0)
    {
      if j < i {
        assert AddedAt(walk, history, j, rows[..i][j], draws[..i][j], ef, m, mMax0);
      }
    }
  }

  lemma StaysLinkedOn(a: Links, b: Links, c: Links, m: nat, mMax0: nat)
    requires StaysLinked(a, b, m, mMax0) && StaysLinked(b, c, m, mMax0)
    ensures StaysLinked(a, c, m, mMax0)
  {
  }

  lemma FromNothing(before: Links, m: nat, mMax0: nat)
    ensures forall level :: Capped(Appended([], level), m, mMax0) && Linked(Appended([], level))
  {
  }

  lemma EmptyNavigable()
    ensures Navigable([], [], None, 0)
  {
  }

  /** From node `start` on, each has one list for every level up to the one drawn for it; one list with `m` of one. */
  ghost predicate LevelsDrawn(links: Links, start: nat, draws: seq<nat>, m: nat) {
    && |links| == start + |draws|
    && forall i :: 0 <= i < |draws| ==> HeightDrawn(links[start + i], draws[i], m)
  }

  ghost predicate HeightDrawn(lists: seq<seq<nat>>, draw: nat, m: nat) {
    |lists| == if m > 1 then draw + 1 else 1
  }

  /** After `k` rows the graph holds them in order, one list per level drawn; older nodes keep their levels. */
  lemma {:induction false} GrownRows(walk: RowScore, history: seq<Snap>, rows: seq<nat>, draws: seq<nat>,
                                     ef: nat, m: nat, mMax0: nat, k: nat)
    requires Grown(walk, history, rows, draws, ef, m, mMax0) && k <= |rows|
    requires |history[0].links| == |history[0].rows| && (history[0].entry.None? ==> history[0].rows == [])
    ensures |history| == |rows| + 1
    ensures history[k].rows == history[0].rows + rows[..k] && |history[k].links| == |history[0].rows| + k
    ensures history[k].entry.None? <==> history[0].entry.None? && k == 0
    ensures LevelsDrawn(history[k].links, |history[0].rows|, draws[..k], m)
    ensures forall n :: 0 <= n < |history[0].rows| ==> |history[k].links[n]| == |history[0].links[n]|
  {
    hide RowAdded, SameShape;
    if k > 0 {
      GrownRows(walk, history, rows, draws, ef, m, mMax0, k - 1);
      assert AddedAt(walk, history, k - 1, rows[k - 1], draws[k - 1], ef, m, mMax0);
      assert rows[..k] == rows[..k - 1] + [rows[k - 1]] && draws[..k] == draws[..k - 1] + [draws[k - 1]];
      var before, after, row, draw, drawn := history[k - 1], history[k], rows[k - 1], draws[k - 1], draws[..k - 1];
      AddedShape(walk, before, after, row, if m > 1 then draw else 0, ef, m, mMax0);
      OneMoreDrawn(before.links, after.links, |history[0].rows|, drawn, draw, m);
    } else {
      assert draws[..0] == [] && rows[..0] == [];
    }
  }

  lemma AddedShape(walk: RowScore, before: Snap, after: Snap, row: nat, level: nat, ef: nat, m: nat, mMax0: nat)
    requires RowAdded(walk, before, after, row, level, ef, m, mMax0)
    requires before.entry.None? ==> before.links == []
    ensures SameShape(Appended(before.links, level), after.links) && |after.links| == |before.links| + 1
    ensures after.rows == before.rows + [row] && after.entry.Some?
  {
    hide Inserted, DescendedTo;
  }

  lemma OneMoreDrawn(before: Links, after: Links, start: nat, draws: seq<nat>, draw: nat, m: nat)
    requires LevelsDrawn(before, start, draws, m) && SameShape(Appended(before, if m > 1 then draw else 0), after)
    ensures LevelsDrawn(after, start, draws + [draw], m)
    ensures forall n :: 0 <= n < |before| ==> |after[n]| == |before[n]|
  {
    var grown, more := Appended(before, if m > 1 then draw else 0), draws + [draw];
    assert forall n :: 0 <= n < |before| ==> grown[n] == before[n];
    forall i | 0 <= i < |more|
      ensures HeightDrawn(after[start + i], more[i], m)
    {
      assert |after[start + i]| == |grown[start + i]|;
      if i < |draws| {
        assert grown[start + i] == before[start + i] && HeightDrawn(before[start + i], draws[i], m);
      } else {
        assert |grown[|before|]| == (if m > 1 then draw else 0) + 1 && start + i == |before|;
      }
    }
  }

  /** The top is the highest level drawn, or the old top if that is higher. */
  lemma {:induction false} GrownTop(walk: RowScore, history: seq<Snap>, rows: seq<nat>, draws: seq<nat>,
                                    ef: nat, m: nat, mMax0: nat, k: nat)
    requires Grown(walk, history, rows, draws, ef, m, mMax0) && k <= |rows|
    ensures |history| == |rows| + 1
    ensures history[k].entry.None? <==> history[0].entry.None? && k == 0
    ensures k == 0 || (m <= 1 && history[0].entry.Some?) ==> history[k].top == history[0].top
    ensures k > 0 && m <= 1 && history[0].entry.None? ==> history[k].top == 0
    ensures history[0].entry.Some? ==> history[0].top <= history[k].top
    ensures k > 0 && m > 1 ==> history[k].top in draws[..k] || (history[0].entry.Some? && history[k].top == history[0].top)
    ensures m > 1 ==> forall i :: 0 <= i < k ==> draws[i] <= history[k].top
  {
    hide RowLinked;
    if k > 0 {
      GrownTop(walk, history, rows, draws, ef, m, mMax0, k - 1);
      assert AddedAt(walk, history, k - 1, rows[k - 1], draws[k - 1], ef, m, mMax0);
      assert draws[..k] == draws[..k - 1] + [draws[k - 1]];
    }
  }

  /** Where a new row is linked, by `walk` alone: its descent ends where no neighbour is nearer, each level's
      search leaves out only what is no nearer than all it kept, and the row's list, as long as the cap allows,
      starts with the nearest found. */
  lemma NewNodeLinksNearest(rows: seq<nat>, walk: RowScore, before: Links, row: nat, from: nat, maxLevel: nat,
                            level: nat, ef: nat, m: nat, mMax0: nat, after: Links, founds: seq<seq<nat>>, ep: nat, l: nat)
    requires RowLinked(rows, walk, before, row, from, maxLevel, level, ef, m, mMax0, after, founds, ep)
    requires |before| == |rows| && Sound(before) && m >= 1 && mMax0 >= 1 && l <= level && l <= maxLevel
    ensures level < maxLevel ==> ep < |rows|
    ensures level < maxLevel ==>
      forall y :: y in LayerOf(before, level + 1)[ep] ==> y < |rows| && walk(row, rows[y]) <= walk(row, rows[ep])
    ensures var adj, found := after[|rows|][l], founds[l];
      && found != [] && |adj| == (if l == 0 then Min(mMax0, |found|) else Min(m, |found|))
      && adj[0] == found[0] && found[0] < |rows|
      && forall x :: x in found ==> x < |rows| && walk(row, rows[x]) <= walk(row, rows[found[0]])
  {
    var all, node := rows + [row], |rows|;
    var base := Appended(before, level);
    var f := NodeScore(all, FromRow(walk, row));
    assert InsertedAt(all, walk, base, after, node, l, founds, ef, CapAt(l, m, mMax0));
    var g, found := LayerOf(base, l), founds[l];
    var cs := WithScores(found, f);
    CertifiedInRange(g, founds[l + 1], ef, f, found);
    assert Nodes(cs) == found;
    SelectSizes(all, walk, cs, CapAt(l, m, mMax0));
    FirstIsKept(all, walk, cs, CapAt(l, m, mMax0));
    FoundBelow(found, f, node);
    forall x | x in found
      ensures walk(row, rows[x]) <= walk(row, rows[found[0]])
    {
      assert f(x) <= f(found[0]);
    }
    if level < maxLevel {
      DescentEndsNearest(rows, walk, before, row, from, maxLevel, level, ep);
    }
  }

  lemma FoundBelow(found: seq<nat>, f: nat -> real, n: nat)
    requires NodesBelow(WithScores(found, f), n)
    ensures forall x :: x in found ==> x < n
  {
    forall x | x in found
      ensures x < n
    {
      var i :| 0 <= i < |found| && found[i] == x;
      assert WithScores(found, f)[i] in WithScores(found, f);
    }
  }

  lemma DescentEndsNearest(rows: seq<nat>, walk: RowScore, links: Links, row: nat, from: nat, maxLevel: nat,
                           stop: nat, ep: nat)
    requires DescendedTo(rows, links, FromRow(walk, row), from, maxLevel, stop, ep) && stop < maxLevel
    requires |links| == |rows| && Sound(links)
    ensures ep < |rows|
    ensures forall y :: y in LayerOf(links, stop + 1)[ep] ==> y < |rows| && walk(row, rows[y]) <= walk(row, rows[ep])
  {
    var g, f := LayerOf(links, stop + 1), NodeScore(rows, FromRow(walk, row));
    assert LocallyBest(g, f, ep);
    SoundLayerInRange(links, stop + 1);
    forall y | y in g[ep]
      ensures y < |rows| && walk(row, rows[y]) <= walk(row, rows[ep])
    {
      assert f(y) <= f(ep);
    }
  }

  class HnswGraph {
    const dim: nat
    const m: nat
    const mMax0: nat
    const efConstruction: nat
    var efSearch: nat
    var rows: seq<nat>
    var links: Links
    var entry: Option<nat>
    var maxLevel: nat

    ghost predicate Valid()
      reads this
    {
      && 1 <= m && mMax0 == Max(SaturatingDouble(m), 1) && efConstruction >= 1 && efSearch >= 1
      && Navigable(rows, links, entry, maxLevel)
    }

    constructor (dim: nat, m: nat, efConstruction: nat, efSearch: nat)
      ensures Valid() && rows == [] && links == [] && entry == None && maxLevel == 0
      ensures this.dim == dim && this.m == (if m == 0 then 1 else m)
      ensures this.mMax0 == if this.m < 0x8000_0000_0000_0000 then 2 * this.m else 0xFFFF_FFFF_FFFF_FFFF
      ensures this.efConstruction == (if efConstruction == 0 then 1 else efConstruction)
      ensures this.efSearch == if efSearch == 0 then 1 else efSearch
    {
      this.dim := dim;
      this.m := Max(m, 1);
      this.mMax0 := Max(SaturatingDouble(Max(m, 1)), 1);
      this.efConstruction := Max(efConstruction, 1);
      this.efSearch := Max(efSearch, 1);
      rows, links, entry, maxLevel := [], [], None, 0;
    }

    /** Adopts decoded state as it is; the graph is valid exactly when that state was. */
    constructor FromParts(dim: nat, m: nat, efConstruction: nat, efSearch: nat,
                          rows: seq<nat>, links: Links, entry: Option<nat>, maxLevel: nat)
      ensures this.rows == rows && this.links == links && this.entry == entry && this.maxLevel == maxLevel
      ensures this.dim == dim && this.m == (if m == 0 then 1 else m)
      ensures this.mMax0 == if this.m < 0x8000_0000_0000_0000 then 2 * this.m else 0xFFFF_FFFF_FFFF_FFFF
      ensures this.efConstruction == (if efConstruction == 0 then 1 else efConstruction)
      ensures this.efSearch == if efSearch == 0 then 1 else efSearch
      ensures Valid() <==> Navigable(rows, links, entry, maxLevel)
    {
      this.dim := dim;
      this.m := Max(m, 1);
      this.mMax0 := Max(SaturatingDouble(Max(m, 1)), 1);
      this.efConstruction := Max(efConstruction, 1);
      this.efSearch := Max(efSearch, 1);
      this.rows, this.links, this.entry, this.maxLevel := rows, links, entry, maxLevel;
    }

    method SetQueryParams(ef: nat)
      requires Valid()
      modifies this`efSearch
      ensures Valid() && efSearch == if ef == 0 then 1 else ef
    {
      efSearch := Max(ef, 1);
    }

    /** A configured `m` of one degenerates to a single layer. */
    function LevelFor(draw: nat): (level: nat)
      ensures m > 1 ==> level == draw
      ensures m == 1 ==> level == 0
    {
      if m == 1 then 0 else draw
    }

    ghost function Now(): Snap
      reads this
    {
      Snap(rows, links, entry, maxLevel)
    }

    /** The first node becomes the entry point. */
    method InsertFirst(row: nat, level: nat)
      requires Valid() && entry.None?
      modifies this`rows, this`links, this`entry, this`maxLevel
      ensures Valid() && rows == [row] && links == Appended([], level)
      ensures entry == Some(0) && maxLevel == level && Capped(links, m, mMax0)
    {
      AppendSound([], level);
      rows, links, entry, maxLevel := [row], Appended([], level), Some(0), level;
    }

    /** Every later node is linked, then becomes the entry point if it rises above the top. */
    method InsertNext(walk: RowScore, row: nat, from: nat, level: nat)
      returns (ghost founds: seq<seq<nat>>, ghost ep: nat)
      requires Valid() && entry == Some(from)
      modifies this`rows, this`links, this`entry, this`maxLevel
      ensures Valid() && rows == old(rows) + [row]
      ensures maxLevel == Max(level, old(maxLevel))
      ensures entry == if level > old(maxLevel) then Some(|old(rows)|) else Some(from)
      ensures RowLinked(old(rows), walk, old(links), row, from, old(maxLevel), level, efConstruction, m, mMax0,
                        links, founds, ep)
      ensures StaysLinked(old(links), links, m, mMax0)
    {
      hide RowLinked, StaysLinked, Navigable;
      var linked;
      linked, founds, ep := InsertBelow(rows, walk, links, row, from, maxLevel, level, efConstruction, m, mMax0);
      entry := if level > maxLevel then Some(|rows|) else entry;
      rows, links, maxLevel := rows + [row], linked, Max(level, maxLevel);
    }

    /** Inserts one row at the drawn level. */
    method InsertOne(walk: RowScore, row: nat, draw: nat)
      requires Valid()
      modifies this`rows, this`links, this`entry, this`maxLevel
      ensures Valid()
      ensures RowAdded(walk, old(Now()), Now(), row, if m > 1 then draw else 0, efConstruction, m, mMax0)
      ensures StaysLinked(old(links), links, m, mMax0)
    {
      hide RowLinked, Capped, Linked;
      if entry.None? {
        FromNothing(links, m, mMax0);
        InsertFirst(row, LevelFor(draw));
      } else {
        ghost var founds, ep;
        founds, ep := InsertNext(walk, row, entry.value, LevelFor(draw));
      }
    }

    /** A batch, one row at a time: `history` holds the graph before the first row and after each. */
    method InsertRows(walk: RowScore, newRows: seq<nat>, draws: seq<nat>) returns (ghost history: seq<Snap>)
      requires Valid() && |draws| == |newRows|
      modifies this`rows, this`links, this`entry, this`maxLevel
      ensures Valid()
      ensures dim == 0 ==> history == [old(Now())]
      ensures dim > 0 ==> Grown(walk, history, newRows, draws, efConstruction, m, mMax0)
      ensures |history| > 0 && history[0] == old(Now()) && history[|history| - 1] == Now()
      ensures dim > 0 ==> rows == old(rows) + newRows && LevelsDrawn(links, |old(rows)|, draws, m)
      ensures dim > 0 && m > 1 ==> forall d :: d in draws ==> d <= maxLevel
      ensures dim > 0 && m > 1 && draws != [] ==> maxLevel in draws || (old(entry).Some? && maxLevel == old(maxLevel))
      ensures dim == 0 || m == 1 ==> maxLevel == if old(entry).None? && dim > 0 && draws != [] then 0 else old(maxLevel)
      ensures old(entry).Some? ==> old(maxLevel) <= maxLevel
      ensures StaysLinked(old(links), links, m, mMax0)
    {
      hide RowAdded, Capped, Linked, Sound, EntryOnTop;
      history := [Now()];
      if dim == 0 {
        return;
      }
      var i := 0;
      while i < |newRows|
        invariant 0 <= i <= |newRows|
        invariant Valid() && |history| == i + 1 && history[0] == old(Now()) && history[i] == Now()
        invariant Grown(walk, history, newRows[..i], draws[..i], efConstruction, m, mMax0)
        invariant StaysLinked(old(links), links, m, mMax0)
      {
        ghost var before := links;
        InsertOne(walk, newRows[i], draws[i]);
        GrownByOne(walk, history, newRows, draws, i, Now(), efConstruction, m, mMax0);
        StaysLinkedOn(old(links), before, links, m, mMax0);
        history := history + [Now()];
        i := i + 1;
      }
      assert newRows[..i] == newRows && draws[..i] == draws;
      GrownRows(walk, history, newRows, draws, efConstruction, m, mMax0, i);
      GrownTop(walk, history, newRows, draws, efConstruction, m, mMax0, i);
    }

    /** The serial build: whatever the graph held, it grows from nothing to a capped, linked graph of the rows.
        Each node has one list per level up to the one drawn for it, and the highest is the top. */
    method BuildSerial(walk: RowScore, liveRows: seq<nat>, draws: seq<nat>) returns (ghost history: seq<Snap>)
      requires Valid() && |draws| == |liveRows|
      modifies this`rows, this`links, this`entry, this`maxLevel
      ensures Valid() && rows == if dim == 0 then [] else liveRows
      ensures dim > 0 ==> Grown(walk, history, liveRows, draws, efConstruction, m, mMax0)
      ensures |history| > 0 && history[0] == Snap([], [], None, 0) && history[|history| - 1] == Now()
      ensures dim > 0 ==> LevelsDrawn(links, 0, draws, m)
      ensures dim > 0 && m > 1 && draws != [] ==> maxLevel in draws && forall d :: d in draws ==> d <= maxLevel
      ensures dim == 0 || m == 1 ==> maxLevel == 0
      ensures forall n, l :: 0 <= n < |links| && 0 <= l < |links[n]| ==> |links[n][l]| <= if l == 0 then mMax0 else m
      ensures |links| >= 2 ==> forall n :: 0 <= n < |links| ==> links[n][0] != []
    {
      hide Grown, Navigable, Sound;
      rows, links, entry, maxLevel := [], [], None, 0;
      EmptyNavigable();
      history := InsertRows(walk, liveRows, draws);
      assert Capped(links, m, mMax0) && Linked(links);
      forall n, l | 0 <= n < |links| && 0 <= l < |links[n]|
        ensures |links[n][l]| <= if l == 0 then mMax0 else m
      {
        assert |links[n][l]| <= CapAt(l, m, mMax0);
      }
    }

    /** Query: descend to the bottom level, search it with a beam of `max(efSearch, nCandidates)`
        and return the best rows with their scores. `ep` is where the descent ended. */
    method Search(score: nat -> real, nCandidates: nat) returns (out: seq<(nat, real)>, ghost ep: nat, ghost nodes: seq<nat>)
      requires Valid()
      ensures nCandidates == 0 || dim == 0 || entry.None? ==> out == []
      ensures nCandidates > 0 && dim > 0 && entry.Some? ==>
        Answer(rows, links, score, entry.value, maxLevel, Max(efSearch, nCandidates), nCandidates, ep, nodes, out)
    {
      out, ep, nodes := [], 0, [];
      if nCandidates == 0 || dim == 0 || entry.None? {
        return;
      }
      var probe := Descend(rows, links, score, entry.value, maxLevel, 0);
      ep := probe;
      var ef := Max(efSearch, nCandidates);
      var found := SearchLayer(rows, links, score, [probe], ef, 0);
      nodes := found;
      BeamHits(LayerOf(links, 0), ep, ef, NodeScore(rows, score), found);
      out := Hits(rows, score, found[..Min(nCandidates, |found|)]);
    }
  }
}
