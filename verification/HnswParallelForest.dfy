/** With a beam of one an insertion makes one edge a level, so the edges of a level, pruned ones included, are
    a forest. In it no insertion ever meets itself, and so every node but the seed ends with a layer-0
    neighbour whatever the beam. */
module HnswParallelForest {
  import opened Counting
  import opened Neighbours
  import opened Graphs
  import opened HnswParallel
  import opened HnswParallelProof
  import opened HnswParallelResults
  import opened HnswParallelLinked
  import opened HnswParallelSeed

  // ---------- Forests ----------

  /** For each level and node, the root of its tree and the nodes on its way there, itself included. */
  datatype Forest = Forest(root: (nat, nat) -> nat, above: (nat, nat) -> set<nat>)

  const Seedlings: Forest := Forest((l: nat, x: nat) => x, (l: nat, x: nat) => {x})

  /** The tree of root `x` hung below `p`. */
  function Graft(f: Forest, level: nat, x: nat, p: nat): Forest {
    Forest((l: nat, y: nat) => GraftedRoot(f, level, x, p, l, y), (l: nat, y: nat) => GraftedAbove(f, level, x, p, l, y))
  }

  function GraftedRoot(f: Forest, level: nat, x: nat, p: nat, l: nat, y: nat): nat {
    if l == level && f.root(l, y) == x then f.root(l, p) else f.root(l, y)
  }

  function GraftedAbove(f: Forest, level: nat, x: nat, p: nat, l: nat, y: nat): set<nat> {
    if l == level && x in f.above(l, y) then f.above(l, y) + f.above(l, p) else f.above(l, y)
  }

  ghost predicate NodeOk(c: Build, f: Forest, l: nat, y: nat) {
    && y in f.above(l, y) && f.root(l, y) in f.above(l, y)
    && (forall a :: a in f.above(l, y) ==> f.root(l, a) == f.root(l, y) && f.above(l, a) <= f.above(l, y))
    && (c.On(y, l) ==> forall a :: a in f.above(l, y) ==> c.On(a, l))
  }

  ghost predicate ForestOk(c: Build, f: Forest) {
    forall l: nat, y: nat :: NodeOk(c, f, l, y)
  }

  lemma GraftNodeOk(c: Build, f: Forest, level: nat, x: nat, p: nat, l: nat, y: nat)
    requires ForestOk(c, f) && f.root(level, x) == x && f.root(level, p) != x && c.On(x, level) && c.On(p, level)
    ensures NodeOk(c, Graft(f, level, x, p), l, y)
  {
    assert NodeOk(c, f, l, y) && NodeOk(c, f, l, p) && NodeOk(c, f, l, x);
    var g := Graft(f, level, x, p);
    forall a | a in g.above(l, y)
      ensures g.root(l, a) == g.root(l, y) && g.above(l, a) <= g.above(l, y)
    {
      assert NodeOk(c, f, l, a);
    }
  }

  lemma GraftOk(c: Build, f: Forest, level: nat, x: nat, p: nat)
    requires ForestOk(c, f) && f.root(level, x) == x && f.root(level, p) != x && c.On(x, level) && c.On(p, level)
    ensures ForestOk(c, Graft(f, level, x, p))
  {
    forall l: nat, y: nat
      ensures NodeOk(c, Graft(f, level, x, p), l, y)
    {
      GraftNodeOk(c, f, level, x, p, l, y);
    }
  }

  // ---------- The forest of a run ----------

  /** Whether the insertion in phase `p` has yet to link on `level`. */
  predicate Free(p: Phase, level: nat) {
    match p
    case Pop(_, lc, _, _) => level <= lc
    case Fetch(_, lc, _, _, _) => level <= lc
    case Scan(_, lc, _, _, _) => level <= lc
    case Linking(_, lc, _, _, _, idx, stage) => level < lc || (level == lc && idx == 0 && !stage.Linked? && !stage.HoldLow?)
    case Start(_) => true
    case GreedyFetch(_, _, _) => true
    case GreedyScan(_, _, _, _, _) => true
    case _ => false
  }

  /** Whether node `x` may still link on `level`. */
  ghost predicate MayLink(s: State, x: nat, level: nat) {
    && x >= 1 && x !in s.finished
    && (x in s.claimedBy && s.claimedBy[x] < |s.workers| ==> Free(s.workers[s.claimedBy[x]], level))
  }

  /** Why `z`, where `x` starts on `level`, is in another tree there: `x` hangs below it one level up, or `x`
      is not up there and `z` is, or `z` is a root for good. */
  ghost predicate StartsAt(c: Build, s: State, f: Forest, x: nat, level: nat, z: nat) {
    && z != x && c.On(z, level)
    && (|| HangsBelow(c, f, x, level + 1, z)
        || (!c.On(x, level + 1) && c.On(z, level + 1))
        || (f.root(level, z) == z && (z == 0 || z in s.finished)))
  }

  ghost predicate HangsBelow(c: Build, f: Forest, x: nat, level: nat, z: nat) {
    c.On(x, level) && c.On(z, level) && z in f.above(level, x) && x !in f.above(level, z)
  }

  ghost predicate InTree(f: Forest, level: nat, xs: set<nat>, z: nat) {
    forall u :: u in xs ==> f.root(level, u) == f.root(level, z)
  }

  ghost predicate OwnAbove(f: Forest, x: nat, top: nat) {
    forall l: nat :: l > top ==> f.root(l, x) == x
  }

  /** A worker is in the tree it started in, or hangs below what it has just linked to. */
  ghost predicate Planted(c: Build, s: State, f: Forest, p: Phase) {
    && (p.Working() && !p.Start? ==> OwnAbove(f, p.job.node, p.job.top))
    && (p.Pop? || p.Fetch? || p.Scan? || p.Linking? ==> p.level <= p.job.top)
    && match p
       case Pop(job, level, _, h) => h.result != {} && exists z :: SearchesTree(c, s, f, job.node, level, z, h.seen)
       case Fetch(job, level, _, h, cand) =>
         h.result != {} && exists z :: SearchesTree(c, s, f, job.node, level, z, h.seen + {cand})
       case Scan(job, level, _, h, pending) =>
         h.result != {} && exists z :: SearchesTree(c, s, f, job.node, level, z, h.seen + Elements(pending))
       case Linking(job, level, _, found, selected, idx, stage) =>
         && |found| == 1 && found == selected
         && (if Free(p, level) then exists z :: SearchesTree(c, s, f, job.node, level, z, Elements(found))
             else found[0] != job.node && HangsBelow(c, f, job.node, level, found[0]))
       case _ => true
  }

  ghost predicate SearchesTree(c: Build, s: State, f: Forest, x: nat, level: nat, z: nat, met: set<nat>) {
    StartsAt(c, s, f, x, level, z) && InTree(f, level, met, z)
  }

  ghost predicate EdgesInTrees(links: Links, f: Forest) {
    forall x, l, y :: 0 <= x < |links| && 0 <= l < |links[x]| && y in links[x][l] ==> f.root(l, x) == f.root(l, y)
  }

  /** A node that may yet link is the root of its tree, and everything in that tree one level up hangs below it. */
  ghost predicate RootsOk(c: Build, s: State, f: Forest) {
    && (forall x: nat, l: nat :: MayLink(s, x, l) ==> f.root(l, x) == x)
    && forall x: nat, l: nat, y: nat :: MayLink(s, x, l) && c.On(y, l + 1) && f.root(l, y) == x ==> x in f.above(l + 1, y)
  }

  ghost predicate AllPlanted(c: Build, s: State, f: Forest) {
    forall w :: 0 <= w < |s.workers| ==> Planted(c, s, f, s.workers[w])
  }

  ghost predicate ForestInv(c: Build, s: State, f: Forest) {
    && ForestOk(c, f) && EdgesInTrees(s.links, f) && RootsOk(c, s, f) && AllPlanted(c, s, f)
    && (s.entry == 0 || s.entry in s.finished) && f.root(s.maxLevel, s.entry) == s.entry
  }

  /** An insertion starts in another tree than its own. */
  lemma StartsElsewhere(c: Build, s: State, f: Forest, x: nat, level: nat, z: nat)
    requires ForestOk(c, f) && RootsOk(c, s, f) && MayLink(s, x, level) && StartsAt(c, s, f, x, level, z)
    ensures f.root(level, z) != x && f.root(level, x) == x
  {
    assert NodeOk(c, f, level + 1, z);
  }

  // ---------- Steps that link nothing ----------

  lemma FreeShrinks(c: Build, s: State, s': State, w: nat, step: Step, level: nat)
    requires Takes(c, s, s', w, step) && !step.DoClaim? && Free(s'.workers[w], level)
    ensures Free(s.workers[w], level)
  {
    hide EdgeLinked, Exhausted, Offered;
  }

  /** Steps take levels away from what an insertion may link on. */
  lemma MayLinkShrinks(c: Build, s: State, s': State, w: nat, step: Step, x: nat, level: nat)
    requires Inv(c, s) && Inv(c, s') && Takes(c, s, s', w, step) && MayLink(s', x, level)
    ensures MayLink(s, x, level)
  {
    hide Takes, LinksOk, EntryOk, PhasesOk, LocksOk, DegreesOk, Free;
    StepFrame(c, s, s', w, step);
    ClaimsPersist(c, s, s', w, step);
    if x in s.claimedBy {
      if s.claimedBy[x] == w && !step.DoClaim? {
        FreeShrinks(c, s, s', w, step, level);
      } else if s.claimedBy[x] == w {
        ClaimerIsIdle(c, s, s', w);
      }
    }
  }

  lemma ClaimerIsIdle(c: Build, s: State, s': State, w: nat)
    requires Takes(c, s, s', w, DoClaim)
    ensures s.workers[w].Idle?
  {
  }

  lemma RootsKept(c: Build, s: State, s': State, w: nat, step: Step, f: Forest)
    requires Inv(c, s) && Inv(c, s') && Takes(c, s, s', w, step) && RootsOk(c, s, f)
    ensures RootsOk(c, s', f)
  {
    hide Inv, Takes, MayLink;
    forall x: nat, l: nat | MayLink(s', x, l)
      ensures MayLink(s, x, l)
    {
      MayLinkShrinks(c, s, s', w, step, x, l);
    }
  }

  lemma StartsLater(c: Build, s: State, s': State, f: Forest, x: nat, level: nat, z: nat, met: set<nat>, met': set<nat>)
    requires SearchesTree(c, s, f, x, level, z, met) && s.finished <= s'.finished && met' <= met
    ensures SearchesTree(c, s', f, x, level, z, met')
  {
  }

  lemma OthersPlanted(c: Build, s: State, s': State, f: Forest, p: Phase)
    requires Planted(c, s, f, p) && s.finished <= s'.finished
    ensures Planted(c, s', f, p)
  {
    hide HangsBelow, InTree, OwnAbove;
    match p
    case Pop(job, level, _, h) =>
      var z :| SearchesTree(c, s, f, job.node, level, z, h.seen);
      StartsLater(c, s, s', f, job.node, level, z, h.seen, h.seen);
    case Fetch(job, level, _, h, cand) =>
      var z :| SearchesTree(c, s, f, job.node, level, z, h.seen + {cand});
      StartsLater(c, s, s', f, job.node, level, z, h.seen + {cand}, h.seen + {cand});
    case Scan(job, level, _, h, pending) =>
      var z :| SearchesTree(c, s, f, job.node, level, z, h.seen + Elements(pending));
      StartsLater(c, s, s', f, job.node, level, z, h.seen + Elements(pending), h.seen + Elements(pending));
    case Linking(job, level, _, found, _, _, _) =>
      if Free(p, level) {
        var z :| SearchesTree(c, s, f, job.node, level, z, Elements(found));
        StartsLater(c, s, s', f, job.node, level, z, Elements(found), Elements(found));
      }
    case _ =>
  }

  lemma StartPlanted(c: Build, s: State, s': State, w: nat, step: Step, f: Forest)
    requires Inv(c, s) && ForestInv(c, s, f) && Takes(c, s, s', w, step) && Starts(step)
    ensures Planted(c, s, f, s'.workers[w])
  {
    hide LinksOk, LocksOk, DegreesOk, ForestOk, EdgesInTrees;
    var p := s.workers[w];
    assert PhaseOk(c, s.counter, s.maxLevel, p) && Planted(c, s, f, p);
    if step.DoReadEntry? {
      var x, top := p.node, s.maxLevel;
      forall l: nat
        ensures f.root(l, x) == x
      {
        assert MayLink(s, x, l);
      }
      assert Elements([s.entry]) == {s.entry};
      assert StartsAt(c, s, f, x, top, s.entry) && InTree(f, top, {s.entry}, s.entry);
      assert SearchesTree(c, s, f, x, top, s.entry, {s.entry});
    } else if step.DoGreedyScore? && p.pending == [] && !p.improved && p.level == c.heights[p.job.node] {
      assert Elements([p.cur]) == {p.cur};
      assert StartsAt(c, s, f, p.job.node, p.level - 1, p.cur) && InTree(f, p.level - 1, {p.cur}, p.cur);
      assert SearchesTree(c, s, f, p.job.node, p.level - 1, p.cur, {p.cur});
    }
  }

  lemma OfferedStays(h: Heaps, h': Heaps, ef: nat, f: nat -> real, nbr: nat, dropped: nat)
    requires Offered(h, h', ef, f, nbr, dropped) && h.result != {} && ef >= 1
    ensures h'.result != {} && h'.seen == h.seen + {nbr}
  {
    if |h.result + {nbr}| > ef && h'.result == h.result + {nbr} - {dropped} {
      assert |h'.result| == |h.result + {nbr}| - 1 || h'.result == h.result + {nbr};
    }
  }

  lemma SearchPlanted(c: Build, s: State, s': State, w: nat, step: Step, f: Forest)
    requires Inv(c, s) && ForestInv(c, s, f) && Takes(c, s, s', w, step)
    requires step.DoPopBest? || step.DoCopyList? || step.DoScoreNext?
    ensures Planted(c, s, f, s'.workers[w])
  {
    hide LinksOk, LocksOk, DegreesOk, ClaimsOk, ForestOk, StartsAt, Exhausted, Offered, OwnAbove, RootsOk;
    var p := s.workers[w];
    assert PhaseOk(c, s.counter, s.maxLevel, p) && Planted(c, s, f, p);
    if step.DoPopBest? {
      var z :| SearchesTree(c, s, f, p.job.node, p.level, z, p.heaps.seen);
      assert SearchesTree(c, s, f, p.job.node, p.level, z, p.heaps.seen + {step.cand});
    } else if step.DoCopyList? {
      var z :| SearchesTree(c, s, f, p.job.node, p.level, z, p.heaps.seen + {p.cand});
      var list := LayerOf(s.links, p.level)[p.cand];
      assert InTree(f, p.level, p.heaps.seen + Elements(list), z) by {
        assert f.root(p.level, p.cand) == f.root(p.level, z);
      }
      assert SearchesTree(c, s, f, p.job.node, p.level, z, p.heaps.seen + Elements(list));
    } else {
      var z :| SearchesTree(c, s, f, p.job.node, p.level, z, p.heaps.seen + Elements(p.pending));
      if p.pending == [] {
        StartsLater(c, s, s, f, p.job.node, p.level, z, p.heaps.seen + Elements(p.pending), p.heaps.seen);
      } else {
        OfferedStays(p.heaps, step.h, c.ef, c.Score(p.job.node), p.pending[0], step.dropped);
        StartsLater(c, s, s, f, p.job.node, p.level, z, p.heaps.seen + Elements(p.pending), step.h.seen + Elements(p.pending[1..]));
      }
    }
  }

  lemma FinishPlanted(c: Build, s: State, s': State, w: nat, step: Step, f: Forest)
    requires Inv(c, s) && ForestInv(c, s, f) && Takes(c, s, s', w, step) && step.DoFinishSearch?
    requires c.ef == 1 && AllSlim(c, s)
    ensures Planted(c, s, f, s'.workers[w])
  {
    hide LinksOk, LocksOk, DegreesOk, ClaimsOk, ForestOk, StartsAt, Exhausted, OwnAbove, RootsOk;
    var p := s.workers[w];
    assert PhaseOk(c, s.counter, s.maxLevel, p) && Planted(c, s, f, p) && Slim(c, p);
    var z :| SearchesTree(c, s, f, p.job.node, p.level, z, p.heaps.seen);
    StartsLater(c, s, s, f, p.job.node, p.level, z, p.heaps.seen, p.heaps.result);
    OneSelected(c, step.found, c.Score(p.job.node), p.level);
  }

  lemma OneSelected(c: Build, found: seq<nat>, f: nat -> real, level: nat)
    requires c.Valid() && Distinct(found) && 1 <= |Elements(found)| <= 1 && NodesBelow(WithScores(found, f), |c.rows|)
    ensures |found| == 1 && Select(c.rows, c.walk, WithScores(found, f), c.Cap(level)) == found
  {
    DistinctSize(found);
    var cs := WithScores(found, f);
    assert Nodes(cs) == found;
    SelectSizes(c.rows, c.walk, cs, c.Cap(level));
    var sel := Select(c.rows, c.walk, cs, c.Cap(level));
    assert sel[0] in sel;
  }

  /** What a one-node beam found is not the inserting node. */
  lemma FoundElsewhere(c: Build, s: State, f: Forest, w: nat)
    requires Inv(c, s) && ForestInv(c, s, f) && w < |s.workers| && s.workers[w].Linking? && Free(s.workers[w], s.workers[w].level)
    ensures var p := s.workers[w];
      && |p.found| == 1 && p.found == p.selected && p.found[0] != p.job.node && f.root(p.level, p.job.node) == p.job.node
      && f.root(p.level, p.found[0]) != p.job.node
      && exists z :: StartsAt(c, s, f, p.job.node, p.level, z) && f.root(p.level, p.found[0]) == f.root(p.level, z) != p.job.node
  {
    hide LinksOk, LocksOk, DegreesOk, EntryOk, ForestOk, RootsOk, StartsAt;
    var p := s.workers[w];
    assert Planted(c, s, f, p);
    var z :| SearchesTree(c, s, f, p.job.node, p.level, z, Elements(p.found));
    InsertsNotSeed(c, s, w);
    assert MayLink(s, p.job.node, p.level);
    StartsElsewhere(c, s, f, p.job.node, p.level, z);
    assert p.found[0] in Elements(p.found);
  }

  lemma EdgePlanted(c: Build, s: State, s': State, w: nat, step: Step, f: Forest)
    requires Inv(c, s) && ForestInv(c, s, f) && Takes(c, s, s', w, step) && Edges(step)
    ensures Planted(c, s, f, s'.workers[w])
  {
    hide LinksOk, LocksOk, DegreesOk, ClaimsOk, EntryOk, PhasesOk, ForestOk, RootsOk, StartsAt, InTree, HangsBelow, OwnAbove;
    assert Planted(c, s, f, s.workers[w]);
    if step.DoNextEdge? && Free(s.workers[w], s.workers[w].level) {
      FoundElsewhere(c, s, f, w);
    }
  }

  lemma LevelDonePlanted(c: Build, s: State, s': State, w: nat, f: Forest)
    requires Inv(c, s) && ForestInv(c, s, f) && Takes(c, s, s', w, DoLevelDone)
    ensures Planted(c, s, f, s'.workers[w])
  {
    hide LinksOk, LocksOk, DegreesOk, ClaimsOk, EntryOk, ForestOk, RootsOk, OwnAbove;
    var p := s.workers[w];
    assert Planted(c, s, f, p) && PhaseOk(c, s.counter, s.maxLevel, p);
    if p.level > 0 {
      var z := p.found[0];
      assert Elements(p.found) == {z};
      assert StartsAt(c, s, f, p.job.node, p.level - 1, z) && InTree(f, p.level - 1, {z}, z);
      assert SearchesTree(c, s, f, p.job.node, p.level - 1, z, {z});
    }
  }

  lemma EntryPlanted(c: Build, s: State, s': State, w: nat, step: Step, f: Forest)
    requires Inv(c, s) && ForestInv(c, s, f) && Takes(c, s, s', w, step) && (step.DoTakeEntry? || step.DoPromote?)
    ensures Planted(c, s, f, s'.workers[w])
  {
    hide LinksOk, LocksOk, DegreesOk, ClaimsOk, EntryOk, PhasesOk, ForestOk, RootsOk, OwnAbove;
    assert Planted(c, s, f, s.workers[w]);
  }

  lemma NewPlanted(c: Build, s: State, s': State, w: nat, step: Step, f: Forest)
    requires Inv(c, s) && ForestInv(c, s, f) && Takes(c, s, s', w, step) && !step.DoLinkAndPrune?
    requires c.ef == 1 && AllSlim(c, s)
    ensures Planted(c, s, f, s'.workers[w])
  {
    hide Takes, Inv, Planted, ForestInv, AllSlim;
    if Starts(step) {
      StartPlanted(c, s, s', w, step, f);
    } else if Edges(step) {
      EdgePlanted(c, s, s', w, step, f);
    } else {
      match step
      case DoFinishSearch(_) => FinishPlanted(c, s, s', w, step, f);
      case DoLevelDone => LevelDonePlanted(c, s, s', w, f);
      case DoTakeEntry => EntryPlanted(c, s, s', w, step, f);
      case DoPromote => EntryPlanted(c, s, s', w, step, f);
      case _ => SearchPlanted(c, s, s', w, step, f);
    }
  }

  lemma EntryRooted(c: Build, s: State, s': State, w: nat, step: Step, f: Forest)
    requires Inv(c, s) && ForestInv(c, s, f) && Takes(c, s, s', w, step)
    ensures (s'.entry == 0 || s'.entry in s'.finished) && f.root(s'.maxLevel, s'.entry) == s'.entry
  {
    hide LinksOk, LocksOk, DegreesOk, ClaimsOk, EntryOk, ForestOk, RootsOk, EdgeLinked, Exhausted, Offered;
    assert Planted(c, s, f, s.workers[w]) && PhaseOk(c, s.counter, s.maxLevel, s.workers[w]);
  }

  lemma PlainStepKeepsForest(c: Build, s: State, s': State, w: nat, step: Step, f: Forest)
    requires Inv(c, s) && Inv(c, s') && ForestInv(c, s, f) && Takes(c, s, s', w, step) && !step.DoLinkAndPrune?
    requires c.ef == 1 && AllSlim(c, s)
    ensures ForestInv(c, s', f)
  {
    hide Takes, Inv, Planted, RootsOk, ForestOk, EdgesInTrees, AllSlim;
    StepFrame(c, s, s', w, step);
    InvHasClaims(c, s);
    ClaimsPersist(c, s, s', w, step);
    EntryRooted(c, s, s', w, step, f);
    RootsKept(c, s, s', w, step, f);
    NewPlanted(c, s, s', w, step, f);
    forall v | 0 <= v < |s'.workers|
      ensures Planted(c, s', f, s'.workers[v])
    {
      OthersPlanted(c, s, s', f, s'.workers[v]);
    }
  }

  lemma InvHasClaims(c: Build, s: State)
    requires Inv(c, s)
    ensures ClaimsOk(c, s) && c.Valid()
  {
    hide LinksOk, EntryOk, PhasesOk, LocksOk, ClaimsOk, DegreesOk;
  }

  // ---------- The step that links ----------

  lemma GraftedEdges(c: Build, before: Links, after: Links, f: Forest, x: nat, q: nat, level: nat, kept: seq<nat>)
    requires c.Valid() && LinksOk(c, before) && x != q && c.On(x, level) && c.On(q, level)
    requires EdgeLinked(c, before, after, x, q, level, kept) && EdgesInTrees(before, f)
    requires f.root(level, x) == x && f.root(level, q) != x
    ensures EdgesInTrees(after, Graft(f, level, x, q))
  {
    EdgeKeepsLinks(c, before, after, x, q, level, kept);
    EdgeNames(c, before, after, x, q, level, kept);
    var g := Graft(f, level, x, q);
    forall a, l, y | 0 <= a < |after| && 0 <= l < |after[a]| && y in after[a][l]
      ensures g.root(l, a) == g.root(l, y)
    {
      if y in before[a][l] {
        assert f.root(l, a) == f.root(l, y);
      }
    }
  }

  lemma GraftedHanging(c: Build, f: Forest, level: nat, x: nat, q: nat, y: nat, lv: nat, z: nat)
    requires ForestOk(c, f) && f.root(level, x) == x && f.root(level, q) != x && HangsBelow(c, f, y, lv, z)
    ensures HangsBelow(c, Graft(f, level, x, q), y, lv, z)
  {
    assert NodeOk(c, f, lv, z) && NodeOk(c, f, lv, y) && NodeOk(c, f, lv, q);
  }

  lemma GraftedSearch(c: Build, s: State, f: Forest, level: nat, x: nat, q: nat, y: nat, lv: nat, z: nat, met: set<nat>)
    requires ForestOk(c, f) && f.root(level, x) == x && f.root(level, q) != x && x >= 1 && x !in s.finished
    requires SearchesTree(c, s, f, y, lv, z, met)
    ensures SearchesTree(c, s, Graft(f, level, x, q), y, lv, z, met)
  {
    hide HangsBelow;
    if HangsBelow(c, f, y, lv + 1, z) {
      GraftedHanging(c, f, level, x, q, y, lv + 1, z);
    }
  }

  lemma GraftedPlanted(c: Build, s: State, f: Forest, level: nat, x: nat, q: nat, p: Phase)
    requires ForestOk(c, f) && f.root(level, x) == x && f.root(level, q) != x && x >= 1 && x !in s.finished
    requires Planted(c, s, f, p) && (p.Working() ==> p.Node() != x)
    ensures Planted(c, s, Graft(f, level, x, q), p)
  {
    hide ForestOk, HangsBelow, SearchesTree;
    var g := Graft(f, level, x, q);
    match p
    case Pop(job, lv, _, h) =>
      var z :| SearchesTree(c, s, f, job.node, lv, z, h.seen);
      GraftedSearch(c, s, f, level, x, q, job.node, lv, z, h.seen);
    case Fetch(job, lv, _, h, cand) =>
      var z :| SearchesTree(c, s, f, job.node, lv, z, h.seen + {cand});
      GraftedSearch(c, s, f, level, x, q, job.node, lv, z, h.seen + {cand});
    case Scan(job, lv, _, h, pending) =>
      var z :| SearchesTree(c, s, f, job.node, lv, z, h.seen + Elements(pending));
      GraftedSearch(c, s, f, level, x, q, job.node, lv, z, h.seen + Elements(pending));
    case Linking(job, lv, _, found, _, _, _) =>
      if Free(p, lv) {
        var z :| SearchesTree(c, s, f, job.node, lv, z, Elements(found));
        GraftedSearch(c, s, f, level, x, q, job.node, lv, z, Elements(found));
      } else {
        GraftedHanging(c, f, level, x, q, job.node, lv, found[0]);
      }
    case _ =>
  }

  lemma GraftedRoots(c: Build, s: State, s': State, f: Forest, level: nat, x: nat, q: nat, z: nat)
    requires ForestOk(c, f) && RootsOk(c, s, f) && MayLink(s, x, level) && f.root(level, q) == f.root(level, z) != x
    requires StartsAt(c, s, f, x, level, z) && !MayLink(s', x, level)
    requires forall y: nat, l: nat :: MayLink(s', y, l) ==> MayLink(s, y, l)
    ensures RootsOk(c, s', Graft(f, level, x, q))
  {
    var g := Graft(f, level, x, q);
    forall x2: nat, l: nat, y: nat | MayLink(s', x2, l) && c.On(y, l + 1) && g.root(l, y) == x2
      ensures x2 in g.above(l + 1, y)
    {
      if l == level && f.root(l, y) == x {
        GraftedRoot1(c, s, f, level, x, z, y, x2);
      }
    }
  }

  lemma GraftedRoot1(c: Build, s: State, f: Forest, level: nat, x: nat, z: nat, y: nat, x2: nat)
    requires ForestOk(c, f) && RootsOk(c, s, f) && MayLink(s, x, level) && MayLink(s, x2, level) && x2 != x
    requires StartsAt(c, s, f, x, level, z) && f.root(level, z) == x2
    requires c.On(y, level + 1) && f.root(level, y) == x
    ensures x2 in f.above(level + 1, y)
  {
    assert x in f.above(level + 1, y);
    assert NodeOk(c, f, level + 1, y) && NodeOk(c, f, level + 1, x);
  }

  lemma LinkKeepsForest(c: Build, s: State, s': State, w: nat, step: Step, f: Forest) returns (g: Forest)
    requires Inv(c, s) && Inv(c, s') && ForestInv(c, s, f) && Takes(c, s, s', w, step) && step.DoLinkAndPrune?
    ensures ForestInv(c, s', g)
  {
    hide Inv, Takes, Planted, RootsOk, ForestOk, EdgesInTrees, EdgeLinked, StartsAt, MayLink, Free;
    StepFrame(c, s, s', w, step);
    LinkAt(c, s, s', w, step, f);
    var p := s.workers[w];
    var x, q, level := p.job.node, p.found[0], p.level;
    g := Graft(f, level, x, q);
    LinkEnds(c, s, w);
    GraftOk(c, f, level, x, q);
    InvHasLinks(c, s);
    GraftedEdges(c, s.links, s'.links, f, x, q, level, step.kept);
    var z :| StartsAt(c, s, f, x, level, z) && f.root(level, q) == f.root(level, z) != x;
    forall y: nat, l: nat | MayLink(s', y, l)
      ensures MayLink(s, y, l)
    {
      MayLinkShrinks(c, s, s', w, step, y, l);
    }
    GraftedRoots(c, s, s', f, level, x, q, z);
    EntryRooted(c, s, s', w, step, f);
    assert AllPlanted(c, s', g) by {
      LinkPlanted(c, s, s', w, step, f);
    }
  }

  lemma InvHasLinks(c: Build, s: State)
    requires Inv(c, s)
    ensures LinksOk(c, s.links) && c.Valid()
  {
    hide LinksOk, EntryOk, PhasesOk, LocksOk, ClaimsOk, DegreesOk;
  }

  lemma LinkAt(c: Build, s: State, s': State, w: nat, step: Step, f: Forest)
    requires Inv(c, s) && ForestInv(c, s, f) && Takes(c, s, s', w, step) && step.DoLinkAndPrune?
    ensures var p := s.workers[w];
      && p.Linking? && p.stage.HoldBoth? && p.idx == 0 && |p.found| == 1 && p.selected == p.found
      && EdgeLinked(c, s.links, s'.links, p.job.node, p.found[0], p.level, step.kept)
      && p.job.node >= 1 && p.job.node !in s.finished && s'.finished == s.finished
      && s'.workers[w] == p.(stage := Linked)
      && MayLink(s, p.job.node, p.level) && !MayLink(s', p.job.node, p.level)
      && p.found[0] != p.job.node && f.root(p.level, p.job.node) == p.job.node && f.root(p.level, p.found[0]) != p.job.node
      && exists z :: StartsAt(c, s, f, p.job.node, p.level, z) && f.root(p.level, p.found[0]) == f.root(p.level, z) != p.job.node
  {
    hide LinksOk, LocksOk, DegreesOk, EntryOk, ForestOk, RootsOk, StartsAt, EdgeLinked, HangsBelow, OwnAbove, SearchesTree;
    var p := s.workers[w];
    assert Planted(c, s, f, p);
    assert PhaseOk(c, s.counter, s.maxLevel, p);
    InsertsNotSeed(c, s, w);
    FoundElsewhere(c, s, f, w);
  }

  lemma LinkPlanted(c: Build, s: State, s': State, w: nat, step: Step, f: Forest)
    requires Inv(c, s) && ForestInv(c, s, f) && Takes(c, s, s', w, step) && step.DoLinkAndPrune?
    ensures s.workers[w].Linking? && s.workers[w].found != []
    ensures AllPlanted(c, s', Graft(f, s.workers[w].level, s.workers[w].job.node, s.workers[w].found[0]))
  {
    hide Inv, Takes, Planted, RootsOk, ForestOk, EdgesInTrees, EdgeLinked, StartsAt, MayLink, Free;
    StepFrame(c, s, s', w, step);
    LinkAt(c, s, s', w, step, f);
    LinkEnds(c, s, w);
    var p := s.workers[w];
    var x, q, level := p.job.node, p.found[0], p.level;
    var g := Graft(f, level, x, q);
    forall v | 0 <= v < |s'.workers|
      ensures Planted(c, s', g, s'.workers[v])
    {
      assert Planted(c, s, f, s.workers[v]);
      if v == w {
        LinkerPlanted(c, s, s', f, p, level, x, q);
      } else {
        OtherNode(c, s, w, v);
        GraftedPlanted(c, s, f, level, x, q, s.workers[v]);
        OthersPlanted(c, s, s', g, s.workers[v]);
      }
    }
  }

  lemma OtherNode(c: Build, s: State, w: nat, v: nat)
    requires Inv(c, s) && w < |s.workers| && v < |s.workers| && v != w && s.workers[w].Working()
    ensures s.workers[v].Working() ==> s.workers[v].Node() != s.workers[w].Node()
  {
    hide LinksOk, EntryOk, PhasesOk, LocksOk, DegreesOk;
  }

  lemma LinkerPlanted(c: Build, s: State, s': State, f: Forest, p: Phase, level: nat, x: nat, q: nat)
    requires p.Linking? && p.stage.HoldBoth? && p.idx == 0 && p.job.node == x && p.level == level
    requires Planted(c, s, f, p) && p.found == [q] && q != x && ForestOk(c, f)
    requires f.root(level, x) == x && f.root(level, q) != x && c.On(x, level) && c.On(q, level)
    ensures Planted(c, s', Graft(f, level, x, q), p.(stage := Linked))
  {
    hide SearchesTree;
    assert NodeOk(c, f, level, x) && NodeOk(c, f, level, q);
  }

  // ---------- Runs ----------

  lemma StepKeepsForest(c: Build, s: State, s': State, w: nat, step: Step, f: Forest) returns (g: Forest)
    requires Inv(c, s) && Inv(c, s') && ForestInv(c, s, f) && Takes(c, s, s', w, step) && c.ef == 1 && AllSlim(c, s)
    ensures ForestInv(c, s', g)
  {
    hide Inv, Takes, ForestInv, AllSlim;
    if step.DoLinkAndPrune? {
      g := LinkKeepsForest(c, s, s', w, step, f);
    } else {
      g := f;
      PlainStepKeepsForest(c, s, s', w, step, f);
    }
  }

  /** In its own forest a one-node beam holds another node than the inserting one. */
  lemma NarrowAccompanies(c: Build, s: State, f: Forest, w: nat)
    requires Inv(c, s) && ForestInv(c, s, f) && w < |s.workers|
    ensures Accompanied(s.workers[w])
  {
    hide LinksOk, EntryOk, LocksOk, DegreesOk, ForestOk, StartsAt, EdgesInTrees;
    var p := s.workers[w];
    assert Planted(c, s, f, p) && PhaseOk(c, s.counter, s.maxLevel, p);
    if p.Linking? {
      if Free(p, p.level) {
        FoundElsewhere(c, s, f, w);
      }
      assert p.found[0] in Elements(p.found);
    } else if p.Pop? || p.Fetch? || p.Scan? {
      BeamElsewhere(c, s, f, w);
    }
  }

  lemma BeamElsewhere(c: Build, s: State, f: Forest, w: nat)
    requires Inv(c, s) && ForestInv(c, s, f) && w < |s.workers|
    requires s.workers[w].Pop? || s.workers[w].Fetch? || s.workers[w].Scan?
    ensures HasOther(s.workers[w].heaps.result, s.workers[w].job.node)
  {
    hide LinksOk, EntryOk, LocksOk, DegreesOk, ForestOk, StartsAt, EdgesInTrees, RootsOk, OwnAbove;
    var p := s.workers[w];
    assert Planted(c, s, f, p) && PhaseOk(c, s.counter, s.maxLevel, p);
    var met := match p
      case Pop(_, _, _, h) => h.seen
      case Fetch(_, _, _, h, cand) => h.seen + {cand}
      case Scan(_, _, _, h, pending) => h.seen + Elements(pending)
      case _ => {};
    var z :| SearchesTree(c, s, f, p.job.node, p.level, z, met);
    InsertsNotSeed(c, s, w);
    assert MayLink(s, p.job.node, p.level);
    StartsElsewhere(c, s, f, p.job.node, p.level, z);
    var u :| u in p.heaps.result;
    assert u in met && f.root(p.level, u) == f.root(p.level, z);
  }

  lemma FirstForest(c: Build, s: State)
    requires c.Valid() && Initial(c, s)
    ensures ForestInv(c, s, Seedlings) && AllSlim(c, s) && LinkInv(c, s)
  {
  }

  /** Every state of a run with beams of one has a forest. */
  lemma {:induction false} RunsHaveForest(c: Build, run: seq<State>, i: nat) returns (f: Forest)
    requires c.Valid() && c.ef == 1 && IsRun(c, run) && i < |run|
    ensures ForestInv(c, run[i], f) && AllSlim(c, run[i]) && LinkInv(c, run[i])
  {
    hide Next, Initial, ForestInv, AllSlim, LinkInv, Inv;
    if i == 0 {
      f := Seedlings;
      FirstForest(c, run[0]);
    } else {
      var before := RunsHaveForest(c, run, i - 1);
      RunsKeepInv(c, run, i - 1);
      RunsKeepInv(c, run, i);
      assert Next(c, run[i - 1], run[i]);
      f := NextHasForest(c, run[i - 1], run[i], before);
    }
  }

  lemma NextHasForest(c: Build, s: State, s': State, before: Forest) returns (f: Forest)
    requires Inv(c, s) && Inv(c, s') && Next(c, s, s') && c.ef == 1
    requires ForestInv(c, s, before) && AllSlim(c, s) && LinkInv(c, s)
    ensures ForestInv(c, s', f) && AllSlim(c, s') && LinkInv(c, s')
  {
    hide Takes, ForestInv, AllSlim, LinkInv, Inv, Accompanied;
    var w, step :| Takes(c, s, s', w, step);
    f := StepKeepsForest(c, s, s', w, step, before);
    SlimStep(c, s, s', w, step);
    StepFrame(c, s, s', w, step);
    NarrowAccompanies(c, s', f, w);
    StepKeepsLinkInv(c, s, s', w, step);
  }

  lemma {:induction false} RunsKeepLinkInv(c: Build, run: seq<State>, i: nat)
    requires c.Valid() && c.ef >= 2 && c.mMax0 >= 2 && IsRun(c, run) && i < |run|
    ensures LinkInv(c, run[i])
  {
    hide Next, LinkInv, Inv;
    if i == 0 {
      FirstForest(c, run[0]);
    } else {
      RunsKeepLinkInv(c, run, i - 1);
      RunsKeepInv(c, run, i - 1);
      assert Next(c, run[i - 1], run[i]);
      NextKeepsLinkInv(c, run[i - 1], run[i]);
    }
  }

  lemma NextKeepsLinkInv(c: Build, s: State, s': State)
    requires Inv(c, s) && Next(c, s, s') && LinkInv(c, s) && c.ef >= 2 && c.mMax0 >= 2
    ensures LinkInv(c, s')
  {
    hide Takes, LinkInv, Inv, Accompanied;
    var w, step :| Takes(c, s, s', w, step);
    if Searches(step) {
      WideAccompanies(c, s, s', w, step);
    }
    StepKeepsLinkInv(c, s, s', w, step);
  }

  /** In every state of every interleaving, every node whose insertion has returned has a neighbour. */
  lemma FinishedNodesAreLinked(c: Build, run: seq<State>, i: nat, x: nat)
    requires c.Valid() && c.mMax0 >= 2 && IsRun(c, run) && i < |run| && x in run[i].finished
    ensures OnLayer0(run[i].links, x)
  {
    hide Next, Initial, ForestInv, AllSlim;
    if c.ef == 1 {
      var f := RunsHaveForest(c, run, i);
    } else {
      RunsKeepLinkInv(c, run, i);
    }
  }

  /** At the join only the seed can be without a neighbour. */
  lemma JoinIsLinked(c: Build, run: seq<State>, x: nat)
    requires c.Valid() && c.mMax0 >= 2 && IsRun(c, run) && Joined(run[|run| - 1])
    requires 1 <= x < |c.rows|
    ensures OnLayer0(run[|run| - 1].links, x)
  {
    hide Next, Initial;
    JoinIsComplete(c, run);
    FinishedNodesAreLinked(c, run, |run| - 1, x);
  }
}
