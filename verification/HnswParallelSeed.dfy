/** The seed of the parallel builder, node 0, and when it is sure of a layer-0 neighbour: when it occupies
    at most two levels, when beams hold one node, or when beams and layer-0 lists have room for every node. */
module HnswParallelSeed {
  import opened Counting
  import opened Neighbours
  import opened Graphs
  import opened HnswIndex
  import opened HnswParallel
  import opened HnswParallelProof
  import opened HnswParallelResults
  import opened HnswParallelEnds
  import opened HnswParallelLinked

  /** Beams and layer-0 lists have room for every node. */
  ghost predicate Ample(c: Build) {
    c.ef >= |c.rows| && c.mMax0 >= |c.rows|
  }

  ghost predicate SeedIsSure(c: Build) {
    |c.heights| >= 1 && (c.heights[0] <= 2 || c.ef == 1 || Ample(c))
  }

  // ---------- Beams keep to their width ----------

  /** What an insertion keeps never exceeds the beam width, and it selects among what it kept. */
  ghost predicate Slim(c: Build, p: Phase) {
    match p
    case Pop(_, _, _, h) => |h.result| <= c.ef
    case Fetch(_, _, _, h, _) => |h.result| <= c.ef
    case Scan(_, _, _, h, _) => |h.result| <= c.ef
    case Linking(_, _, _, found, selected, _, _) =>
      |selected| <= |found| <= c.ef && forall x :: x in selected ==> x in found
    case _ => true
  }

  ghost predicate AllSlim(c: Build, s: State) {
    forall w :: 0 <= w < |s.workers| ==> Slim(c, s.workers[w])
  }

  lemma SlimStep(c: Build, s: State, s': State, w: nat, step: Step)
    requires Inv(c, s) && AllSlim(c, s) && Takes(c, s, s', w, step)
    ensures AllSlim(c, s')
  {
    hide Takes, Inv, Slim;
    StepFrame(c, s, s', w, step);
    assert Slim(c, s.workers[w]);
    if Searches(step) {
      SearchStaysSlim(c, s, s', w, step);
    } else {
      OthersStaySlim(c, s, s', w, step);
    }
  }

  lemma SearchStaysSlim(c: Build, s: State, s': State, w: nat, step: Step)
    requires Inv(c, s) && Takes(c, s, s', w, step) && Searches(step) && Slim(c, s.workers[w])
    ensures Slim(c, s'.workers[w])
  {
    hide LinksOk, EntryOk, PhasesOk, LocksOk, ClaimsOk, DegreesOk, EdgeLinked, Exhausted;
    if step.DoFinishSearch? {
      var cs := WithScores(step.found, c.Score(s.workers[w].job.node));
      assert Nodes(cs) == step.found;
      SelectSizes(c.rows, c.walk, cs, c.Cap(s.workers[w].level));
      DistinctSize(step.found);
    }
  }

  lemma OthersStaySlim(c: Build, s: State, s': State, w: nat, step: Step)
    requires Inv(c, s) && Takes(c, s, s', w, step) && !Searches(step) && Slim(c, s.workers[w])
    ensures Slim(c, s'.workers[w])
  {
    hide LinksOk, EntryOk, PhasesOk, LocksOk, ClaimsOk, DegreesOk, EdgeLinked;
    if step.DoReadEntry? {
      ElementsSize([s.entry]);
    } else if step.DoGreedyScore? {
      ElementsSize([s.workers[w].cur]);
    } else if step.DoLevelDone? {
      ElementsSize(s.workers[w].found);
      ElementsSize([s.workers[w].ep]);
    }
  }

  // ---------- Before and after the first link ----------

  ghost predicate OnlySeed(h: Heaps) {
    h.seen == {0} && h.candidates <= {0} && h.result == {0}
  }

  ghost predicate BeforeEdge(stage: Stage) {
    !stage.Linked? && !stage.HoldLow?
  }

  /** An insertion that has met nobody but the seed. */
  ghost predicate MetOnlySeed(p: Phase, top: nat) {
    match p
    case GreedyFetch(job, level, cur) => job.top <= top && cur == 0
    case GreedyScan(job, level, cur, improved, pending) => job.top <= top && cur == 0 && pending == [] && !improved
    case Pop(_, level, _, h) => level <= top && OnlySeed(h)
    case Fetch(_, level, _, h, cand) => level <= top && OnlySeed(h) && cand == 0
    case Scan(_, level, _, h, pending) => level <= top && OnlySeed(h) && pending == []
    case Linking(_, level, _, found, selected, idx, stage) =>
      level <= top && found == [0] && selected == [0] && idx == 0 && BeforeEdge(stage)
    case AskEntry(_) => false
    case HoldEntry(_) => false
    case _ => true
  }

  /** Nobody has linked yet, and everybody has met only the seed. */
  ghost predicate Untouched(c: Build, s: State) {
    && s.entry == 0 && |c.heights| >= 1 && s.maxLevel + 1 == c.heights[0] && s.finished == {}
    && (forall x, l :: 0 <= x < |s.links| && 0 <= l < |s.links[x]| ==> s.links[x][l] == [])
    && forall w :: 0 <= w < |s.workers| ==> MetOnlySeed(s.workers[w], s.maxLevel)
  }

  /** The seed has no neighbour below level `k`. */
  ghost predicate AloneBelow(links: Links, k: nat) {
    |links| >= 1 && forall l :: 0 <= l < k && l < |links[0]| ==> links[0][l] == []
  }

  /** An insertion that, from the seed alone, has linked to it or is about to, and will find it alone on the
      levels below. */
  ghost predicate StaysAtSeed(c: Build, links: Links, p: Phase) {
    match p
    case Pop(_, level, _, h) => (level == 0 || c.ef == 1) && OnlySeed(h) && AloneBelow(links, level + 1)
    case Fetch(_, level, _, h, cand) => (level == 0 || c.ef == 1) && OnlySeed(h) && cand == 0 && AloneBelow(links, level + 1)
    case Scan(_, level, _, h, pending) => (level == 0 || c.ef == 1) && OnlySeed(h) && pending == [] && AloneBelow(links, level + 1)
    case Linking(_, level, _, found, selected, idx, stage) =>
      && found == [0] && selected == [0] && idx <= 1 && (level <= 1 || c.ef == 1) && AloneBelow(links, level)
      && (level == 0 ==> idx == 0 && BeforeEdge(stage))
    case _ => false
  }

  /** An insertion with the seed in its beam, or still ahead of it among the selected of layer 0. */
  ghost predicate KeepsSeed(p: Phase) {
    match p
    case Pop(_, _, _, h) => 0 in h.result
    case Fetch(_, _, _, h, _) => 0 in h.result
    case Scan(_, _, _, h, _) => 0 in h.result
    case Linking(_, level, _, found, selected, idx, stage) =>
      0 in found && (level == 0 ==> Ahead(selected, idx, stage))
    case _ => false
  }

  ghost predicate Ahead(selected: seq<nat>, idx: nat, stage: Stage) {
    idx < |selected| && (if BeforeEdge(stage) then 0 in selected[idx..] else 0 in selected[idx + 1..])
  }

  ghost predicate BoundToSeed(c: Build, links: Links, p: Phase) {
    if Ample(c) then KeepsSeed(p) else StaysAtSeed(c, links, p)
  }

  ghost predicate SeedInv(c: Build, s: State) {
    && AllSlim(c, s)
    && (OnLayer0(s.links, 0) || Untouched(c, s)
        || exists w :: 0 <= w < |s.workers| && BoundToSeed(c, s.links, s.workers[w]))
  }

  // ---------- The seed among the selected, and an edge to it ----------

  lemma InsertsNotSeed(c: Build, s: State, w: nat)
    requires Inv(c, s) && w < |s.workers| && s.workers[w].Working()
    ensures s.workers[w].Node() >= 1
  {
    hide LinksOk, EntryOk, PhasesOk, LocksOk, DegreesOk;
  }

  lemma OnlySeedSelected(c: Build, found: seq<nat>, f: nat -> real, level: nat)
    requires c.Valid() && Distinct(found) && Elements(found) == {0} && NodesBelow(WithScores(found, f), |c.rows|)
    ensures found == [0] && Select(c.rows, c.walk, WithScores(found, f), c.Cap(level)) == [0]
  {
    DistinctSize(found);
    assert found[0] in Elements(found);
    var cs := WithScores(found, f);
    assert Nodes(cs) == found;
    SelectSizes(c.rows, c.walk, cs, c.Cap(level));
    var sel := Select(c.rows, c.walk, cs, c.Cap(level));
    assert sel[0] in sel;
  }

  /** What an edge changes of the seed's lists. */
  lemma EdgeAtSeed(c: Build, s: State, s': State, w: nat, step: Step)
    requires Inv(c, s) && Takes(c, s, s', w, step) && step.DoLinkAndPrune?
    ensures var p := s.workers[w];
      && p.Linking? && p.idx < |p.selected| && p.job.node >= 1 && s'.workers[w] == p.(stage := Linked)
      && |s'.links| == |s.links| >= 1 && |s'.links[0]| == |s.links[0]|
      && (forall l :: 0 <= l < |s.links[0]| && (l != p.level || p.selected[p.idx] != 0) ==> s'.links[0][l] == s.links[0][l])
      && (p.selected[p.idx] == 0 && p.level == 0 ==> OnLayer0(s'.links, 0))
  {
    hide LocksOk, DegreesOk, EdgeLinked, PhasesOk, EntryOk;
    var p := s.workers[w];
    LinkEnds(c, s, w);
    InsertsNotSeed(c, s, w);
    EdgeKeepsLinks(c, s.links, s'.links, p.job.node, p.selected[p.idx], p.level, step.kept);
    EdgeFillsBothEnds(c, s.links, s'.links, p.job.node, p.selected[p.idx], p.level, step.kept);
  }

  // ---------- Until the first link ----------

  /** A beam that holds the seed alone stays so as long as the seed's list on that level is empty. */
  lemma SearchMeetsOnlySeed(c: Build, s: State, s': State, w: nat, step: Step)
    requires Inv(c, s) && Takes(c, s, s', w, step) && Searches(step)
    requires MetOnlySeed(s.workers[w], s.maxLevel) || StaysAtSeed(c, s.links, s.workers[w])
    requires step.DoCopyList? ==> LayerOf(s.links, s.workers[w].level)[0] == []
    ensures MetOnlySeed(s.workers[w], s.maxLevel) ==> MetOnlySeed(s'.workers[w], s.maxLevel)
    ensures StaysAtSeed(c, s.links, s.workers[w]) ==> StaysAtSeed(c, s.links, s'.workers[w])
  {
    hide LinksOk, EntryOk, PhasesOk, LocksOk, ClaimsOk, DegreesOk, EdgeLinked, Exhausted, Offered;
    var p := s.workers[w];
    if step.DoFinishSearch? {
      assert Elements(step.found) == {0};
      OnlySeedSelected(c, step.found, c.Score(p.job.node), p.level);
    }
  }

  lemma StartMeetsOnlySeed(c: Build, s: State, s': State, w: nat, step: Step)
    requires Inv(c, s) && Untouched(c, s) && Takes(c, s, s', w, step) && Starts(step)
    ensures MetOnlySeed(s'.workers[w], s.maxLevel)
  {
    hide LinksOk, EntryOk, LocksOk, ClaimsOk, DegreesOk;
    var p := s.workers[w];
    assert MetOnlySeed(p, s.maxLevel) && PhaseOk(c, s.counter, s.maxLevel, p);
    assert Elements([0]) == {0};
    if step.DoGreedyCopy? {
      assert LayerOf(s.links, p.level)[0] == [];
    }
  }

  lemma EdgeMeetsOnlySeed(c: Build, s: State, s': State, w: nat, step: Step)
    requires Inv(c, s) && Takes(c, s, s', w, step) && Edges(step)
    ensures MetOnlySeed(s.workers[w], s.maxLevel) ==> MetOnlySeed(s'.workers[w], s.maxLevel)
    ensures StaysAtSeed(c, s.links, s.workers[w]) ==> StaysAtSeed(c, s.links, s'.workers[w])
  {
    hide LinksOk, EntryOk, PhasesOk, LocksOk, DegreesOk, ClaimsOk, AloneBelow;
    if step.DoNextEdge? {
      InsertsNotSeed(c, s, w);
    }
  }

  lemma NothingElseYet(c: Build, s: State, s': State, w: nat, step: Step)
    requires Takes(c, s, s', w, step) && MetOnlySeed(s.workers[w], s.maxLevel)
    ensures Searches(step) || Starts(step) || Edges(step) || step.DoLinkAndPrune?
  {
    hide EdgeLinked, Exhausted, Offered;
  }

  lemma FirstEdge(c: Build, s: State, s': State, w: nat, step: Step)
    requires Inv(c, s) && SeedIsSure(c) && Untouched(c, s) && Takes(c, s, s', w, step) && step.DoLinkAndPrune?
    ensures OnLayer0(s'.links, 0) || BoundToSeed(c, s'.links, s'.workers[w])
  {
    hide Inv, Takes, OnLayer0;
    assert MetOnlySeed(s.workers[w], s.maxLevel) by {
      StepFrame(c, s, s', w, step);
    }
    EdgeAtSeed(c, s, s', w, step);
  }

  /** Until somebody links, an insertion sees empty lists and meets only the seed; the first to link links
      to the seed. */
  lemma FirstLinkIsToSeed(c: Build, s: State, s': State, w: nat, step: Step)
    requires Inv(c, s) && SeedIsSure(c) && Untouched(c, s) && Takes(c, s, s', w, step)
    ensures if step.DoLinkAndPrune? then OnLayer0(s'.links, 0) || BoundToSeed(c, s'.links, s'.workers[w])
            else !step.DoLevelDone? && !step.DoPromote? && MetOnlySeed(s'.workers[w], s.maxLevel)
  {
    hide Inv, Takes;
    StepFrame(c, s, s', w, step);
    assert MetOnlySeed(s.workers[w], s.maxLevel);
    NothingElseYet(c, s, s', w, step);
    if step.DoLinkAndPrune? {
      FirstEdge(c, s, s', w, step);
    } else if Searches(step) {
      if step.DoCopyList? {
        CopiesNothing(c, s, s', w, step);
      }
      SearchMeetsOnlySeed(c, s, s', w, step);
    } else if Starts(step) {
      StartMeetsOnlySeed(c, s, s', w, step);
    } else {
      EdgeMeetsOnlySeed(c, s, s', w, step);
    }
  }

  lemma CopiesNothing(c: Build, s: State, s': State, w: nat, step: Step)
    requires Inv(c, s) && Takes(c, s, s', w, step) && step.DoCopyList?
    requires Untouched(c, s) || StaysAtSeed(c, s.links, s.workers[w])
    ensures LayerOf(s.links, s.workers[w].level)[0] == []
  {
    hide EntryOk, PhasesOk, LocksOk, ClaimsOk, DegreesOk;
  }

  // ---------- From the first link on: low seeds and narrow beams ----------

  lemma StayerMoves(c: Build, s: State, s': State, w: nat, step: Step)
    requires Inv(c, s) && Takes(c, s, s', w, step) && StaysAtSeed(c, s.links, s.workers[w])
    ensures OnLayer0(s'.links, 0) || StaysAtSeed(c, s'.links, s'.workers[w])
  {
    hide Inv, Takes, OnLayer0;
    StepFrame(c, s, s', w, step);
    if step.DoLinkAndPrune? {
      EdgeAtSeed(c, s, s', w, step);
    } else if Searches(step) {
      if step.DoCopyList? {
        CopiesNothing(c, s, s', w, step);
      }
      SearchMeetsOnlySeed(c, s, s', w, step);
    } else if Edges(step) {
      EdgeMeetsOnlySeed(c, s, s', w, step);
    } else {
      StayerGoesDown(c, s, s', w, step);
    }
  }

  lemma StayerGoesDown(c: Build, s: State, s': State, w: nat, step: Step)
    requires Takes(c, s, s', w, step) && StaysAtSeed(c, s.links, s.workers[w])
    requires !Searches(step) && !Edges(step) && !step.DoLinkAndPrune?
    ensures StaysAtSeed(c, s.links, s'.workers[w])
  {
    hide EdgeLinked, Exhausted, Offered;
    assert Elements([0]) == {0};
  }

  /** Somebody else's step leaves a stayer as it is, or makes a new one lower down. */
  lemma OthersLeaveStayer(c: Build, s: State, s': State, w: nat, step: Step, v: nat)
    requires Inv(c, s) && Takes(c, s, s', w, step) && v < |s.workers| && v != w && Slim(c, s.workers[w])
    requires (c.heights[0] <= 2 || c.ef == 1) && StaysAtSeed(c, s.links, s.workers[v])
    ensures OnLayer0(s'.links, 0) || StaysAtSeed(c, s'.links, s'.workers[v]) || StaysAtSeed(c, s'.links, s'.workers[w])
  {
    hide Inv, Takes, OnLayer0;
    StepFrame(c, s, s', w, step);
    if step.DoLinkAndPrune? {
      EdgeAtSeed(c, s, s', w, step);
      var p := s.workers[w];
      if p.selected[p.idx] == 0 && c.ef == 1 {
        FoundAlone(c, s, w);
      }
    }
  }

  lemma FoundAlone(c: Build, s: State, w: nat)
    requires Inv(c, s) && c.ef == 1 && w < |s.workers| && s.workers[w].Linking? && Slim(c, s.workers[w])
    requires s.workers[w].idx < |s.workers[w].selected| && s.workers[w].selected[s.workers[w].idx] == 0
    ensures s.workers[w].found == [0] == s.workers[w].selected && s.workers[w].idx == 0
  {
    var p := s.workers[w];
    assert p.selected[p.idx] in p.found;
  }

  // ---------- From the first link on: room for every node ----------

  /** With room for every node no beam drops one. */
  lemma NothingDropped(c: Build, maxLevel: nat, job: Job, level: nat, ep: nat, h: Heaps, h': Heaps,
                       f: nat -> real, nbr: nat, dropped: nat)
    requires Ample(c) && c.Valid() && SearchOk(c, maxLevel, job, level, ep, h) && c.On(nbr, level)
    requires Offered(h, h', c.ef, f, nbr, dropped)
    ensures h.result <= h'.result
  {
    AtMost(h.result + {nbr}, |c.rows|);
  }

  /** ... and every node found is selected on layer 0. */
  lemma NothingLeftOut(c: Build, found: seq<nat>, f: nat -> real)
    requires Ample(c) && Distinct(found) && NodesBelow(WithScores(found, f), |c.rows|) && |found| <= |c.rows|
    ensures forall x :: x in found ==> x in Select(c.rows, c.walk, WithScores(found, f), c.Cap(0))
  {
    var cs := WithScores(found, f);
    assert Nodes(cs) == found;
    SelectSizes(c.rows, c.walk, cs, c.Cap(0));
    var sel := Select(c.rows, c.walk, cs, c.Cap(0));
    forall x | x in found
      ensures x in sel
    {
      if x !in sel {
        DistinctSize(sel);
        DistinctSize(found);
        SubsetCount(Elements(sel) + {x}, Elements(found));
        assert false;
      }
    }
  }

  lemma KeeperSearches(c: Build, s: State, s': State, w: nat, step: Step)
    requires Ample(c) && Inv(c, s) && Takes(c, s, s', w, step) && Searches(step) && KeepsSeed(s.workers[w])
    ensures KeepsSeed(s'.workers[w])
  {
    hide LinksOk, EntryOk, LocksOk, ClaimsOk, DegreesOk, EdgeLinked, Exhausted, Offered;
    var p := s.workers[w];
    assert PhaseOk(c, s.counter, s.maxLevel, p);
    if step.DoScoreNext? && p.pending != [] {
      assert p.pending[0] in Elements(p.pending);
      NothingDropped(c, s.maxLevel, p.job, p.level, p.ep, p.heaps, step.h, c.Score(p.job.node), p.pending[0], step.dropped);
    } else if step.DoFinishSearch? {
      assert 0 in Elements(step.found);
      if p.level == 0 {
        AtMost(p.heaps.result, |c.rows|);
        DistinctSize(step.found);
        NothingLeftOut(c, step.found, c.Score(p.job.node));
      }
    }
  }

  lemma KeeperLinks(c: Build, s: State, s': State, w: nat, step: Step)
    requires Ample(c) && Inv(c, s) && Takes(c, s, s', w, step) && !Searches(step) && !step.DoLinkAndPrune?
    requires KeepsSeed(s.workers[w])
    ensures KeepsSeed(s'.workers[w])
  {
    hide LinksOk, EntryOk, LocksOk, ClaimsOk, DegreesOk, EdgeLinked;
    var p := s.workers[w];
    assert p.Linking?;
    InsertsNotSeed(c, s, w);
    if step.DoLevelDone? {
      assert 0 in Elements(p.found);
    } else if step.DoNextEdge? && p.level == 0 {
      assert p.selected[p.idx..] == [p.selected[p.idx]] + p.selected[p.idx + 1..];
    }
  }

  lemma KeeperMoves(c: Build, s: State, s': State, w: nat, step: Step)
    requires Ample(c) && Inv(c, s) && Takes(c, s, s', w, step) && KeepsSeed(s.workers[w])
    ensures OnLayer0(s'.links, 0) || KeepsSeed(s'.workers[w])
  {
    hide Inv, Takes, OnLayer0;
    StepFrame(c, s, s', w, step);
    if step.DoLinkAndPrune? {
      EdgeAtSeed(c, s, s', w, step);
      var p := s.workers[w];
      assert p.selected[p.idx..] == [p.selected[p.idx]] + p.selected[p.idx + 1..];
    } else if Searches(step) {
      KeeperSearches(c, s, s', w, step);
    } else {
      KeeperLinks(c, s, s', w, step);
    }
  }

  // ---------- Runs ----------

  lemma BoundStaysBound(c: Build, s: State, s': State, w: nat, step: Step, v: nat)
    requires Inv(c, s) && SeedIsSure(c) && AllSlim(c, s) && Takes(c, s, s', w, step)
    requires v < |s.workers| && BoundToSeed(c, s.links, s.workers[v])
    ensures OnLayer0(s'.links, 0) || BoundToSeed(c, s'.links, s'.workers[v]) || BoundToSeed(c, s'.links, s'.workers[w])
  {
    hide Inv, Takes, OnLayer0, StaysAtSeed, KeepsSeed;
    StepFrame(c, s, s', w, step);
    if Ample(c) {
      if v == w {
        KeeperMoves(c, s, s', w, step);
      }
    } else if v == w {
      StayerMoves(c, s, s', w, step);
    } else {
      OthersLeaveStayer(c, s, s', w, step, v);
    }
  }

  lemma StepKeepsSeedInv(c: Build, s: State, s': State, w: nat, step: Step)
    requires Inv(c, s) && SeedIsSure(c) && SeedInv(c, s) && Takes(c, s, s', w, step)
    ensures SeedInv(c, s')
  {
    hide Inv, Takes, AllSlim, OnLayer0, BoundToSeed;
    StepFrame(c, s, s', w, step);
    SlimStep(c, s, s', w, step);
    if OnLayer0(s.links, 0) {
      LinkStays(c, s, s', w, step, 0);
    } else if Untouched(c, s) {
      FirstLinkIsToSeed(c, s, s', w, step);
    } else {
      var v :| 0 <= v < |s.workers| && BoundToSeed(c, s.links, s.workers[v]);
      BoundStaysBound(c, s, s', w, step, v);
    }
  }

  lemma {:induction false} RunsKeepSeedInv(c: Build, run: seq<State>, i: nat)
    requires c.Valid() && SeedIsSure(c) && IsRun(c, run) && i < |run|
    ensures SeedInv(c, run[i])
  {
    hide Next;
    if i == 0 {
      assert Untouched(c, run[0]);
    } else {
      RunsKeepSeedInv(c, run, i - 1);
      RunsKeepInv(c, run, i - 1);
      assert Next(c, run[i - 1], run[i]);
      NextKeepsSeedInv(c, run[i - 1], run[i]);
    }
  }

  lemma NextKeepsSeedInv(c: Build, s: State, s': State)
    requires Inv(c, s) && SeedIsSure(c) && SeedInv(c, s) && Next(c, s, s')
    ensures SeedInv(c, s')
  {
    hide Inv, Takes, SeedInv, SeedIsSure;
    var w, step :| Takes(c, s, s', w, step);
    StepKeepsSeedInv(c, s, s', w, step);
  }

  /** A seed on at most two levels, beams of one, or room for every node in beams and layer-0 lists: the seed
      has a layer-0 neighbour at every join of two nodes or more. */
  lemma SureSeedIsLinked(c: Build, run: seq<State>)
    requires c.Valid() && |c.rows| >= 2 && SeedIsSure(c) && IsRun(c, run) && Joined(run[|run| - 1])
    ensures OnLayer0(run[|run| - 1].links, 0)
  {
    hide Initial, Next, SeedIsSure, AllSlim, Inv, Navigable, EntryOnTop;
    RunsKeepSeedInv(c, run, |run| - 1);
    JoinIsComplete(c, run);
    assert 1 in run[|run| - 1].finished;
  }
}
