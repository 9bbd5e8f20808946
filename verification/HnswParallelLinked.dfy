/** That an insertion of the parallel builder, as long as it has another node in hand, links on layer 0, and
    that a beam of two or more always has one. */
module HnswParallelLinked {
  import opened Counting
  import opened Neighbours
  import opened Graphs
  import opened HnswParallel
  import opened HnswParallelProof

  // ---------- Kinds of steps ----------

  ghost predicate Searches(step: Step) {
    step.DoPopBest? || step.DoCopyList? || step.DoScoreNext? || step.DoFinishSearch?
  }

  ghost predicate Starts(step: Step) {
    step.DoClaim? || step.DoReadEntry? || step.DoGreedyCopy? || step.DoGreedyScore?
  }

  ghost predicate Edges(step: Step) {
    step.DoNextEdge? || step.DoLockLow? || step.DoLockHigh? || step.DoUnlockHigh? || step.DoUnlockLow?
  }

  // ---------- What an insertion keeps ----------

  ghost predicate HasOther(xs: set<nat>, node: nat) {
    exists x :: x in xs && x != node
  }

  ghost predicate OnLayer0(links: Links, x: nat) {
    x < |links| && |links[x]| >= 1 && links[x][0] != []
  }

  /** What is sure to come of a worker's insertion: it always has another node in hand, and once past
      one on layer 0 it has linked. */
  ghost predicate WillLink(links: Links, p: Phase) {
    match p
    case Pop(job, _, _, h) => HasOther(h.result, job.node)
    case Fetch(job, _, _, h, _) => HasOther(h.result, job.node)
    case Scan(job, _, _, h, _) => HasOther(h.result, job.node)
    case Linking(job, level, _, found, selected, idx, stage) =>
      && HasOther(Elements(found), job.node) && idx <= |selected|
      && (level == 0 ==> HasOther(Elements(selected), job.node))
      && (level == 0 && (HasOther(Elements(selected[..idx]), job.node) || stage.Linked? || stage.HoldLow?) ==>
            OnLayer0(links, job.node))
    case AskEntry(job) => OnLayer0(links, job.node)
    case HoldEntry(job) => OnLayer0(links, job.node)
    case _ => true
  }

  /** The beam or the finding holds a node other than the inserting one, which others may have linked to. */
  ghost predicate Accompanied(p: Phase) {
    match p
    case Pop(job, _, _, h) => HasOther(h.result, job.node)
    case Fetch(job, _, _, h, _) => HasOther(h.result, job.node)
    case Scan(job, _, _, h, _) => HasOther(h.result, job.node)
    case Linking(job, level, _, found, selected, _, _) =>
      HasOther(Elements(found), job.node) && (level == 0 ==> HasOther(Elements(selected), job.node))
    case _ => true
  }

  ghost predicate LinkInv(c: Build, s: State) {
    && (s.entry == 0 || s.entry in s.finished)
    && (forall x :: x in s.finished ==> OnLayer0(s.links, x))
    && forall w :: 0 <= w < |s.workers| ==> WillLink(s.links, s.workers[w])
  }

  // ---------- Links only ever multiply from zero ----------

  lemma EdgeFillsBothEnds(c: Build, before: Links, after: Links, node: nat, nbr: nat, level: nat, kept: seq<nat>)
    requires c.Valid() && LinksOk(c, before) && node != nbr && c.On(node, level) && c.On(nbr, level)
    requires EdgeLinked(c, before, after, node, nbr, level, kept) && c.Cap(level) >= 1
    ensures |after| == |before| && node < |after| && nbr < |after| && level < |after[node]| && level < |after[nbr]|
    ensures after[node][level] != [] && after[nbr][level] != []
  {
    assert ListOk(Heights(before), nbr, level, before[nbr][level]);
    var adj := if node in before[nbr][level] then before[nbr][level] else before[nbr][level] + [node];
    PrunedKeeps(c.rows, c.walk, nbr, adj, c.Cap(level), kept);
  }

  /** An edge adds the one end to the other's list and nothing else. */
  lemma EdgeNames(c: Build, before: Links, after: Links, node: nat, nbr: nat, level: nat, kept: seq<nat>)
    requires c.Valid() && LinksOk(c, before) && node != nbr && c.On(node, level) && c.On(nbr, level)
    requires EdgeLinked(c, before, after, node, nbr, level, kept)
    ensures |after| == |before| && level < |after[node]| && level < |after[nbr]|
    ensures forall x :: x in after[node][level] ==> x in before[node][level] || x == nbr
    ensures forall x :: x in after[nbr][level] ==> x in before[nbr][level] || x == node
  {
    assert ListOk(Heights(before), nbr, level, before[nbr][level]);
    var adj := if node in before[nbr][level] then before[nbr][level] else before[nbr][level] + [node];
    PrunedKeeps(c.rows, c.walk, nbr, adj, c.Cap(level), kept);
  }

  lemma LinkStays(c: Build, s: State, s': State, w: nat, step: Step, x: nat)
    requires Inv(c, s) && Takes(c, s, s', w, step) && OnLayer0(s.links, x)
    ensures OnLayer0(s'.links, x)
  {
    hide LocksOk, ClaimsOk, DegreesOk, PhasesOk;
    StepFrame(c, s, s', w, step);
    if step.DoLinkAndPrune? {
      var p := s.workers[w];
      LinkEnds(c, s, w);
      EdgeKeepsLinks(c, s.links, s'.links, p.job.node, p.selected[p.idx], p.level, step.kept);
      EdgeFillsBothEnds(c, s.links, s'.links, p.job.node, p.selected[p.idx], p.level, step.kept);
    }
  }

  // ---------- Towards the link ----------

  lemma DescentWillLink(c: Build, links: Links, job: Job, level: nat, ep: nat)
    requires job.node < |c.heights| && c.heights[job.node] >= 1 && ep != job.node
    ensures WillLink(links, AfterDescent(c, job, level, ep))
  {
    assert ep in Elements([ep]);
  }

  lemma SearchWillLink(c: Build, s: State, s': State, w: nat, step: Step)
    requires Takes(c, s, s', w, step) && Searches(step) && Accompanied(s'.workers[w])
    ensures WillLink(s'.links, s'.workers[w])
  {
    hide HasOther, OnLayer0, EdgeLinked, Exhausted, Offered;
    if step.DoFinishSearch? {
      var p := s'.workers[w];
      assert p.selected[..p.idx] == [];
      NothingHasOther(p.selected[..p.idx], p.job.node);
    }
  }

  lemma NothingHasOther(xs: seq<nat>, node: nat)
    requires xs == []
    ensures !HasOther(Elements(xs), node)
  {
  }

  lemma StartWillLink(c: Build, s: State, s': State, w: nat, step: Step)
    requires Inv(c, s) && LinkInv(c, s) && Takes(c, s, s', w, step)
    requires step.DoReadEntry? || step.DoGreedyCopy? || step.DoGreedyScore?
    ensures WillLink(s'.links, s'.workers[w])
  {
    hide LinksOk, LocksOk, DegreesOk, WillLink;
    var p := s.workers[w];
    assert PhaseOk(c, s.counter, s.maxLevel, p);
    if step.DoReadEntry? {
      assert p.node >= 1 && p.node !in s.finished;
      DescentWillLink(c, s.links, Job(p.node, s.maxLevel), s.maxLevel, s.entry);
    } else if step.DoGreedyScore? && p.pending == [] && !p.improved {
      DescentWillLink(c, s.links, p.job, p.level - 1, p.cur);
    } else {
      GreedyWillLink(s'.links, s'.workers[w]);
    }
  }

  lemma GreedyWillLink(links: Links, p: Phase)
    requires p.GreedyFetch? || p.GreedyScan?
    ensures WillLink(links, p)
  {
  }

  lemma SkipsItself(selected: seq<nat>, idx: nat, node: nat)
    requires idx < |selected| && selected[idx] == node && HasOther(Elements(selected[..idx + 1]), node)
    ensures HasOther(Elements(selected[..idx]), node)
  {
    var x :| x in Elements(selected[..idx + 1]) && x != node;
    assert selected[..idx + 1] == selected[..idx] + [node];
    assert x in selected[..idx] && x in Elements(selected[..idx]);
  }

  lemma LockingWillLink(c: Build, s: State, s': State, w: nat, step: Step)
    requires Inv(c, s) && LinkInv(c, s) && Takes(c, s, s', w, step)
    requires Edges(step)
    ensures WillLink(s'.links, s'.workers[w])
  {
    hide LinksOk, LocksOk, ClaimsOk, DegreesOk, HasOther;
    var p := s.workers[w];
    assert WillLink(s.links, p);
    if step.DoUnlockLow? {
      assert OnLayer0(s.links, p.job.node) || p.level != 0;
    } else if step.DoNextEdge? && p.selected[p.idx] == p.job.node && HasOther(Elements(p.selected[..p.idx + 1]), p.job.node) {
      SkipsItself(p.selected, p.idx, p.job.node);
    }
  }

  lemma EdgeWillLink(c: Build, s: State, s': State, w: nat, step: Step)
    requires Inv(c, s) && LinkInv(c, s) && Takes(c, s, s', w, step) && step.DoLinkAndPrune?
    ensures WillLink(s'.links, s'.workers[w])
  {
    hide LinksOk, LocksOk, ClaimsOk, DegreesOk, EdgeLinked, HasOther;
    var p := s.workers[w];
    assert WillLink(s.links, p);
    LinkEnds(c, s, w);
    EdgeFillsBothEnds(c, s.links, s'.links, p.job.node, p.selected[p.idx], p.level, step.kept);
  }

  lemma LevelDoneWillLink(c: Build, s: State, s': State, w: nat)
    requires Inv(c, s) && LinkInv(c, s) && Takes(c, s, s', w, DoLevelDone)
    ensures WillLink(s'.links, s'.workers[w])
    ensures s'.finished != s.finished ==>
      s'.finished == s.finished + {s.workers[w].job.node} && OnLayer0(s'.links, s.workers[w].job.node)
  {
    hide LinksOk, LocksOk, ClaimsOk, DegreesOk, OnLayer0;
    var p := s.workers[w];
    assert WillLink(s.links, p);
    assert p.selected[..p.idx] == p.selected;
  }

  /** One step of any worker keeps every insertion bound to link, and every finished node linked. */
  lemma StepKeepsLinkInv(c: Build, s: State, s': State, w: nat, step: Step)
    requires Inv(c, s) && LinkInv(c, s) && Takes(c, s, s', w, step)
    requires Searches(step) ==> Accompanied(s'.workers[w])
    ensures LinkInv(c, s')
  {
    StepFrame(c, s, s', w, step);
    NewWillLink(c, s, s', w, step);
    FinishedLinked(c, s, s', w, step);
    forall v | 0 <= v < |s'.workers|
      ensures WillLink(s'.links, s'.workers[v])
    {
      if v != w {
        OthersWillLink(c, s, s', w, step, v);
      }
    }
  }

  lemma OthersWillLink(c: Build, s: State, s': State, w: nat, step: Step, v: nat)
    requires Inv(c, s) && LinkInv(c, s) && Takes(c, s, s', w, step) && v < |s.workers|
    ensures WillLink(s'.links, s.workers[v])
  {
    hide Inv, Takes;
    assert WillLink(s.links, s.workers[v]);
    if s.workers[v].Working() && OnLayer0(s.links, s.workers[v].Node()) {
      LinkStays(c, s, s', w, step, s.workers[v].Node());
    }
  }

  lemma NewWillLink(c: Build, s: State, s': State, w: nat, step: Step)
    requires Inv(c, s) && LinkInv(c, s) && Takes(c, s, s', w, step)
    requires Searches(step) ==> Accompanied(s'.workers[w])
    ensures w < |s'.workers| && WillLink(s'.links, s'.workers[w])
  {
    hide LinksOk, LocksOk, ClaimsOk, DegreesOk, EdgeLinked, Offered, Exhausted, PhaseOk;
    match step
    case DoReadEntry => StartWillLink(c, s, s', w, step);
    case DoGreedyCopy => StartWillLink(c, s, s', w, step);
    case DoGreedyScore => StartWillLink(c, s, s', w, step);
    case DoPopBest(_) => SearchWillLink(c, s, s', w, step);
    case DoCopyList => SearchWillLink(c, s, s', w, step);
    case DoScoreNext(_, _) => SearchWillLink(c, s, s', w, step);
    case DoFinishSearch(_) => SearchWillLink(c, s, s', w, step);
    case DoClaim =>
    case DoTakeEntry => assert WillLink(s.links, s.workers[w]);
    case DoPromote =>
    case DoLinkAndPrune(_, _) => EdgeWillLink(c, s, s', w, step);
    case DoLevelDone => LevelDoneWillLink(c, s, s', w);
    case _ => LockingWillLink(c, s, s', w, step);
  }

  lemma FinishedLinked(c: Build, s: State, s': State, w: nat, step: Step)
    requires Inv(c, s) && LinkInv(c, s) && Takes(c, s, s', w, step)
    ensures s'.entry == 0 || s'.entry in s'.finished
    ensures forall x :: x in s'.finished ==> OnLayer0(s'.links, x)
  {
    hide Inv, WillLink, OnLayer0;
    StepFrame(c, s, s', w, step);
    if step.DoLevelDone? {
      LevelDoneWillLink(c, s, s', w);
    } else if step.DoPromote? {
      assert WillLink(s.links, s.workers[w]);
      HeldIsLinked(s.links, s.workers[w]);
    }
    forall x | x in s.finished
      ensures OnLayer0(s'.links, x)
    {
      LinkStays(c, s, s', w, step, x);
    }
  }

  lemma HeldIsLinked(links: Links, p: Phase)
    requires p.HoldEntry? && WillLink(links, p)
    ensures OnLayer0(links, p.job.node)
  {
  }

  // ---------- A beam of two or more always has another node ----------

  lemma TwoHaveOther(xs: set<nat>, node: nat)
    requires |xs| >= 2
    ensures HasOther(xs, node)
  {
    if !HasOther(xs, node) {
      SubsetCount(xs, {node});
      assert false;
    }
  }

  lemma OfferedHasOther(h: Heaps, h': Heaps, ef: nat, f: nat -> real, nbr: nat, dropped: nat, node: nat)
    requires Offered(h, h', ef, f, nbr, dropped) && ef >= 2 && HasOther(h.result, node)
    ensures HasOther(h'.result, node)
  {
    var other :| other in h.result && other != node;
    if |h.result + {nbr}| > ef {
      if h'.result == h.result + {nbr} - {dropped} {
        TwoHaveOther(h'.result, node);
      }
    }
    assert other in h'.result || HasOther(h'.result, node);
  }

  lemma SelectedHasOther(c: Build, found: seq<nat>, f: nat -> real, level: nat, node: nat)
    requires Distinct(found) && NodesBelow(WithScores(found, f), |c.rows|)
    requires HasOther(Elements(found), node) && c.Cap(level) >= 2
    ensures HasOther(Elements(Select(c.rows, c.walk, WithScores(found, f), c.Cap(level))), node)
  {
    var cs := WithScores(found, f);
    var sel := Select(c.rows, c.walk, cs, c.Cap(level));
    assert Nodes(cs) == found;
    SelectSizes(c.rows, c.walk, cs, c.Cap(level));
    if |found| >= 2 {
      assert sel[0] != sel[1];
      assert sel[0] in Elements(sel) && sel[1] in Elements(sel);
    } else {
      assert sel[0] in Elements(sel) && sel[0] in Nodes(cs);
    }
  }

  lemma WideAccompanies(c: Build, s: State, s': State, w: nat, step: Step)
    requires Inv(c, s) && LinkInv(c, s) && Takes(c, s, s', w, step) && Searches(step) && c.ef >= 2 && c.mMax0 >= 2
    ensures Accompanied(s'.workers[w])
  {
    hide LinksOk, LocksOk, ClaimsOk, DegreesOk, Exhausted, Offered;
    var p := s.workers[w];
    assert WillLink(s.links, p);
    if step.DoScoreNext? && p.pending != [] {
      OfferedHasOther(p.heaps, step.h, c.ef, c.Score(p.job.node), p.pending[0], step.dropped, p.job.node);
    } else if step.DoFinishSearch? && p.level == 0 {
      SelectedHasOther(c, step.found, c.Score(p.job.node), 0, p.job.node);
    }
  }
}
