/** Every step of the parallel builder keeps its invariant. */
module HnswParallelProof {
  import opened Counting
  import opened Options
  import opened Neighbours
  import opened Graphs
  import opened HnswIndex
  import opened HnswParallel

  // ---------- What a step may touch ----------

  /** A step moves one worker; counters and the top level only grow. */
  lemma StepFrame(c: Build, s: State, s': State, w: nat, step: Step)
    requires Takes(c, s, s', w, step)
    ensures w < |s'.workers| == |s.workers| && s'.workers == s.workers[w := s'.workers[w]]
    ensures s'.counter >= s.counter && s'.maxLevel >= s.maxLevel
    ensures !step.DoLinkAndPrune? ==> s'.links == s.links
    ensures !step.DoClaim? ==> s'.counter == s.counter && s'.claimedBy == s.claimedBy
    ensures !step.DoPromote? ==> s'.maxLevel == s.maxLevel && s'.entry == s.entry
    ensures !step.DoPromote? && !step.DoLevelDone? ==> s'.finished == s.finished
    ensures !step.DoTakeEntry? && !step.DoPromote? ==> s'.entryWriter == s.entryWriter
  {
    hide EdgeLinked, Offered, Exhausted;
  }

  // ---------- Links ----------

  lemma LayerOn(c: Build, links: Links, level: nat, x: nat)
    requires LinksOk(c, links) && c.On(x, level)
    ensures AllOn(c, Elements(LayerOf(links, level)[x]), level)
  {
    assert ListOk(Heights(links), x, level, links[x][level]);
  }

  lemma EdgeKeepsLinks(c: Build, before: Links, after: Links, node: nat, nbr: nat, level: nat, kept: seq<nat>)
    requires c.Valid() && LinksOk(c, before) && node != nbr && c.On(node, level) && c.On(nbr, level)
    requires EdgeLinked(c, before, after, node, nbr, level, kept)
    ensures LinksOk(c, after)
    ensures |after[node][level]| <= |before[node][level]| + 1 && |after[nbr][level]| <= c.Cap(level)
    ensures forall x, l :: 0 <= x < |after| && 0 <= l < |after[x]| && (l != level || (x != node && x != nbr)) ==>
      after[x][l] == before[x][l]
  {
    assert ListOk(Heights(before), node, level, before[node][level]);
    assert ListOk(Heights(before), nbr, level, before[nbr][level]);
    var one := if nbr !in before[node][level] then SetList(before, node, level, before[node][level] + [nbr]) else before;
    if nbr !in before[node][level] {
      SetListSound(before, node, level, before[node][level] + [nbr]);
    }
    assert Heights(one) == Heights(before);
    var adj := if node in one[nbr][level] then one[nbr][level] else one[nbr][level] + [node];
    assert one[nbr][level] == before[nbr][level];
    PrunedKeeps(c.rows, c.walk, nbr, adj, c.Cap(level), kept);
    SetListSound(one, nbr, level, kept);
  }

  // ---------- Phases ----------

  lemma PhaseOkMonotone(c: Build, counter: nat, maxLevel: nat, counter': nat, maxLevel': nat, p: Phase)
    requires PhaseOk(c, counter, maxLevel, p) && counter <= counter' && maxLevel <= maxLevel'
    ensures PhaseOk(c, counter', maxLevel', p)
  {
  }

  lemma AfterDescentOk(c: Build, counter: nat, maxLevel: nat, job: Job, level: nat, ep: nat)
    requires c.Valid() && job.node < |c.heights| && job.top <= maxLevel && level <= job.top
    requires c.On(ep, level) && (level == job.top || level + 1 >= c.heights[job.node])
    ensures PhaseOk(c, counter, maxLevel, AfterDescent(c, job, level, ep))
  {
    assert Elements([ep]) == {ep};
  }

  lemma OfferedOk(c: Build, maxLevel: nat, job: Job, level: nat, ep: nat, h: Heaps, h': Heaps,
                  f: nat -> real, nbr: nat, dropped: nat)
    requires SearchOk(c, maxLevel, job, level, ep, h) && c.On(nbr, level)
    requires Offered(h, h', c.ef, f, nbr, dropped)
    ensures SearchOk(c, maxLevel, job, level, ep, h')
  {
  }

  lemma SelectedOk(c: Build, found: seq<nat>, f: nat -> real, level: nat)
    requires c.Valid() && Distinct(found) && NodesBelow(WithScores(found, f), |c.rows|) && AllOn(c, Elements(found), level)
    ensures var sel := Select(c.rows, c.walk, WithScores(found, f), c.Cap(level));
      |sel| <= c.Cap(level) && AllOn(c, Elements(sel), level)
  {
    var cs := WithScores(found, f);
    assert Nodes(cs) == found;
    SelectSizes(c.rows, c.walk, cs, c.Cap(level));
  }

  lemma GreedyPhaseOk(c: Build, s: State, s': State, w: nat, step: Step)
    requires Inv(c, s) && Takes(c, s, s', w, step)
    requires step.DoReadEntry? || step.DoGreedyCopy? || step.DoGreedyScore?
    ensures PhaseOk(c, s'.counter, s'.maxLevel, s'.workers[w])
  {
    hide LinksOk, LocksOk, ClaimsOk, DegreesOk, EdgeLinked, Offered, Exhausted;
    var p := s.workers[w];
    assert PhaseOk(c, s.counter, s.maxLevel, p);
    if step.DoReadEntry? {
      AfterDescentOk(c, s.counter, s.maxLevel, Job(p.node, s.maxLevel), s.maxLevel, s.entry);
    } else if step.DoGreedyCopy? {
      LayerOn(c, s.links, p.level, p.cur);
    } else if p.pending != [] {
      assert p.pending[0] in Elements(p.pending);
      assert Elements(p.pending[1..]) <= Elements(p.pending);
    } else if !p.improved {
      AfterDescentOk(c, s.counter, s.maxLevel, p.job, p.level - 1, p.cur);
    }
  }

  lemma BeamPhaseOk(c: Build, s: State, s': State, w: nat, step: Step)
    requires Inv(c, s) && Takes(c, s, s', w, step)
    requires step.DoPopBest? || step.DoCopyList? || step.DoScoreNext? || step.DoFinishSearch?
    ensures PhaseOk(c, s'.counter, s'.maxLevel, s'.workers[w])
  {
    hide LinksOk, LocksOk, ClaimsOk, DegreesOk, EdgeLinked, Offered, Exhausted;
    var p := s.workers[w];
    assert PhaseOk(c, s.counter, s.maxLevel, p);
    if step.DoCopyList? {
      LayerOn(c, s.links, p.level, p.cand);
    } else if step.DoFinishSearch? {
      SelectedOk(c, step.found, c.Score(p.job.node), p.level);
    } else if step.DoScoreNext? && p.pending != [] {
      assert p.pending[0] in Elements(p.pending);
      assert Elements(p.pending[1..]) <= Elements(p.pending);
      OfferedOk(c, s.maxLevel, p.job, p.level, p.ep, p.heaps, step.h, c.Score(p.job.node), p.pending[0], step.dropped);
    }
  }

  lemma LevelDonePhaseOk(c: Build, s: State, s': State, w: nat)
    requires Inv(c, s) && Takes(c, s, s', w, DoLevelDone)
    ensures PhaseOk(c, s'.counter, s'.maxLevel, s'.workers[w])
  {
    var p := s.workers[w];
    assert PhaseOk(c, s.counter, s.maxLevel, p);
    if p.level > 0 {
      var starts := if p.found == [] then [p.ep] else p.found;
      forall x | x in starts
        ensures c.On(x, p.level - 1)
      {
        assert p.found != [] ==> x in Elements(p.found);
      }
    }
  }

  lemma OtherPhaseOk(c: Build, s: State, s': State, w: nat, step: Step)
    requires Inv(c, s) && Takes(c, s, s', w, step)
    requires step.DoClaim? || step.DoNextEdge? || step.DoLockLow? || step.DoLockHigh? || step.DoLinkAndPrune?
      || step.DoUnlockHigh? || step.DoUnlockLow? || step.DoTakeEntry? || step.DoPromote?
    ensures PhaseOk(c, s'.counter, s'.maxLevel, s'.workers[w])
  {
    hide LinksOk, LocksOk, DegreesOk, EdgeLinked, Offered, Exhausted;
    assert PhaseOk(c, s.counter, s.maxLevel, s.workers[w]);
  }

  lemma NewPhaseOk(c: Build, s: State, s': State, w: nat, step: Step)
    requires Inv(c, s) && Takes(c, s, s', w, step)
    ensures PhaseOk(c, s'.counter, s'.maxLevel, s'.workers[w])
  {
    hide Takes, Inv, PhaseOk;
    match step {
      case DoReadEntry => GreedyPhaseOk(c, s, s', w, step);
      case DoGreedyCopy => GreedyPhaseOk(c, s, s', w, step);
      case DoGreedyScore => GreedyPhaseOk(c, s, s', w, step);
      case DoPopBest(_) => BeamPhaseOk(c, s, s', w, step);
      case DoCopyList => BeamPhaseOk(c, s, s', w, step);
      case DoScoreNext(_, _) => BeamPhaseOk(c, s, s', w, step);
      case DoFinishSearch(_) => BeamPhaseOk(c, s, s', w, step);
      case DoLevelDone => LevelDonePhaseOk(c, s, s', w);
      case _ => OtherPhaseOk(c, s, s', w, step);
    }
  }

  lemma PhasesStep(c: Build, s: State, s': State, w: nat, step: Step)
    requires Inv(c, s) && Takes(c, s, s', w, step)
    ensures PhasesOk(c, s')
  {
    StepFrame(c, s, s', w, step);
    NewPhaseOk(c, s, s', w, step);
    forall v | 0 <= v < |s'.workers|
      ensures PhaseOk(c, s'.counter, s'.maxLevel, s'.workers[v])
    {
      if v != w {
        PhaseOkMonotone(c, s.counter, s.maxLevel, s'.counter, s'.maxLevel, s.workers[v]);
      }
    }
  }

  // ---------- Links and degrees ----------

  /** The edge a link step writes joins two nodes of its level. */
  lemma LinkEnds(c: Build, s: State, w: nat)
    requires Inv(c, s) && w < |s.workers| && s.workers[w].Linking? && !s.workers[w].stage.Ready?
    ensures var p := s.workers[w];
      && p.idx < |p.selected| && p.selected[p.idx] != p.job.node
      && c.On(p.job.node, p.level) && c.On(p.selected[p.idx], p.level)
      && p.job.node in s.claimedBy && s.claimedBy[p.job.node] == w && p.job.node !in s.finished
  {
    var p := s.workers[w];
    assert PhaseOk(c, s.counter, s.maxLevel, p);
    assert p.selected[p.idx] in Elements(p.selected);
  }

  lemma LinksStep(c: Build, s: State, s': State, w: nat, step: Step)
    requires Inv(c, s) && Takes(c, s, s', w, step)
    ensures LinksOk(c, s'.links)
  {
    StepFrame(c, s, s', w, step);
    if step.DoLinkAndPrune? {
      var p := s.workers[w];
      LinkEnds(c, s, w);
      EdgeKeepsLinks(c, s.links, s'.links, p.job.node, p.selected[p.idx], p.level, step.kept);
    }
  }

  lemma PushesBounded(c: Build, counter: nat, maxLevel: nat, p: Phase, l: nat)
    requires PhaseOk(c, counter, maxLevel, p)
    ensures Pushes(c, p, l) <= c.Cap(l)
  {
  }

  /** An insertion's own pushes only accumulate: every phase a step can lead to counts at least as
      many as the one it left. */
  lemma PushesGrow(c: Build, s: State, s': State, w: nat, step: Step, l: nat)
    requires Takes(c, s, s', w, step) && PhaseOk(c, s.counter, s.maxLevel, s.workers[w])
    ensures s'.workers[w].Working() ==> Pushes(c, s.workers[w], l) <= Pushes(c, s'.workers[w], l)
  {
    match s.workers[w] {
      case Linking(_, _, _, _, _, _, _) =>
        PushesBounded(c, s.counter, s.maxLevel, s.workers[w], l);
        LinkingGrows(c, s, s', w, step, l);
      case _ =>
    }
  }

  lemma LinkingGrows(c: Build, s: State, s': State, w: nat, step: Step, l: nat)
    requires Takes(c, s, s', w, step) && s.workers[w].Linking?
    requires Pushes(c, s.workers[w], l) <= c.Cap(l)
    ensures s'.workers[w].Working() ==> Pushes(c, s.workers[w], l) <= Pushes(c, s'.workers[w], l)
  {
  }

  lemma ClaimsPersist(c: Build, s: State, s': State, w: nat, step: Step)
    requires Takes(c, s, s', w, step) && ClaimsOk(c, s)
    ensures forall x :: x in s.claimedBy ==> x in s'.claimedBy && s'.claimedBy[x] == s.claimedBy[x]
    ensures s.finished <= s'.finished
  {
    hide EdgeLinked, Offered, Exhausted;
    StepFrame(c, s, s', w, step);
    if step.DoClaim? {
      assert s.counter !in s.claimedBy;
    }
  }

  lemma PushedToGrows(c: Build, s: State, s': State, w: nat, step: Step, x: nat, l: nat)
    requires Inv(c, s) && Takes(c, s, s', w, step) && ClaimsOk(c, s')
    ensures PushedTo(c, s, x, l) <= PushedTo(c, s', x, l)
  {
    hide Takes, LinksOk, EntryOk, LocksOk, DegreesOk, PhaseOk;
    StepFrame(c, s, s', w, step);
    ClaimsPersist(c, s, s', w, step);
    assert PhaseOk(c, s.counter, s.maxLevel, s.workers[w]);
    PushesGrow(c, s, s', w, step, l);
    PushesBounded(c, s.counter, s.maxLevel, s.workers[w], l);
    if x in s.claimedBy && x !in s.finished {
      assert x in s'.claimedBy && s'.claimedBy[x] == s.claimedBy[x];
    }
  }

  lemma DegreesStep(c: Build, s: State, s': State, w: nat, step: Step)
    requires Inv(c, s) && Takes(c, s, s', w, step) && ClaimsOk(c, s') && LinksOk(c, s'.links)
    ensures DegreesOk(c, s')
  {
    StepFrame(c, s, s', w, step);
    forall x, l | 0 <= x < |s'.links| && 0 <= l < |s'.links[x]|
      ensures |s'.links[x][l]| <= c.Cap(l) + PushedTo(c, s', x, l)
    {
      PushedToGrows(c, s, s', w, step, x, l);
      if step.DoLinkAndPrune? {
        LinkDegree(c, s, s', w, step, x, l);
      }
    }
  }

  lemma LinkDegree(c: Build, s: State, s': State, w: nat, step: Step, x: nat, l: nat)
    requires Inv(c, s) && Takes(c, s, s', w, step) && step.DoLinkAndPrune?
    requires x < |s'.links| && l < |s'.links[x]|
    requires PushedTo(c, s, x, l) <= PushedTo(c, s', x, l)
    ensures |s'.links[x][l]| <= c.Cap(l) + PushedTo(c, s', x, l)
  {
    var p := s.workers[w];
    LinkEnds(c, s, w);
    EdgeKeepsLinks(c, s.links, s'.links, p.job.node, p.selected[p.idx], p.level, step.kept);
    assert |s.links[x][l]| <= c.Cap(l) + PushedTo(c, s, x, l);
    if x == p.job.node && l == p.level {
      OwnPushCounted(c, s, s', w, step);
    }
  }

  lemma OwnPushCounted(c: Build, s: State, s': State, w: nat, step: Step)
    requires Takes(c, s, s', w, step) && step.DoLinkAndPrune?
    requires var node := s.workers[w].job.node;
      node in s.claimedBy && s.claimedBy[node] == w && node !in s.finished
    ensures var p := s.workers[w];
      PushedTo(c, s', p.job.node, p.level) == PushedTo(c, s, p.job.node, p.level) + 1
  {
  }

  // ---------- Claims, locks, entry ----------

  /** Whether the step ends the insertion it belongs to. */
  ghost predicate Finishes(s: State, s': State, w: nat)
    requires w < |s.workers| && w < |s'.workers|
  {
    s.workers[w].Working() && s'.workers[w].Idle?
  }

  lemma NodeKept(c: Build, s: State, s': State, w: nat, step: Step)
    requires Takes(c, s, s', w, step) && !step.DoClaim?
    ensures w < |s'.workers| && s.workers[w].Working()
    ensures Finishes(s, s', w) ==> s'.finished == s.finished + {s.workers[w].Node()}
    ensures !Finishes(s, s', w) ==>
      s'.workers[w].Working() && s'.workers[w].Node() == s.workers[w].Node() && s'.finished == s.finished
  {
    hide EdgeLinked, Offered, Exhausted;
    match step
    case DoClaim =>
    case DoReadEntry =>
    case DoGreedyCopy =>
    case DoGreedyScore =>
    case DoPopBest(_) =>
    case DoCopyList =>
    case DoScoreNext(_, _) =>
    case DoFinishSearch(_) =>
    case DoLevelDone =>
    case DoNextEdge =>
    case DoLockLow =>
    case DoLockHigh =>
    case DoLinkAndPrune(_, _) =>
    case DoUnlockHigh =>
    case DoUnlockLow =>
    case DoTakeEntry =>
    case DoPromote =>
  }

  lemma ClaimsStep(c: Build, s: State, s': State, w: nat, step: Step)
    requires Inv(c, s) && Takes(c, s, s', w, step)
    ensures ClaimsOk(c, s')
  {
    StepFrame(c, s, s', w, step);
    if step.DoClaim? {
      ClaimKeepsClaims(c, s, s', w);
    } else {
      NodeKept(c, s, s', w, step);
      WorkKeepsClaims(c, s, s', w);
    }
  }

  lemma ClaimKeepsClaims(c: Build, s: State, s': State, w: nat)
    requires c.Valid() && ClaimsOk(c, s) && w < |s.workers| && Claim(c, s, s', w)
    ensures ClaimsOk(c, s')
  {
    assert s.counter !in s.claimedBy;
  }

  lemma WorkKeepsClaims(c: Build, s: State, s': State, w: nat)
    requires ClaimsOk(c, s) && w < |s.workers| == |s'.workers| && s.workers[w].Working()
    requires s'.workers == s.workers[w := s'.workers[w]]
    requires s'.counter == s.counter && s'.claimedBy == s.claimedBy
    requires Finishes(s, s', w) ==> s'.finished == s.finished + {s.workers[w].Node()}
    requires !Finishes(s, s', w) ==>
      s'.workers[w].Working() && s'.workers[w].Node() == s.workers[w].Node() && s'.finished == s.finished
    ensures ClaimsOk(c, s')
  {
    var x0 := s.workers[w].Node();
    assert s.claimedBy[x0] == w;
    forall x | x in s'.claimedBy && x !in s'.finished
      ensures s'.claimedBy[x] < |s'.workers| && s'.workers[s'.claimedBy[x]].Working() && s'.workers[s'.claimedBy[x]].Node() == x
    {
      assert s.workers[s.claimedBy[x]].Node() == x;
    }
    forall v | 0 <= v < |s'.workers| && s'.workers[v].Working()
      ensures s'.workers[v].Node() in s'.claimedBy && s'.claimedBy[s'.workers[v].Node()] == v
      ensures s'.workers[v].Node() !in s'.finished
    {
      if v != w {
        assert s.claimedBy[s.workers[v].Node()] == v;
      }
    }
  }

  ghost predicate MovesLocks(step: Step) {
    step.DoLockLow? || step.DoLockHigh? || step.DoUnlockHigh? || step.DoUnlockLow?
  }

  /** Steps that are not lock operations leave what the worker holds alone. */
  lemma HoldsKept(c: Build, s: State, s': State, w: nat, step: Step)
    requires Takes(c, s, s', w, step) && !MovesLocks(step)
    ensures w < |s'.workers| && s'.locks == s.locks
    ensures forall x :: s'.workers[w].Holds(x) <==> s.workers[w].Holds(x)
  {
    hide EdgeLinked, Offered, Exhausted;
  }

  lemma LowBelowHigh(c: Build, s: State, w: nat)
    requires Inv(c, s) && w < |s.workers| && s.workers[w].Linking? && !s.workers[w].stage.Ready?
    ensures s.workers[w].idx < |s.workers[w].selected| && s.workers[w].Low() < s.workers[w].High()
  {
    assert PhaseOk(c, s.counter, s.maxLevel, s.workers[w]);
  }

  lemma SameHoldsKeepLocks(s: State, s': State, w: nat)
    requires NodeLocksOk(s) && w < |s.workers| == |s'.workers| && s'.locks == s.locks
    requires s'.workers == s.workers[w := s'.workers[w]]
    requires forall x :: s'.workers[w].Holds(x) <==> s.workers[w].Holds(x)
    ensures NodeLocksOk(s')
  {
  }

  lemma TakingKeepsLocks(s: State, s': State, w: nat, node: nat)
    requires NodeLocksOk(s) && w < |s.workers| == |s'.workers| && node !in s.locks && s'.locks == s.locks[node := w]
    requires s'.workers == s.workers[w := s'.workers[w]]
    requires forall x :: s'.workers[w].Holds(x) <==> s.workers[w].Holds(x) || x == node
    ensures NodeLocksOk(s')
  {
  }

  lemma ReleasingKeepsLocks(s: State, s': State, w: nat, node: nat)
    requires NodeLocksOk(s) && w < |s.workers| == |s'.workers| && s'.locks == s.locks - {node}
    requires s.workers[w].Holds(node)
    requires s'.workers == s.workers[w := s'.workers[w]]
    requires forall x :: s'.workers[w].Holds(x) <==> s.workers[w].Holds(x) && x != node
    ensures NodeLocksOk(s')
  {
    hide Phase.Holds;
    forall x | x in s'.locks
      ensures s'.locks[x] < |s'.workers| && s'.workers[s'.locks[x]].Holds(x)
    {
      assert x in s.locks && x != node && s'.locks[x] == s.locks[x];
      assert s.workers[s.locks[x]].Holds(x);
    }
    forall v, x | 0 <= v < |s'.workers| && s'.workers[v].Holds(x)
      ensures x in s'.locks && s'.locks[x] == v
    {
      assert s.workers[v].Holds(x) && x in s.locks && s.locks[x] == v;
      assert x != node;
    }
  }

  lemma LocksStep(c: Build, s: State, s': State, w: nat, step: Step)
    requires Inv(c, s) && Takes(c, s, s', w, step)
    ensures LocksOk(s')
  {
    if MovesLocks(step) {
      LowBelowHigh(c, s, w);
    }
    LockStepOrNot(c, s, s', w, step);
    EntryLockStep(c, s, s', w, step);
  }

  lemma LockStepOrNot(c: Build, s: State, s': State, w: nat, step: Step)
    requires NodeLocksOk(s) && Takes(c, s, s', w, step)
    requires MovesLocks(step) ==>
      s.workers[w].Linking? && s.workers[w].idx < |s.workers[w].selected| && s.workers[w].Low() < s.workers[w].High()
    ensures NodeLocksOk(s')
  {
    if MovesLocks(step) {
      LockMoves(c, s, s', w, step);
    } else {
      StepFrame(c, s, s', w, step);
      HoldsKept(c, s, s', w, step);
      SameHoldsKeepLocks(s, s', w);
    }
  }

  lemma LockMoves(c: Build, s: State, s': State, w: nat, step: Step)
    requires NodeLocksOk(s) && Takes(c, s, s', w, step) && MovesLocks(step)
    requires s.workers[w].idx < |s.workers[w].selected| && s.workers[w].Low() < s.workers[w].High()
    ensures NodeLocksOk(s')
  {
    var p := s.workers[w];
    match step {
      case DoLockLow => TakingKeepsLocks(s, s', w, p.Low());
      case DoLockHigh => TakingKeepsLocks(s, s', w, p.High());
      case DoUnlockHigh => ReleasingKeepsLocks(s, s', w, p.High());
      case DoUnlockLow => ReleasingKeepsLocks(s, s', w, p.Low());
      case _ =>
    }
  }

  lemma EntryLockStep(c: Build, s: State, s': State, w: nat, step: Step)
    requires Inv(c, s) && Takes(c, s, s', w, step)
    ensures EntryLockOk(s')
  {
    StepFrame(c, s, s', w, step);
    HoldEntryMoves(c, s, s', w, step);
  }

  lemma HoldEntryMoves(c: Build, s: State, s': State, w: nat, step: Step)
    requires Takes(c, s, s', w, step)
    ensures w < |s'.workers|
    ensures step.DoTakeEntry? ==> s'.workers[w].HoldEntry? && s.entryWriter.None? && s'.entryWriter == Some(w)
    ensures step.DoPromote? ==> s.workers[w].HoldEntry? && !s'.workers[w].HoldEntry? && s'.entryWriter == None
    ensures !step.DoTakeEntry? && !step.DoPromote? ==> !s.workers[w].HoldEntry? && !s'.workers[w].HoldEntry?
  {
    hide EdgeLinked, Offered, Exhausted;
  }

  lemma EntryStep(c: Build, s: State, s': State, w: nat, step: Step)
    requires Inv(c, s) && Takes(c, s, s', w, step)
    ensures EntryOk(c, s')
  {
    StepFrame(c, s, s', w, step);
    assert PhaseOk(c, s.counter, s.maxLevel, s.workers[w]);
  }

  lemma StepKeepsInv(c: Build, s: State, s': State, w: nat, step: Step)
    requires Inv(c, s) && Takes(c, s, s', w, step)
    ensures Inv(c, s')
  {
    LinksStep(c, s, s', w, step);
    EntryStep(c, s, s', w, step);
    PhasesStep(c, s, s', w, step);
    LocksStep(c, s, s', w, step);
    ClaimsStep(c, s, s', w, step);
    DegreesStep(c, s, s', w, step);
  }
}
