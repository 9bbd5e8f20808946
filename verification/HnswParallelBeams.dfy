/** What the parallel builder's searches keep by nearness, whatever other workers write meanwhile: a beam holds the
    nearest of the nodes it has scored, and an insertion links the nearest it found first. */
module HnswParallelBeams {
  import opened Counting
  import opened Ranking
  import opened Neighbours
  import opened HnswParallel
  import opened HnswParallelProof
  import opened HnswParallelResults

  /** Node `x` is at least as near to `node` as `y` is. */
  ghost predicate NoFarther(c: Build, node: nat, x: nat, y: nat) {
    && node < |c.rows| && x < |c.rows| && y < |c.rows|
    && c.walk(c.rows[node], c.rows[y]) <= c.walk(c.rows[node], c.rows[x])
  }

  /** A scored node was left out of the beam only when it was full, of nodes at least as near. */
  ghost predicate BeamBest(c: Build, node: nat, h: Heaps) {
    && h.result <= h.seen
    && (h.result != h.seen ==> |h.result| >= c.ef)
    && forall x, r :: x in h.seen && x !in h.result && r in h.result ==> NoFarther(c, node, r, x)
  }

  /** What was found is listed from near to far, and the first of it is the first to be linked. */
  ghost predicate NearestFirst(c: Build, node: nat, level: nat, found: seq<nat>, selected: seq<nat>) {
    && (forall i, j :: 0 <= i < j < |found| ==> NoFarther(c, node, found[i], found[j]))
    && |selected| == Min(c.Cap(level), |found|)
    && (found != [] ==> selected != [] && selected[0] == found[0])
  }

  ghost predicate PhaseBest(c: Build, p: Phase) {
    match p
    case Pop(job, _, _, h) => BeamBest(c, job.node, h)
    case Fetch(job, _, _, h, _) => BeamBest(c, job.node, h)
    case Scan(job, _, _, h, _) => BeamBest(c, job.node, h)
    case Linking(job, level, _, found, selected, _, _) => NearestFirst(c, job.node, level, found, selected)
    case _ => true
  }

  ghost predicate PhasesBest(c: Build, s: State) {
    forall w :: 0 <= w < |s.workers| ==> PhaseBest(c, s.workers[w])
  }

  lemma StartsBest(c: Build, job: Job, level: nat, ep: nat, starts: seq<nat>)
    ensures PhaseBest(c, SearchFrom(job, level, ep, starts))
  {
  }

  /** The builder's scores are the metric's. */
  lemma ScoresAreWalk(c: Build, node: nat, x: nat, y: nat)
    requires node < |c.rows| && x < |c.rows| && y < |c.rows|
    ensures c.Score(node)(y) <= c.Score(node)(x) <==> NoFarther(c, node, x, y)
  {
  }

  ghost predicate LeftOutIsLower(h: Heaps, ef: nat, f: nat -> real) {
    && h.result <= h.seen && (h.result != h.seen ==> |h.result| >= ef)
    && forall x, r :: x in h.seen && x !in h.result && r in h.result ==> f(x) <= f(r)
  }

  /** Offering one more node keeps the best. */
  lemma OfferKeepsOrder(h: Heaps, h': Heaps, ef: nat, f: nat -> real, nbr: nat, dropped: nat)
    requires LeftOutIsLower(h, ef, f) && Offered(h, h', ef, f, nbr, dropped)
    ensures LeftOutIsLower(h', ef, f) && h'.seen <= h.seen + {nbr}
  {
    if nbr !in h.seen && nbr in h'.result && h.result != h.seen {
      var worse :| worse in h.result && f(worse) < f(nbr);
    }
  }

  lemma BestByWalk(c: Build, node: nat, h: Heaps)
    requires node < |c.rows| && forall x :: x in h.seen ==> x < |c.rows|
    ensures BeamBest(c, node, h) <==> LeftOutIsLower(h, c.ef, c.Score(node))
  {
    var f := c.Score(node);
    if LeftOutIsLower(h, c.ef, f) {
      forall x, r | x in h.seen && x !in h.result && r in h.result
        ensures NoFarther(c, node, r, x)
      {
        ScoresAreWalk(c, node, r, x);
      }
    }
    if BeamBest(c, node, h) {
      forall x, r | x in h.seen && x !in h.result && r in h.result
        ensures f(x) <= f(r)
      {
        ScoresAreWalk(c, node, r, x);
      }
    }
  }

  lemma OfferKeepsBest(c: Build, node: nat, h: Heaps, h': Heaps, nbr: nat, dropped: nat)
    requires c.Valid() && node < |c.rows| && nbr < |c.rows| && forall x :: x in h.seen ==> x < |c.rows|
    requires BeamBest(c, node, h) && Offered(h, h', c.ef, c.Score(node), nbr, dropped)
    ensures BeamBest(c, node, h')
  {
    hide BeamBest, LeftOutIsLower, Offered;
    BestByWalk(c, node, h);
    OfferKeepsOrder(h, h', c.ef, c.Score(node), nbr, dropped);
    BestByWalk(c, node, h');
  }

  lemma FoundIsNearestFirst(c: Build, node: nat, level: nat, found: seq<nat>)
    requires c.Valid() && node < |c.rows| && Distinct(found) && Descending(found, c.Score(node))
    requires NodesBelow(WithScores(found, c.Score(node)), |c.rows|)
    ensures NearestFirst(c, node, level, found, Select(c.rows, c.walk, WithScores(found, c.Score(node)), c.Cap(level)))
  {
    var f := c.Score(node);
    var cs := WithScores(found, f);
    assert Nodes(cs) == found;
    SelectSizes(c.rows, c.walk, cs, c.Cap(level));
    if found != [] {
      FirstIsKept(c.rows, c.walk, cs, c.Cap(level));
    }
    forall i, j | 0 <= i < j < |found|
      ensures NoFarther(c, node, found[i], found[j])
    {
      assert cs[i] in cs && cs[j] in cs;
      ScoresAreWalk(c, node, found[i], found[j]);
    }
  }

  lemma OwnPhaseBest(c: Build, s: State, s': State, w: nat, step: Step)
    requires Inv(c, s) && w < |s.workers| && PhaseBest(c, s.workers[w]) && Takes(c, s, s', w, step)
    ensures PhaseBest(c, s'.workers[w])
  {
    hide Inv, PhaseBest, Takes;
    if step.DoScoreNext? || step.DoPopBest? || step.DoCopyList? {
      BeamPhaseBest(c, s, s', w, step);
    } else if step.DoFinishSearch? || step.DoReadEntry? || step.DoGreedyScore? || step.DoLevelDone? {
      NewSearchBest(c, s, s', w, step);
    } else {
      SamePhaseBest(c, s, s', w, step);
    }
  }

  lemma BeamPhaseBest(c: Build, s: State, s': State, w: nat, step: Step)
    requires Inv(c, s) && w < |s.workers| && PhaseBest(c, s.workers[w]) && Takes(c, s, s', w, step)
    requires step.DoScoreNext? || step.DoPopBest? || step.DoCopyList?
    ensures PhaseBest(c, s'.workers[w])
  {
    hide LinksOk, EntryOk, LocksOk, ClaimsOk, DegreesOk, Exhausted, Offered, BeamBest, NearestFirst;
    var p := s.workers[w];
    assert PhaseOk(c, s.counter, s.maxLevel, p);
    match step
    case DoScoreNext(h, dropped) =>
      if p.pending != [] {
        ScannedIsBelow(c, s.maxLevel, p);
        OfferKeepsBest(c, p.job.node, p.heaps, h, p.pending[0], dropped);
      }
    case DoPopBest(_) => PopKeepsBest(c, p.job.node, p.heaps, s'.workers[w].heaps);
    case DoCopyList =>
  }

  lemma NewSearchBest(c: Build, s: State, s': State, w: nat, step: Step)
    requires Inv(c, s) && w < |s.workers| && Takes(c, s, s', w, step)
    requires step.DoFinishSearch? || step.DoReadEntry? || step.DoGreedyScore? || step.DoLevelDone?
    ensures PhaseBest(c, s'.workers[w])
  {
    hide LinksOk, EntryOk, LocksOk, ClaimsOk, DegreesOk, Exhausted, BeamBest, NearestFirst;
    var p := s.workers[w];
    assert PhaseOk(c, s.counter, s.maxLevel, p);
    match step
    case DoFinishSearch(found) => FoundIsNearestFirst(c, p.job.node, p.level, found);
    case DoReadEntry => DescentBest(c, Job(p.node, s.maxLevel), s.maxLevel, s.entry);
    case DoGreedyScore => if p.level >= 1 { DescentBest(c, p.job, p.level - 1, p.cur); }
    case DoLevelDone =>
      if p.level > 0 { StartsBest(c, p.job, p.level - 1, p.ep, if p.found == [] then [p.ep] else p.found); }
    case _ =>
  }

  /** Any other step leaves what its worker has found, or leaves the search. */
  lemma SamePhaseBest(c: Build, s: State, s': State, w: nat, step: Step)
    requires w < |s.workers| && PhaseBest(c, s.workers[w]) && Takes(c, s, s', w, step)
    requires !step.DoScoreNext? && !step.DoPopBest? && !step.DoCopyList?
    requires !step.DoFinishSearch? && !step.DoReadEntry? && !step.DoGreedyScore? && !step.DoLevelDone?
    ensures PhaseBest(c, s'.workers[w])
  {
    hide EdgeLinked, BeamBest, NearestFirst;
  }

  lemma ScannedIsBelow(c: Build, maxLevel: nat, p: Phase)
    requires c.Valid() && p.Scan? && p.pending != [] && p.job.node < |c.heights|
    requires SearchOk(c, maxLevel, p.job, p.level, p.ep, p.heaps) && AllOn(c, Elements(p.pending), p.level)
    ensures p.job.node < |c.rows| && p.pending[0] < |c.rows| && forall x :: x in p.heaps.seen ==> x < |c.rows|
  {
    assert p.pending[0] in Elements(p.pending);
  }

  lemma PopKeepsBest(c: Build, node: nat, h: Heaps, h': Heaps)
    requires BeamBest(c, node, h) && h'.seen == h.seen && h'.result == h.result
    ensures BeamBest(c, node, h')
  {
  }

  lemma DescentBest(c: Build, job: Job, level: nat, ep: nat)
    requires job.node < |c.heights| && c.heights[job.node] >= 1
    ensures PhaseBest(c, AfterDescent(c, job, level, ep))
  {
  }

  lemma StepKeepsBest(c: Build, s: State, s': State, w: nat, step: Step)
    requires Inv(c, s) && PhasesBest(c, s) && Takes(c, s, s', w, step)
    ensures PhasesBest(c, s')
  {
    hide Inv, Takes, PhaseBest;
    StepFrame(c, s, s', w, step);
    OwnPhaseBest(c, s, s', w, step);
    assert forall v :: 0 <= v < |s'.workers| && v != w ==> s'.workers[v] == s.workers[v];
  }

  /** In every state of every interleaving each worker's beam holds the nearest of what it has scored, and what it
      links on a level starts with the nearest it found there. */
  lemma {:induction false} BeamsHoldTheNearest(c: Build, run: seq<State>, i: nat)
    requires c.Valid() && IsRun(c, run) && i < |run|
    ensures PhasesBest(c, run[i])
  {
    hide Inv, Takes, PhaseBest;
    if i == 0 {
      IdleIsBest(c, run[0]);
    } else {
      BeamsHoldTheNearest(c, run, i - 1);
      RunsKeepInv(c, run, i - 1);
      assert Next(c, run[i - 1], run[i]);
      var w, step :| Takes(c, run[i - 1], run[i], w, step);
      StepKeepsBest(c, run[i - 1], run[i], w, step);
    }
  }

  lemma IdleIsBest(c: Build, s: State)
    requires Initial(c, s)
    ensures PhasesBest(c, s)
  {
  }

  /** A descent moves only to nodes at least as near as where it is and as what it looked at; a search goes on from
      the nearest candidate it has. */
  lemma StepsTowardsNearest(c: Build, s: State, s': State, w: nat, step: Step)
    requires Inv(c, s) && w < |s.workers| && Takes(c, s, s', w, step)
    ensures var p, q := s.workers[w], s'.workers[w];
      && (step.DoGreedyScore? && p.pending != [] ==>
            NoFarther(c, p.job.node, q.cur, p.cur) && NoFarther(c, p.job.node, q.cur, p.pending[0]))
      && (step.DoPopBest? ==> forall x :: x in p.heaps.candidates ==> NoFarther(c, p.job.node, step.cand, x))
  {
    hide LinksOk, EntryOk, LocksOk, ClaimsOk, DegreesOk, EdgeLinked, Exhausted, Offered;
    var p := s.workers[w];
    assert PhaseOk(c, s.counter, s.maxLevel, p);
    if step.DoGreedyScore? && p.pending != [] {
      assert p.pending[0] in Elements(p.pending);
    }
  }
}
