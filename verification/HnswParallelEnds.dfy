/** The parallel builder ends whatever the scheduler does: every step of every worker uses up a measure
    fixed by the build, so every run is short, and one that cannot go on has joined. */
module HnswParallelEnds {
  import opened Counting
  import opened Ranking
  import opened Neighbours
  import opened Graphs
  import opened HnswParallel
  import opened HnswParallelProof
  import opened HnswParallelResults

  // ---------- What is left of one insertion ----------

  function Tallest(heights: seq<nat>): (t: nat)
    ensures forall x :: 0 <= x < |heights| ==> heights[x] <= t
  {
    if heights == [] then 0
    else
      var rest := Tallest(heights[..|heights| - 1]);
      if rest < heights[|heights| - 1] then heights[|heights| - 1] else rest
  }

  ghost function Better(n: nat, f: nat -> real, cur: nat): set<nat> {
    set x: nat | x < n && f(x) > f(cur)
  }

  function IdsBelow(n: nat): (ids: set<nat>)
    ensures |ids| == n && forall x :: x in ids <==> 0 <= x < n
  {
    if n == 0 then {} else IdsBelow(n - 1) + {n - 1}
  }

  /** More than the steps an insertion can take on one level of a build of `n` nodes. */
  function LevelSteps(n: nat): nat {
    (n + 3) * n + 7 * n + 9
  }

  function StageRank(stage: Stage): nat {
    match stage
    case Ready => 5
    case WantLow => 4
    case WantHigh => 3
    case HoldBoth => 2
    case Linked => 1
    case HoldLow => 0
  }

  /** What is kept for the levels below `level`. */
  function LevelRank(level: nat, n: nat): nat {
    level * LevelSteps(n)
  }

  /** `n + 3` steps for each node still to be moved to or expanded. */
  function NodeRank(nodes: nat, n: nat): nat {
    (n + 3) * nodes
  }

  /** Nodes not yet seen and candidates not yet expanded, `n + 3` steps for each. */
  ghost function BeamRank(n: nat, h: Heaps): nat {
    6 * n + 6 + NodeRank((if |h.seen| <= n then n - |h.seen| else 0) + |h.candidates|, n)
  }

  /** A bound on the steps a worker has left until it next asks for a node. */
  ghost function Rank(c: Build, p: Phase): nat {
    var n := |c.rows|;
    match p
    case Done => 0
    case Idle => 1
    case HoldEntry(_) => 2
    case AskEntry(_) => 3
    case Linking(_, level, _, _, selected, idx, stage) =>
      LevelRank(level, n) + 6 * (if idx <= |selected| then |selected| - idx else 0) + StageRank(stage)
    case Pop(_, level, _, h) => LevelRank(level, n) + BeamRank(n, h)
    case Fetch(_, level, _, h, _) => LevelRank(level, n) + BeamRank(n, h) + n + 2
    case Scan(_, level, _, h, pending) => LevelRank(level, n) + BeamRank(n, h) + |pending| + 1
    case GreedyFetch(job, level, cur) =>
      LevelRank(level, n) + NodeRank(|Better(n, c.Score(job.node), cur)|, n) + n + 2
    case GreedyScan(job, level, cur, improved, pending) =>
      LevelRank(level, n) + NodeRank(|Better(n, c.Score(job.node), cur)| + if improved then 1 else 0, n) + |pending| + 1
    case Start(_) => LevelRank(Tallest(c.heights), n)
  }

  lemma AtMost(xs: set<nat>, n: nat)
    requires forall x :: x in xs ==> x < n
    ensures |xs| <= n
  {
    assert xs <= IdsBelow(n);
    SubsetCount(xs, IdsBelow(n));
  }

  lemma BetterFalls(n: nat, f: nat -> real, cur: nat, nbr: nat)
    requires nbr < n && f(nbr) > f(cur)
    ensures |Better(n, f, nbr)| < |Better(n, f, cur)|
  {
    SubsetCount(Better(n, f, nbr) + {nbr}, Better(n, f, cur));
  }

  lemma ListIsShort(c: Build, links: Links, level: nat, x: nat)
    requires LinksOk(c, links) && |c.rows| == |c.heights| && x < |links|
    ensures |LayerOf(links, level)[x]| <= |c.rows|
  {
    var list := LayerOf(links, level)[x];
    if level < |links[x]| {
      assert ListOk(Heights(links), x, level, list);
      DistinctSize(list);
      AtMost(Elements(list), |c.rows|);
    }
  }

  lemma LevelRankGrows(a: nat, b: nat, n: nat)
    requires a < b
    ensures LevelRank(a, n) + LevelSteps(n) <= LevelRank(b, n)
  {
    assert (b - a - 1) * LevelSteps(n) >= 0;
  }

  lemma NodeRankGrows(a: nat, b: nat, n: nat)
    requires a <= b
    ensures NodeRank(a, n) <= NodeRank(b, n)
    ensures a < b ==> NodeRank(a, n) + n + 3 <= NodeRank(b, n)
  {
    Distribute(n + 3, a, b - a);
    if a < b {
      Distribute(n + 3, 1, b - a - 1);
    }
  }

  lemma Distribute(k: nat, a: nat, d: nat)
    ensures k * (a + d) == k * a + k * d >= k * a
  {
  }

  lemma LevelStepsSuffice(n: nat)
    ensures LevelSteps(n) == NodeRank(n, n) + 7 * n + 9
  {
  }

  /** Going down a level pays for everything there. */
  lemma DescentRank(c: Build, job: Job, level: nat, ep: nat, above: nat)
    requires c.Valid() && job.node < |c.heights| && level < above
    requires level <= job.top && (level == job.top || level + 1 >= c.heights[job.node])
    ensures Rank(c, AfterDescent(c, job, level, ep)) < LevelRank(above, |c.rows|)
  {
    var n := |c.rows|;
    if level > c.heights[job.node] - 1 {
      AtMost(Better(n, c.Score(job.node), ep), n);
      NodeRankGrows(|Better(n, c.Score(job.node), ep)|, n, n);
      LevelRankGrows(level, above, n);
      LevelStepsSuffice(n);
    } else {
      var low := Min(c.heights[job.node] - 1, job.top);
      ElementsSize([ep]);
      SearchRank(c, job, low, ep, [ep], above);
    }
  }

  lemma SearchRank(c: Build, job: Job, level: nat, ep: nat, starts: seq<nat>, above: nat)
    requires level < above && |Elements(starts)| <= |c.rows|
    ensures Rank(c, SearchFrom(job, level, ep, starts)) < LevelRank(above, |c.rows|)
  {
    hide LevelRank, LevelSteps, NodeRank;
    ElementsSize(starts);
    LevelRankGrows(level, above, |c.rows|);
    LevelStepsSuffice(|c.rows|);
    NodeRankGrows(|Elements(starts)|, |c.rows|, |c.rows|);
  }

  // ---------- Every step uses some of it up ----------

  lemma GreedyRankFalls(c: Build, s: State, s': State, w: nat, step: Step)
    requires Inv(c, s) && Takes(c, s, s', w, step) && (step.DoReadEntry? || step.DoGreedyCopy? || step.DoGreedyScore?)
    ensures Rank(c, s'.workers[w]) < Rank(c, s.workers[w])
  {
    hide LinksOk, LocksOk, ClaimsOk, DegreesOk, LevelRank, NodeRank;
    var p, n := s.workers[w], |c.rows|;
    assert PhaseOk(c, s.counter, s.maxLevel, p);
    if step.DoReadEntry? {
      DescentRank(c, Job(p.node, s.maxLevel), s.maxLevel, s.entry, Tallest(c.heights));
    } else if step.DoGreedyCopy? {
      ListIsShort(c, s.links, p.level, p.cur);
    } else if p.pending != [] {
      assert p.pending[0] in Elements(p.pending);
      GreedyScoreFalls(c, p, s'.workers[w]);
    } else if p.improved {
      var k := |Better(n, c.Score(p.job.node), p.cur)|;
      NodeRankGrows(k, k + 1, n);
    } else {
      DescentRank(c, p.job, p.level - 1, p.cur, p.level);
    }
  }

  lemma GreedyScoreFalls(c: Build, p: Phase, q: Phase)
    requires p.GreedyScan? && p.pending != [] && p.pending[0] < |c.rows|
    requires var nbr, f := p.pending[0], c.Score(p.job.node);
      var better := f(nbr) > f(p.cur);
      q == GreedyScan(p.job, p.level, if better then nbr else p.cur, p.improved || better, p.pending[1..])
    ensures Rank(c, q) < Rank(c, p)
  {
    hide LevelRank, NodeRank;
    var n, f := |c.rows|, c.Score(p.job.node);
    if f(p.pending[0]) > f(p.cur) {
      BetterFalls(n, f, p.cur, p.pending[0]);
      var before := |Better(n, f, p.cur)| + if p.improved then 1 else 0;
      NodeRankGrows(|Better(n, f, q.cur)| + 1, before, n);
    }
  }

  lemma OfferSizes(h: Heaps, h': Heaps, ef: nat, f: nat -> real, nbr: nat, dropped: nat)
    requires Offered(h, h', ef, f, nbr, dropped) && nbr !in h.seen
    ensures h'.seen == h.seen + {nbr} && |h'.seen| == |h.seen| + 1 && |h'.candidates| <= |h.candidates| + 1
  {
  }

  lemma OfferRank(n: nat, h: Heaps, h': Heaps, ef: nat, f: nat -> real, nbr: nat, dropped: nat)
    requires Offered(h, h', ef, f, nbr, dropped) && nbr < n && forall x :: x in h.seen ==> x < n
    ensures BeamRank(n, h') <= BeamRank(n, h)
  {
    hide NodeRank;
    if nbr !in h.seen {
      OfferSizes(h, h', ef, f, nbr, dropped);
      AtMost(h'.seen, n);
      hide Offered;
      NodeRankGrows(n - |h'.seen| + |h'.candidates|, n - |h.seen| + |h.candidates|, n);
    }
  }

  lemma PopRankFalls(c: Build, s: State, s': State, w: nat, step: Step)
    requires Takes(c, s, s', w, step) && step.DoPopBest?
    ensures Rank(c, s'.workers[w]) < Rank(c, s.workers[w])
  {
    hide LevelRank, NodeRank, Exhausted;
    var h, n := s.workers[w].heaps, |c.rows|;
    assert |h.candidates - {step.cand}| == |h.candidates| - 1;
    var free := if |h.seen| <= n then n - |h.seen| else 0;
    NodeRankGrows(free + |h.candidates| - 1, free + |h.candidates|, n);
  }

  lemma CopyRankFalls(c: Build, s: State, s': State, w: nat)
    requires Inv(c, s) && Takes(c, s, s', w, DoCopyList)
    ensures Rank(c, s'.workers[w]) < Rank(c, s.workers[w])
  {
    hide LocksOk, ClaimsOk, DegreesOk, PhasesOk, EntryOk, LevelRank, BeamRank;
    ListIsShort(c, s.links, s.workers[w].level, s.workers[w].cand);
  }

  lemma ScoreRankFalls(c: Build, s: State, s': State, w: nat, step: Step)
    requires Inv(c, s) && Takes(c, s, s', w, step) && step.DoScoreNext?
    ensures Rank(c, s'.workers[w]) < Rank(c, s.workers[w])
  {
    hide LinksOk, LocksOk, ClaimsOk, DegreesOk, EntryOk, LevelRank, BeamRank, Offered;
    var p := s.workers[w];
    assert PhaseOk(c, s.counter, s.maxLevel, p);
    if p.pending != [] {
      assert p.pending[0] in Elements(p.pending);
      OfferRank(|c.rows|, p.heaps, step.h, c.ef, c.Score(p.job.node), p.pending[0], step.dropped);
    }
  }

  lemma FinishRankFalls(c: Build, s: State, s': State, w: nat, step: Step)
    requires Inv(c, s) && Takes(c, s, s', w, step) && step.DoFinishSearch?
    ensures Rank(c, s'.workers[w]) < Rank(c, s.workers[w])
  {
    hide LinksOk, LocksOk, ClaimsOk, DegreesOk, LevelRank, NodeRank, Exhausted;
    var p, n := s.workers[w], |c.rows|;
    assert PhaseOk(c, s.counter, s.maxLevel, p);
    var cs := WithScores(step.found, c.Score(p.job.node));
    assert Nodes(cs) == step.found;
    SelectSizes(c.rows, c.walk, cs, c.Cap(p.level));
    DistinctSize(step.found);
    AtMost(p.heaps.result, n);
  }

  lemma LinkingRankFalls(c: Build, s: State, s': State, w: nat, step: Step)
    requires Inv(c, s) && Takes(c, s, s', w, step)
    requires step.DoNextEdge? || step.DoLockLow? || step.DoLockHigh? || step.DoLinkAndPrune? || step.DoUnlockHigh?
      || step.DoUnlockLow? || step.DoTakeEntry? || step.DoPromote?
    ensures Rank(c, s'.workers[w]) < Rank(c, s.workers[w])
  {
    hide LinksOk, LocksOk, ClaimsOk, DegreesOk, LevelRank, NodeRank, EdgeLinked;
    assert PhaseOk(c, s.counter, s.maxLevel, s.workers[w]);
  }

  lemma LevelDoneRankFalls(c: Build, s: State, s': State, w: nat)
    requires Inv(c, s) && Takes(c, s, s', w, DoLevelDone)
    ensures Rank(c, s'.workers[w]) < Rank(c, s.workers[w])
  {
    hide LinksOk, LocksOk, ClaimsOk, DegreesOk, LevelRank, NodeRank;
    var p := s.workers[w];
    assert PhaseOk(c, s.counter, s.maxLevel, p);
    if p.level > 0 {
      var starts := if p.found == [] then [p.ep] else p.found;
      AtMost(Elements(starts), |c.rows|);
      SearchRank(c, p.job, p.level - 1, p.ep, starts, p.level);
    }
  }

  lemma RankFalls(c: Build, s: State, s': State, w: nat, step: Step)
    requires Inv(c, s) && Takes(c, s, s', w, step) && !step.DoClaim?
    ensures w < |s.workers| == |s'.workers| && Rank(c, s'.workers[w]) < Rank(c, s.workers[w])
  {
    hide Inv, Takes, Rank;
    StepFrame(c, s, s', w, step);
    match step
    case DoReadEntry => GreedyRankFalls(c, s, s', w, step);
    case DoGreedyCopy => GreedyRankFalls(c, s, s', w, step);
    case DoGreedyScore => GreedyRankFalls(c, s, s', w, step);
    case DoPopBest(_) => PopRankFalls(c, s, s', w, step);
    case DoCopyList => CopyRankFalls(c, s, s', w);
    case DoScoreNext(_, _) => ScoreRankFalls(c, s, s', w, step);
    case DoFinishSearch(_) => FinishRankFalls(c, s, s', w, step);
    case DoLevelDone => LevelDoneRankFalls(c, s, s', w);
    case _ => LinkingRankFalls(c, s, s', w, step);
  }

  // ---------- What is left of the build ----------

  ghost function Ranks(c: Build, workers: seq<Phase>): nat {
    if workers == [] then 0 else Ranks(c, workers[..|workers| - 1]) + Rank(c, workers[|workers| - 1])
  }

  lemma {:induction false} RanksOfOne(c: Build, workers: seq<Phase>, w: nat, p: Phase)
    requires w < |workers|
    ensures Ranks(c, workers[w := p]) == Ranks(c, workers) - Rank(c, workers[w]) + Rank(c, p)
  {
    var last := |workers| - 1;
    if w == last {
      assert workers[w := p][..last] == workers[..last];
    } else {
      RanksOfOne(c, workers[..last], w, p);
      assert workers[w := p][..last] == workers[..last][w := p];
    }
  }

  function Unclaimed(c: Build, counter: nat): nat {
    if counter < |c.rows| then |c.rows| - counter else 0
  }

  ghost function StepsLeft(c: Build, s: State): nat {
    Ranks(c, s.workers) + LevelRank(Tallest(c.heights), |c.rows|) * Unclaimed(c, s.counter)
  }

  lemma ClaimPays(c: Build, s: State, s': State, w: nat)
    requires c.Valid() && Takes(c, s, s', w, DoClaim)
    ensures StepsLeft(c, s') < StepsLeft(c, s)
  {
    hide LevelRank, NodeRank;
    StepFrame(c, s, s', w, DoClaim);
    RanksOfOne(c, s.workers, w, s'.workers[w]);
    if s.counter < |c.rows| {
      Distribute(LevelRank(Tallest(c.heights), |c.rows|), Unclaimed(c, s'.counter), 1);
    }
  }

  /** No step of any worker is idle. */
  lemma StepsRunOut(c: Build, s: State, s': State, w: nat, step: Step)
    requires Inv(c, s) && Takes(c, s, s', w, step)
    ensures StepsLeft(c, s') < StepsLeft(c, s)
  {
    hide Takes, Inv, Rank, LevelRank;
    StepFrame(c, s, s', w, step);
    if step.DoClaim? {
      InvIsValid(c, s);
      ClaimPays(c, s, s', w);
    } else {
      RankFalls(c, s, s', w, step);
      RanksOfOne(c, s.workers, w, s'.workers[w]);
    }
  }

  lemma InvIsValid(c: Build, s: State)
    requires Inv(c, s)
    ensures c.Valid()
  {
    hide LinksOk, EntryOk, PhasesOk, LocksOk, ClaimsOk, DegreesOk;
  }

  lemma {:induction false} RunUsesSteps(c: Build, run: seq<State>, i: nat)
    requires c.Valid() && IsRun(c, run) && i < |run|
    ensures i + StepsLeft(c, run[i]) <= StepsLeft(c, run[0])
  {
    hide Next, Initial, StepsLeft;
    if i > 0 {
      RunUsesSteps(c, run, i - 1);
      RunsKeepInv(c, run, i - 1);
      assert Next(c, run[i - 1], run[i]);
      StepUsesSteps(c, run[i - 1], run[i]);
    }
  }

  lemma StepUsesSteps(c: Build, s: State, s': State)
    requires Inv(c, s) && Next(c, s, s')
    ensures StepsLeft(c, s') < StepsLeft(c, s)
  {
    hide Takes, Inv, StepsLeft;
    var w, step :| Takes(c, s, s', w, step);
    StepsRunOut(c, s, s', w, step);
  }

  /** The longest a build can run: one insertion for each node but the seed, and a last claim for each
      worker. */
  function LongestRun(c: Build, workers: nat): nat
    requires c.Valid()
  {
    workers + LevelRank(Tallest(c.heights), |c.rows|) * (|c.rows| - 1) + 1
  }

  lemma {:induction false} IdleRanks(c: Build, workers: seq<Phase>)
    requires forall w :: 0 <= w < |workers| ==> workers[w] == Idle
    ensures Ranks(c, workers) == |workers|
  {
    if workers != [] {
      IdleRanks(c, workers[..|workers| - 1]);
    }
  }

  /** Every run is finite, with a bound fixed by the build: no scheduling starves a worker for ever. */
  lemma RunsAreShort(c: Build, run: seq<State>)
    requires c.Valid() && IsRun(c, run)
    ensures |run| <= LongestRun(c, |run[0].workers|)
  {
    hide LevelRank, NodeRank;
    RunUsesSteps(c, run, |run| - 1);
    IdleRanks(c, run[0].workers);
  }

  ghost predicate Stuck(c: Build, s: State) {
    forall s' :: !Next(c, s, s')
  }

  /** A run that cannot go on has joined. */
  lemma MaximalRunsJoin(c: Build, run: seq<State>)
    requires c.Valid() && IsRun(c, run) && run[0].workers != []
    requires Stuck(c, run[|run| - 1])
    ensures Joined(run[|run| - 1])
  {
    hide Next;
    SameWorkers(c, run, |run| - 1);
    var s := run[|run| - 1];
    forall w | 0 <= w < |s.workers|
      ensures s.workers[w] == Done
    {
      if s.workers[w] != Done {
        var mover := DeadlockFree(c, run, |run| - 1, w);
        MoverMoves(c, s, mover);
      }
    }
  }

  lemma MoverMoves(c: Build, s: State, w: nat)
    requires CanStep(c, s, w)
    ensures !Stuck(c, s)
  {
    var step, s' :| Takes(c, s, s', w, step);
    assert Next(c, s, s');
  }

  lemma {:induction false} SameWorkers(c: Build, run: seq<State>, i: nat)
    requires IsRun(c, run) && i < |run|
    ensures |run[i].workers| == |run[0].workers|
  {
    if i > 0 {
      SameWorkers(c, run, i - 1);
      assert Next(c, run[i - 1], run[i]);
    }
  }

  /** Every run, however it was scheduled so far, goes on to a join. */
  lemma {:induction false} RunsGoOnToJoin(c: Build, run: seq<State>) returns (full: seq<State>)
    requires c.Valid() && IsRun(c, run) && run[0].workers != []
    ensures IsRun(c, full) && |run| <= |full| && full[..|run|] == run && Joined(full[|full| - 1])
    decreases LongestRun(c, |run[0].workers|) - |run|
  {
    hide Next, Initial, LongestRun;
    RunsAreShort(c, run);
    if Joined(run[|run| - 1]) {
      full := run;
    } else {
      var s := run[|run| - 1];
      if Stuck(c, s) {
        MaximalRunsJoin(c, run);
        assert false;
      }
      var s' :| Next(c, s, s');
      var more := run + [s'];
      assert IsRun(c, more);
      RunsAreShort(c, more);
      full := RunsGoOnToJoin(c, more);
      assert run == more[..|run|] == full[..|more|][..|run|] == full[..|run|];
    }
  }
}
