/** Once the crowd is in, no later insertion ever meets the seed on layer 0, whatever the scheduler does; and
    so the exact condition under which the seed keeps a layer-0 neighbour. */
module HnswParallelShunned {
  import opened Counting
  import opened Ranking
  import opened Neighbours
  import opened Graphs
  import opened HnswParallel
  import opened HnswParallelProof
  import opened HnswParallelResults
  import opened HnswParallelEnds
  import opened HnswParallelLinked
  import opened HnswParallelSeed
  import opened HnswParallelLopsided
  import opened HnswParallelCrowd
  import opened HnswParallelLost

  /** On layer 0 nobody names the seed and it names nobody; on level 2 a way leads off it. */
  ghost predicate Shuns(links: Links) {
    && |links| >= 1 && |links[0]| >= 3 && links[0][0] == [] && links[0][2] != []
    && (forall l :: 3 <= l < |links[0]| ==> links[0][l] == [])
    && forall x :: 0 <= x < |links| && |links[x]| >= 1 ==> 0 !in links[x][0]
  }

  /** An insertion of a short node: it leaves the seed on level 2 at the latest and has it in no beam. */
  ghost predicate Below(p: Phase) {
    match p
    case GreedyFetch(_, level, cur) => level >= 1 && (level == 1 ==> cur != 0)
    case GreedyScan(_, level, cur, _, pending) =>
      && level >= 1 && (level == 1 ==> cur != 0)
      && (level == 2 && cur == 0 ==> pending != [] && pending[0] != 0)
    case Pop(_, level, _, h) => level == 0 && 0 !in h.seen
    case Fetch(_, level, _, h, cand) => level == 0 && 0 !in h.seen && cand != 0
    case Scan(_, level, _, h, pending) => level == 0 && 0 !in h.seen && 0 !in pending
    case Linking(_, level, _, found, selected, _, _) => level == 0 && 0 !in found && 0 !in selected
    case AskEntry(_) => false
    case HoldEntry(_) => false
    case _ => true
  }

  ghost predicate Shunned(pl: Lopsided, s: State) {
    && pl.Ok() && Shuns(s.links) && s.entry == 0 && s.maxLevel == pl.h - 1 && Among(pl.Crowd()) <= s.finished
    && forall w :: 0 <= w < |s.workers| ==> Below(s.workers[w])
  }

  /** Whoever is still inserting has a node of one level. */
  lemma WorksOnShort(pl: Lopsided, s: State, w: nat)
    requires Inv(pl.Build(), s) && Shunned(pl, s) && w < |s.workers| && s.workers[w].Working()
    ensures 0 < s.workers[w].Node() < pl.n && pl.Build().heights[s.workers[w].Node()] == 1
  {
    hide LinksOk, EntryOk, LocksOk, DegreesOk, Shuns, Below, Among;
    var x := s.workers[w].Node();
    assert PhaseOk(pl.Build(), s.counter, s.maxLevel, s.workers[w]);
    assert x !in s.finished;
    CrowdFits(pl);
    assert 1 in Among(pl.Crowd()) && pl.Crowd() in Among(pl.Crowd());
  }

  lemma SoundList(c: Build, s: State, level: nat, x: nat)
    requires Inv(c, s) && x < |s.links|
    ensures x !in LayerOf(s.links, level)[x]
  {
    hide EntryOk, PhasesOk, LocksOk, ClaimsOk, DegreesOk;
    if level < |s.links[x]| {
      assert ListOk(Heights(s.links), x, level, s.links[x][level]);
    }
  }

  lemma DescendsBelow(pl: Lopsided, s: State, s': State, w: nat, step: Step)
    requires Inv(pl.Build(), s) && Shunned(pl, s) && Takes(pl.Build(), s, s', w, step)
    requires step.DoReadEntry? || step.DoGreedyCopy?
    ensures Below(s'.workers[w])
  {
    hide LinksOk, LocksOk, ClaimsOk, DegreesOk, Among;
    var p := s.workers[w];
    WorksOnShort(pl, s, w);
    assert PhaseOk(pl.Build(), s.counter, s.maxLevel, p);
    if step.DoGreedyCopy? {
      SoundList(pl.Build(), s, p.level, p.cur);
    }
  }

  lemma ScoresBelow(pl: Lopsided, s: State, s': State, w: nat, step: Step)
    requires Inv(pl.Build(), s) && Shunned(pl, s) && Takes(pl.Build(), s, s', w, step) && step.DoGreedyScore?
    ensures Below(s'.workers[w])
  {
    hide LinksOk, LocksOk, ClaimsOk, DegreesOk, Among, Shuns;
    var p := s.workers[w];
    WorksOnShort(pl, s, w);
    Scores(pl, p.job.node);
    assert PhaseOk(pl.Build(), s.counter, s.maxLevel, p);
    if p.pending != [] {
      assert p.pending[0] in Elements(p.pending);
    } else if !p.improved && p.level == 1 {
      assert Elements([p.cur]) == {p.cur};
    }
  }

  lemma SearchesBelow(pl: Lopsided, s: State, s': State, w: nat, step: Step)
    requires Inv(pl.Build(), s) && Shunned(pl, s) && Takes(pl.Build(), s, s', w, step) && Searches(step)
    ensures Below(s'.workers[w])
  {
    hide LinksOk, EntryOk, LocksOk, ClaimsOk, DegreesOk, Among, Exhausted;
    var c, p := pl.Build(), s.workers[w];
    assert Below(p) && PhaseOk(c, s.counter, s.maxLevel, p);
    if step.DoFinishSearch? {
      var cs := WithScores(step.found, c.Score(p.job.node));
      assert Nodes(cs) == step.found;
      SelectSizes(c.rows, c.walk, cs, c.Cap(p.level));
      assert 0 !in Elements(step.found);
    }
  }

  lemma ReturnsBelow(pl: Lopsided, s: State, s': State, w: nat)
    requires Inv(pl.Build(), s) && Shunned(pl, s) && Takes(pl.Build(), s, s', w, DoLevelDone)
    ensures Below(s'.workers[w]) && s'.entry == s.entry && s'.maxLevel == s.maxLevel && s.finished <= s'.finished
  {
    hide LinksOk, LocksOk, DegreesOk, Among, Shuns;
    assert Below(s.workers[w]) && PhaseOk(pl.Build(), s.counter, s.maxLevel, s.workers[w]);
    WorksOnShort(pl, s, w);
  }

  lemma OthersBelow(pl: Lopsided, s: State, s': State, w: nat, step: Step)
    requires Shunned(pl, s) && Takes(pl.Build(), s, s', w, step)
    requires step.DoClaim? || Edges(step) || step.DoLinkAndPrune? || step.DoTakeEntry? || step.DoPromote?
    ensures Below(s'.workers[w]) && s'.entry == s.entry && s'.maxLevel == s.maxLevel && s.finished <= s'.finished
  {
    hide Among, EdgeLinked, Shuns;
    assert Below(s.workers[w]);
  }

  /** An edge on layer 0 between two nodes that are not the seed. */
  lemma EdgeShuns(c: Build, before: Links, after: Links, node: nat, nbr: nat, kept: seq<nat>)
    requires c.Valid() && LinksOk(c, before) && Shuns(before) && node != nbr && node != 0 && nbr != 0
    requires c.On(node, 0) && c.On(nbr, 0) && EdgeLinked(c, before, after, node, nbr, 0, kept)
    ensures Shuns(after)
  {
    EdgeKeepsLinks(c, before, after, node, nbr, 0, kept);
    EdgeNames(c, before, after, node, nbr, 0, kept);
  }

  lemma LinksShun(pl: Lopsided, s: State, s': State, w: nat, step: Step)
    requires Inv(pl.Build(), s) && Shunned(pl, s) && Takes(pl.Build(), s, s', w, step)
    ensures Shuns(s'.links)
  {
    hide EntryOk, LocksOk, DegreesOk, Among, EdgeLinked, Shuns;
    var c := pl.Build();
    StepFrame(c, s, s', w, step);
    if step.DoLinkAndPrune? {
      var p := s.workers[w];
      assert Below(p);
      LinkEnds(c, s, w);
      InsertsNotSeed(c, s, w);
      EdgeShuns(c, s.links, s'.links, p.job.node, p.selected[p.idx], step.kept);
    }
  }

  lemma StepShuns(pl: Lopsided, s: State, s': State, w: nat, step: Step)
    requires Inv(pl.Build(), s) && Shunned(pl, s) && Takes(pl.Build(), s, s', w, step)
    ensures Shunned(pl, s')
  {
    hide Inv, Takes, Below, Shuns, Among;
    StepFrame(pl.Build(), s, s', w, step);
    LinksShun(pl, s, s', w, step);
    match step
    case DoReadEntry => DescendsBelow(pl, s, s', w, step);
    case DoGreedyCopy => DescendsBelow(pl, s, s', w, step);
    case DoGreedyScore => ScoresBelow(pl, s, s', w, step);
    case DoPopBest(_) => SearchesBelow(pl, s, s', w, step);
    case DoCopyList => SearchesBelow(pl, s, s', w, step);
    case DoScoreNext(_, _) => SearchesBelow(pl, s, s', w, step);
    case DoFinishSearch(_) => SearchesBelow(pl, s, s', w, step);
    case DoLevelDone => ReturnsBelow(pl, s, s', w);
    case _ => OthersBelow(pl, s, s', w, step);
  }

  lemma {:induction false} RunsShun(pl: Lopsided, run: seq<State>, i: nat, j: nat)
    requires pl.Build().Valid() && IsRun(pl.Build(), run) && i <= j < |run| && Shunned(pl, run[i])
    ensures Shunned(pl, run[j])
    decreases j
  {
    hide Next, Shunned, Inv;
    if i < j {
      RunsShun(pl, run, i, j - 1);
      RunsKeepInv(pl.Build(), run, j - 1);
      assert Next(pl.Build(), run[j - 1], run[j]);
      NextShuns(pl, run[j - 1], run[j]);
    }
  }

  lemma NextShuns(pl: Lopsided, s: State, s': State)
    requires Inv(pl.Build(), s) && Shunned(pl, s) && Next(pl.Build(), s, s')
    ensures Shunned(pl, s')
  {
    hide Inv, Takes, Shunned;
    var w, step :| Takes(pl.Build(), s, s', w, step);
    StepShuns(pl, s, s', w, step);
  }

  // ---------- The whole run ----------

  lemma CrowdShuns(pl: Lopsided, s0: State, s: State, mid: Tall)
    requires CrowdDone(pl, s0, s, mid)
    ensures Shunned(pl, s)
  {
    hide Leads, Among;
    forall x | 0 <= x < |s.links| && |s.links[x]| >= 1
      ensures 0 !in s.links[x][0]
    {
      assert ListWithin(s.links[x][0], x, pl.Crowd());
    }
    assert ListWithin(s.links[0][0], 0, pl.Crowd());
  }

  lemma CrowdComesIn(pl: Lopsided, workers: nat) returns (s: State)
    requires pl.Ok() && workers >= 2
    ensures Leads(pl.Build(), Opening(pl, workers), s) && Shunned(pl, s)
  {
    hide Leads, Upper, Clique, Within, Among, Shunned;
    CrowdFits(pl);
    var s0 := Opening(pl, workers);
    OpeningScene(pl, workers);
    var s1 := FirstComes(pl, s0);
    assert Among(1) - {1} == {};
    var k := pl.Crowd() - 1;
    var s2 := ShortsCome(pl, s0, s1, 1);
    var s3 := LastComes(pl, s0, s2, k);
    var s4, mid := FirstFinishes(pl, s0, s3, k);
    s := LastFinishes(pl, s0, s4, k, mid);
    CrowdShuns(pl, s0, s, mid);
  }

  /** For any number of rows, and any beam and cap that leave one node out, any number of workers from two up
      can join with the seed alone on layer 0. */
  lemma SeedIsLost(pl: Lopsided, workers: nat) returns (run: seq<State>)
    requires pl.Ok() && workers >= 2
    ensures pl.Build().Valid() && IsRun(pl.Build(), run) && |run[0].workers| == workers
    ensures Joined(run[|run| - 1]) && !OnLayer0(run[|run| - 1].links, 0)
  {
    hide Next, Initial, Shunned;
    OpeningScene(pl, workers);
    var s := CrowdComesIn(pl, workers);
    var path :| IsPath(pl.Build(), path) && path[0] == Opening(pl, workers) && path[|path| - 1] == s;
    assert IsRun(pl.Build(), path);
    run := RunsGoOnToJoin(pl.Build(), path);
    assert run[|path| - 1] == run[..|path|][|path| - 1] == s && run[0] == run[..|path|][0];
    RunsShun(pl, run, |path| - 1, |run| - 1);
    NotOnLayer0(pl, run[|run| - 1]);
  }

  lemma NotOnLayer0(pl: Lopsided, s: State)
    requires Shunned(pl, s)
    ensures !OnLayer0(s.links, 0)
  {
  }

  // ---------- The exact condition ----------

  /** Builds of `n` rows with these settings and the seed on `h` levels. */
  ghost predicate Built(c: Build, h: nat, ef: nat, m: nat, n: nat) {
    c.Valid() && |c.rows| == n >= 1 && c.heights[0] == h && c.ef == ef && c.m == m && c.mMax0 == 2 * m
  }

  /** Whatever the rows, the metric, the other levels, the workers and their schedule, the seed ends with a
      layer-0 neighbour. */
  ghost predicate SeedIsSafe(h: nat, ef: nat, m: nat, n: nat) {
    forall c: Build, run: seq<State> :: Built(c, h, ef, m, n) && IsRun(c, run) && Joined(run[|run| - 1]) ==>
      OnLayer0(run[|run| - 1].links, 0)
  }

  /** The seed is safe exactly when it occupies at most two levels, or beams hold one node, or both the beam
      and the layer-0 lists have room for every node. A cap of one goes with one level. */
  lemma SeedIsSafeIff(h: nat, ef: nat, m: nat, n: nat)
    requires h >= 1 && ef >= 1 && n >= 2 && m >= 1 && (m == 1 ==> h == 1)
    ensures SeedIsSafe(h, ef, m, n) <==> h <= 2 || ef == 1 || Min(ef, 2 * m) >= n
  {
    hide Initial, Next, OnLayer0, Joined, Lopsided.Build;
    if h <= 2 || ef == 1 || Min(ef, 2 * m) >= n {
      forall c: Build, run: seq<State> | Built(c, h, ef, m, n) && IsRun(c, run) && Joined(run[|run| - 1])
        ensures OnLayer0(run[|run| - 1].links, 0)
      {
        SureSeedIsLinked(c, run);
      }
    } else {
      var pl := Lopsided(h, ef, m, n);
      var run := SeedIsLost(pl, 2);
      assert Built(pl.Build(), h, ef, m, n);
    }
  }
}
