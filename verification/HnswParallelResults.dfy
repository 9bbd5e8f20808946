/** What holds of every run of the parallel builder, and of the graph it leaves at the join. */
module HnswParallelResults {
  import opened Counting
  import opened Options
  import opened Ranking
  import opened Neighbours
  import opened Graphs
  import opened HnswIndex
  import opened HnswParallel
  import opened HnswParallelProof

  /** Every state of every interleaving of any number of workers satisfies the invariant. */
  lemma {:induction false} RunsKeepInv(c: Build, run: seq<State>, i: nat)
    requires c.Valid() && IsRun(c, run) && i < |run|
    ensures Inv(c, run[i])
  {
    if i == 0 {
      InitialInv(c, run[0]);
    } else {
      RunsKeepInv(c, run, i - 1);
      assert Next(c, run[i - 1], run[i]);
      var w, step :| Takes(c, run[i - 1], run[i], w, step);
      StepKeepsInv(c, run[i - 1], run[i], w, step);
    }
  }

  /** In every reachable state: ids in range, no self-loops or duplicates, edges only between nodes
      that occupy the level, and at most twice the cap of neighbours. */
  lemma ReachableGraphsAreSafe(c: Build, run: seq<State>, i: nat)
    requires c.Valid() && IsRun(c, run) && i < |run|
    ensures var links := run[i].links;
      && |links| == |c.rows| && Sound(links)
      && forall x, l :: 0 <= x < |links| && 0 <= l < |links[x]| ==> |links[x][l]| <= 2 * c.Cap(l)
  {
    RunsKeepInv(c, run, i);
    var s := run[i];
    forall x, l | 0 <= x < |s.links| && 0 <= l < |s.links[x]|
      ensures |s.links[x][l]| <= 2 * c.Cap(l)
    {
      if x in s.claimedBy && s.claimedBy[x] < |s.workers| {
        PushesBounded(c, s.counter, s.maxLevel, s.workers[s.claimedBy[x]], l);
      }
    }
  }

  /** A claim is never reassigned, and a finished insertion never starts again. */
  lemma ClaimsAreFinal(c: Build, s: State, s': State, w: nat, step: Step)
    requires Inv(c, s) && Takes(c, s, s', w, step)
    ensures forall x :: x in s.claimedBy ==> x in s'.claimedBy && s'.claimedBy[x] == s.claimedBy[x]
    ensures s.finished <= s'.finished
  {
    StepFrame(c, s, s', w, step);
    if step.DoClaim? {
      assert s.counter !in s.claimedBy;
    } else {
      NodeKept(c, s, s', w, step);
    }
  }

  ghost predicate Joined(s: State) {
    s.workers != [] && forall w :: 0 <= w < |s.workers| ==> s.workers[w] == Done
  }

  /** At the join each of the nodes 1..n has been inserted, by the one worker that claimed it, the
      top level is the highest any node drew, and the entry point reaches it: the graph is one that
      queries and serial inserts accept. */
  lemma JoinIsComplete(c: Build, run: seq<State>)
    requires c.Valid() && IsRun(c, run) && Joined(run[|run| - 1])
    ensures var s := run[|run| - 1];
      && (forall x :: 1 <= x < |c.rows| <==> x in s.finished)
      && s.finished == s.claimedBy.Keys
      && EntryOnTop(s.links, s.entry, s.maxLevel)
      && Navigable(c.rows, s.links, Some(s.entry), s.maxLevel)
  {
    RunsKeepInv(c, run, |run| - 1);
    var s := run[|run| - 1];
    assert s.workers[0] == Done;
    assert PhaseOk(c, s.counter, s.maxLevel, s.workers[0]);
    forall x | x in s.claimedBy
      ensures x in s.finished
    {
    }
    forall x | 0 <= x < |s.links|
      ensures 1 <= |s.links[x]| <= s.maxLevel + 1
    {
      assert x == 0 || x in s.finished;
    }
  }

  // ---------- Deadlock freedom ----------

  /** Lock discipline: whoever waits for a node lock while holding one waits for a larger id, and
      nobody holding a node lock waits for the entry lock. */
  lemma LocksAreOrdered(c: Build, s: State, w: nat, held: nat)
    requires Inv(c, s) && w < |s.workers| && s.workers[w].Holds(held)
    ensures s.workers[w].Wants().Some? ==> held < s.workers[w].Wants().value
    ensures !s.workers[w].WantsEntry() && s.workers[w].Low() < s.workers[w].High()
    ensures forall x :: s.workers[w].Holds(x) ==> x == s.workers[w].Low() || x == s.workers[w].High()
  {
    LowBelowHigh(c, s, w);
  }

  lemma WorstExists(xs: set<nat>, f: nat -> real) returns (w: nat)
    requires xs != {}
    ensures w in xs && forall x :: x in xs ==> f(w) <= f(x)
    decreases xs
  {
    var x :| x in xs;
    if xs == {x} {
      w := x;
    } else {
      var v := WorstExists(xs - {x}, f);
      w := if f(x) < f(v) then x else v;
    }
  }

  lemma BestExists(xs: set<nat>, f: nat -> real) returns (b: nat)
    requires xs != {}
    ensures b in xs && forall x :: x in xs ==> f(x) <= f(b)
  {
    var g := (x: nat) => -f(x);
    b := WorstExists(xs, g);
    assert forall x :: x in xs ==> g(b) <= g(x);
  }

  lemma OrderExists(xs: set<nat>, f: nat -> real) returns (order: seq<nat>)
    ensures Distinct(order) && Elements(order) == xs && Descending(order, f)
    decreases xs
  {
    if xs == {} {
      order := [];
    } else {
      var w := WorstExists(xs, f);
      var rest := OrderExists(xs - {w}, f);
      order := rest + [w];
      forall i | 0 <= i < |rest|
        ensures rest[i] != w && f(rest[i]) >= f(w)
      {
        assert rest[i] in Elements(rest);
      }
      assert Elements(order) == Elements(rest) + {w};
    }
  }

  lemma PruningExists(c: Build, n: nat, adj: seq<nat>, cap: nat) returns (kept: seq<nat>)
    requires n < |c.rows| && Distinct(adj) && forall x :: x in adj ==> x < |c.rows|
    ensures PrunedTo(c.rows, c.walk, n, adj, cap, kept)
  {
    if |adj| <= cap {
      kept := adj;
    } else {
      var f := NodeScore(c.rows, FromRow(c.walk, c.rows[n]));
      var order := OrderExists(Elements(adj), f);
      DistinctMultiset(adj);
      DistinctMultiset(order);
      var cs := WithScores(order, f);
      forall x | x in order
        ensures x in adj
      {
        assert x in Elements<nat>(order);
      }
      BelowByElements(order, f, |c.rows|);
      kept := Select(c.rows, c.walk, cs, cap);
      assert PrunedInOrder(c.rows, c.walk, n, adj, cap, order, kept);
    }
  }

  lemma BelowByElements(order: seq<nat>, f: nat -> real, n: nat)
    requires forall x :: x in order ==> x < n
    ensures NodesBelow(WithScores(order, f), n)
  {
    forall s | s in WithScores(order, f)
      ensures s.node < n
    {
      var i :| 0 <= i < |order| && WithScores(order, f)[i] == s;
      assert s == Scored(f(order[i]), order[i]) && order[i] in order;
    }
  }

  lemma OfferExists(h: Heaps, ef: nat, f: nat -> real, nbr: nat) returns (h': Heaps, dropped: nat)
    ensures Offered(h, h', ef, f, nbr, dropped)
  {
    dropped := nbr;
    if nbr in h.seen {
      h' := h;
    } else if |h.result| < ef || exists r :: r in h.result && f(r) < f(nbr) {
      dropped := WorstExists(h.result + {nbr}, f);
      h' := Heaps(h.seen + {nbr}, h.candidates + {nbr},
                  if |h.result + {nbr}| > ef then h.result + {nbr} - {dropped} else h.result + {nbr});
    } else {
      h' := h.(seen := h.seen + {nbr});
    }
  }

  ghost predicate CanStep(c: Build, s: State, w: nat) {
    exists step, s' :: Takes(c, s, s', w, step)
  }

  lemma ScanCanStep(c: Build, s: State, w: nat)
    requires w < |s.workers| && s.workers[w].Scan?
    ensures CanStep(c, s, w)
  {
    var p := s.workers[w];
    if p.pending == [] {
      assert Takes(c, s, Goto(s, w, Pop(p.job, p.level, p.ep, p.heaps)), w, DoScoreNext(p.heaps, 0));
    } else {
      var h', dropped := OfferExists(p.heaps, c.ef, c.Score(p.job.node), p.pending[0]);
      var s' := Goto(s, w, Scan(p.job, p.level, p.ep, h', p.pending[1..]));
      assert Takes(c, s, s', w, DoScoreNext(h', dropped));
    }
  }

  lemma PopCanStep(c: Build, s: State, w: nat)
    requires w < |s.workers| && s.workers[w].Pop?
    requires forall x :: x in s.workers[w].heaps.result ==> x < |c.rows|
    ensures CanStep(c, s, w)
  {
    var p := s.workers[w];
    var f := c.Score(p.job.node);
    if Exhausted(p.heaps, c.ef, f) {
      var found := OrderExists(p.heaps.result, f);
      forall x | x in found
        ensures x in p.heaps.result
      {
        assert x in Elements<nat>(found);
      }
      BelowByElements(found, f, |c.rows|);
      var selected := Select(c.rows, c.walk, WithScores(found, f), c.Cap(p.level));
      var s' := Goto(s, w, Linking(p.job, p.level, p.ep, found, selected, 0, Ready));
      assert Takes(c, s, s', w, DoFinishSearch(found));
    } else {
      var cand := BestExists(p.heaps.candidates, f);
      var s' := Goto(s, w, Fetch(p.job, p.level, p.ep, p.heaps.(candidates := p.heaps.candidates - {cand}), cand));
      assert Takes(c, s, s', w, DoPopBest(cand));
    }
  }

  lemma SearchCanStep(c: Build, s: State, w: nat)
    requires Inv(c, s) && w < |s.workers| && (s.workers[w].Pop? || s.workers[w].Scan?)
    ensures CanStep(c, s, w)
  {
    assert PhaseOk(c, s.counter, s.maxLevel, s.workers[w]);
    if s.workers[w].Scan? {
      ScanCanStep(c, s, w);
    } else {
      PopCanStep(c, s, w);
    }
  }

  lemma LinkCanStep(c: Build, s: State, w: nat)
    requires Inv(c, s) && w < |s.workers| && s.workers[w].Linking? && s.workers[w].stage.HoldBoth?
    ensures CanStep(c, s, w)
  {
    hide LocksOk, ClaimsOk, DegreesOk, Offered, Exhausted;
    var p := s.workers[w];
    LinkEnds(c, s, w);
    var node, nbr, level := p.job.node, p.selected[p.idx], p.level;
    var one := if nbr !in s.links[node][level] then SetList(s.links, node, level, s.links[node][level] + [nbr]) else s.links;
    assert one[nbr][level] == s.links[nbr][level];
    assert ListOk(Heights(s.links), nbr, level, s.links[nbr][level]);
    var adj := if node in one[nbr][level] then one[nbr][level] else one[nbr][level] + [node];
    var kept := PruningExists(c, nbr, adj, c.Cap(level));
    var links' := SetList(one, nbr, level, kept);
    assert EdgeLinked(c, s.links, links', node, nbr, level, kept);
    var s' := Goto(s, w, p.(stage := Linked)).(links := links');
    assert Takes(c, s, s', w, DoLinkAndPrune(links', kept));
  }

  lemma ReadyCanStep(c: Build, s: State, w: nat)
    requires w < |s.workers| && s.workers[w].Linking? && s.workers[w].stage.Ready?
    requires s.workers[w].job.node < |c.heights| && s.workers[w].idx <= |s.workers[w].selected|
    ensures CanStep(c, s, w)
  {
    var p := s.workers[w];
    if p.idx < |p.selected| {
      assert Takes(c, s, Goto(s, w, if p.selected[p.idx] == p.job.node then p.(idx := p.idx + 1) else p.(stage := WantLow)),
                   w, DoNextEdge);
    } else if p.level > 0 {
      var starts := if p.found == [] then [p.ep] else p.found;
      assert Takes(c, s, Goto(s, w, SearchFrom(p.job, p.level - 1, p.ep, starts)), w, DoLevelDone);
    } else if c.heights[p.job.node] > p.job.top + 1 {
      assert Takes(c, s, Goto(s, w, AskEntry(p.job)), w, DoLevelDone);
    } else {
      assert Takes(c, s, Goto(s, w, Idle).(finished := s.finished + {p.job.node}), w, DoLevelDone);
    }
  }

  lemma LockingCanStep(c: Build, s: State, w: nat)
    requires w < |s.workers| && s.workers[w].Linking? && s.workers[w].idx < |s.workers[w].selected|
    requires !s.workers[w].stage.Ready? && !s.workers[w].stage.HoldBoth?
    requires s.workers[w].Wants().Some? ==> s.workers[w].Wants().value !in s.locks
    ensures CanStep(c, s, w)
  {
    hide LinksOk, LocksOk, ClaimsOk, DegreesOk, Offered, Exhausted;
    var p := s.workers[w];
    match p.stage {
      case WantLow =>
        assert Takes(c, s, Goto(s, w, p.(stage := WantHigh)).(locks := s.locks[p.Low() := w]), w, DoLockLow);
      case WantHigh =>
        assert Takes(c, s, Goto(s, w, p.(stage := HoldBoth)).(locks := s.locks[p.High() := w]), w, DoLockHigh);
      case Linked =>
        assert Takes(c, s, Goto(s, w, p.(stage := HoldLow)).(locks := s.locks - {p.High()}), w, DoUnlockHigh);
      case HoldLow =>
        assert Takes(c, s, Goto(s, w, p.(stage := Ready, idx := p.idx + 1)).(locks := s.locks - {p.Low()}), w, DoUnlockLow);
      case _ =>
    }
  }

  lemma StageCanStep(c: Build, s: State, w: nat)
    requires Inv(c, s) && w < |s.workers| && s.workers[w].Linking? && !s.workers[w].stage.HoldBoth?
    requires s.workers[w].Wants().Some? ==> s.workers[w].Wants().value !in s.locks
    ensures CanStep(c, s, w)
  {
    assert PhaseOk(c, s.counter, s.maxLevel, s.workers[w]);
    if s.workers[w].stage.Ready? {
      ReadyCanStep(c, s, w);
    } else {
      LockingCanStep(c, s, w);
    }
  }

  lemma FetchCanStep(c: Build, s: State, w: nat)
    requires Inv(c, s) && w < |s.workers| && (s.workers[w].GreedyFetch? || s.workers[w].Fetch?)
    requires s.workers[w].Wants().Some? ==> s.workers[w].Wants().value !in s.locks
    ensures CanStep(c, s, w)
  {
    hide LocksOk, ClaimsOk, DegreesOk, Offered, Exhausted;
    var p := s.workers[w];
    assert PhaseOk(c, s.counter, s.maxLevel, p);
    if p.GreedyFetch? {
      assert Takes(c, s, Goto(s, w, GreedyScan(p.job, p.level, p.cur, false, LayerOf(s.links, p.level)[p.cur])), w, DoGreedyCopy);
    } else {
      assert Takes(c, s, Goto(s, w, Scan(p.job, p.level, p.ep, p.heaps, LayerOf(s.links, p.level)[p.cand])), w, DoCopyList);
    }
  }

  lemma GreedyCanStep(c: Build, s: State, w: nat)
    requires Inv(c, s) && w < |s.workers| && s.workers[w].GreedyScan?
    ensures CanStep(c, s, w)
  {
    hide LinksOk, LocksOk, ClaimsOk, DegreesOk, Offered, Exhausted;
    var p := s.workers[w];
    assert PhaseOk(c, s.counter, s.maxLevel, p);
    if p.pending != [] {
      var nbr, f := p.pending[0], c.Score(p.job.node);
      var better := f(nbr) > f(p.cur);
      var s' := Goto(s, w, GreedyScan(p.job, p.level, if better then nbr else p.cur, p.improved || better, p.pending[1..]));
      assert Takes(c, s, s', w, DoGreedyScore);
    } else if p.improved {
      assert Takes(c, s, Goto(s, w, GreedyFetch(p.job, p.level, p.cur)), w, DoGreedyScore);
    } else {
      assert Takes(c, s, Goto(s, w, AfterDescent(c, p.job, p.level - 1, p.cur)), w, DoGreedyScore);
    }
  }

  lemma EntryCanStep(c: Build, s: State, w: nat)
    requires Inv(c, s) && w < |s.workers|
    requires s.workers[w].Idle? || s.workers[w].Start? || s.workers[w].AskEntry? || s.workers[w].HoldEntry?
    requires s.workers[w].WantsEntry() ==> s.entryWriter.None?
    ensures CanStep(c, s, w)
  {
    hide LinksOk, LocksOk, ClaimsOk, DegreesOk, Offered, Exhausted;
    var p := s.workers[w];
    assert PhaseOk(c, s.counter, s.maxLevel, p);
    match p {
      case Idle =>
        var i := s.counter;
        var s' := if i >= |c.rows| then Goto(s, w, Done).(counter := i + 1)
                  else Goto(s, w, Start(i)).(counter := i + 1, claimedBy := s.claimedBy[i := w]);
        assert Takes(c, s, s', w, DoClaim);
      case Start(node) =>
        assert Takes(c, s, Goto(s, w, AfterDescent(c, Job(node, s.maxLevel), s.maxLevel, s.entry)), w, DoReadEntry);
      case AskEntry(job) =>
        assert Takes(c, s, Goto(s, w, HoldEntry(job)).(entryWriter := Some(w)), w, DoTakeEntry);
      case HoldEntry(job) =>
        var released := Goto(s, w, Idle).(entryWriter := None, finished := s.finished + {job.node});
        var s' := if c.heights[job.node] - 1 > s.maxLevel
                  then released.(entry := job.node, maxLevel := c.heights[job.node] - 1) else released;
        assert Takes(c, s, s', w, DoPromote);
      case _ =>
    }
  }

  /** A worker that is not done is stopped by nothing but a lock somebody holds. */
  lemma OnlyLocksBlock(c: Build, s: State, w: nat)
    requires Inv(c, s) && w < |s.workers| && !s.workers[w].Done?
    requires s.workers[w].Wants().Some? ==> s.workers[w].Wants().value !in s.locks
    requires s.workers[w].WantsEntry() ==> s.entryWriter.None?
    ensures CanStep(c, s, w)
  {
    match s.workers[w] {
      case Pop(_, _, _, _) => SearchCanStep(c, s, w);
      case Scan(_, _, _, _, _) => SearchCanStep(c, s, w);
      case Linking(_, _, _, _, _, _, stage) =>
        if stage.HoldBoth? {
          LinkCanStep(c, s, w);
        } else {
          StageCanStep(c, s, w);
        }
      case GreedyFetch(_, _, _) => FetchCanStep(c, s, w);
      case GreedyScan(_, _, _, _, _) => GreedyCanStep(c, s, w);
      case Fetch(_, _, _, _, _) => FetchCanStep(c, s, w);
      case _ => EntryCanStep(c, s, w);
    }
  }

  lemma LargestExists(xs: set<nat>) returns (h: nat)
    requires xs != {}
    ensures h in xs && forall x :: x in xs ==> x <= h
  {
    var f := (x: nat) => x as real;
    h := BestExists(xs, f);
    assert forall x :: x in xs ==> f(x) <= f(h);
  }

  /** In every reachable state with an unfinished worker, some worker can step. */
  lemma DeadlockFree(c: Build, run: seq<State>, i: nat, w: nat) returns (mover: nat)
    requires c.Valid() && IsRun(c, run) && i < |run|
    requires w < |run[i].workers| && !run[i].workers[w].Done?
    ensures CanStep(c, run[i], mover)
  {
    RunsKeepInv(c, run, i);
    var s := run[i];
    if s.entryWriter.Some? {
      mover := s.entryWriter.value;
      EntryCanStep(c, s, mover);
    } else if s.locks == map[] {
      mover := w;
      OnlyLocksBlock(c, s, w);
    } else {
      var top := LargestExists(s.locks.Keys);
      mover := s.locks[top];
      LocksAreOrdered(c, s, mover, top);
      OnlyLocksBlock(c, s, mover);
    }
  }
}
