/** The parallel builder as interleaved steps. Workers claim nodes from a shared counter, read
    adjacency lists under one node lock at a time, and link under two node locks taken in
    ascending id order; the entry point has a lock of its own. */
module HnswParallel {
  import opened Counting
  import opened Options
  import opened Ranking
  import opened Neighbours
  import opened Graphs
  import opened Hnsw
  import opened HnswIndex

  /** Fixed for one build: `heights[x]` is the number of levels node `x` occupies. */
  datatype Build = Build(rows: seq<nat>, walk: RowScore, heights: seq<nat>, m: nat, mMax0: nat, ef: nat) {
    ghost predicate Valid() {
      && |rows| == |heights| >= 1 && m >= 1 && mMax0 >= 1 && ef >= 1
      && forall x :: 0 <= x < |heights| ==> heights[x] >= 1
    }

    ghost predicate On(x: nat, level: nat) {
      x < |heights| && level < heights[x]
    }

    function Cap(level: nat): nat {
      CapAt(level, m, mMax0)
    }

    ghost function Score(node: nat): nat -> real {
      if node < |rows| then NodeScore(rows, FromRow(walk, rows[node])) else (x: nat) => 0.0
    }
  }

  datatype Job = Job(node: nat, top: nat)

  datatype Heaps = Heaps(seen: set<nat>, candidates: set<nat>, result: set<nat>)

  datatype Stage = Ready | WantLow | WantHigh | HoldBoth | Linked | HoldLow

  datatype Phase =
    | Idle
    | Done
    | Start(node: nat)
    | GreedyFetch(job: Job, level: nat, cur: nat)
    | GreedyScan(job: Job, level: nat, cur: nat, improved: bool, pending: seq<nat>)
    | Pop(job: Job, level: nat, ep: nat, heaps: Heaps)
    | Fetch(job: Job, level: nat, ep: nat, heaps: Heaps, cand: nat)
    | Scan(job: Job, level: nat, ep: nat, heaps: Heaps, pending: seq<nat>)
    | Linking(job: Job, level: nat, ep: nat, found: seq<nat>, selected: seq<nat>, idx: nat, stage: Stage)
    | AskEntry(job: Job)
    | HoldEntry(job: Job)
  {
    predicate Working() {
      !Idle? && !Done?
    }

    function Node(): nat
      requires Working()
    {
      if Start? then node else job.node
    }

    /** The two ends of the edge being linked, in lock order. */
    function Low(): nat
      requires Linking? && idx < |selected|
    {
      Min(job.node, selected[idx])
    }

    function High(): nat
      requires Linking? && idx < |selected|
    {
      Max(job.node, selected[idx])
    }

    predicate Holds(x: nat) {
      && Linking? && idx < |selected|
      && match stage
         case Ready | WantLow => false
         case WantHigh | HoldLow => x == Low()
         case HoldBoth | Linked => x == Low() || x == High()
    }

    /** The node lock this phase is about to take. */
    function Wants(): Option<nat> {
      match this
      case GreedyFetch(_, _, cur) => Some(cur)
      case Fetch(_, _, _, _, cand) => Some(cand)
      case Linking(_, _, _, _, _, _, stage) =>
        if idx < |selected| && stage == WantLow then Some(Low())
        else if idx < |selected| && stage == WantHigh then Some(High())
        else None
      case _ => None
    }

    predicate WantsEntry() {
      Start? || AskEntry?
    }
  }

  /** `claimedBy` and `finished` record history: who drew a node, and which insertions returned. */
  datatype State = State(
    links: Links, entry: nat, maxLevel: nat, counter: nat,
    locks: map<nat, nat>, entryWriter: Option<nat>, workers: seq<Phase>,
    claimedBy: map<nat, nat>, finished: set<nat>)

  function Goto(s: State, w: nat, p: Phase): State
    requires w < |s.workers|
  {
    s.(workers := s.workers[w := p])
  }

  ghost predicate Initial(c: Build, s: State) {
    && |s.links| == |c.heights|
    && (forall x :: 0 <= x < |s.links| ==>
          |s.links[x]| == c.heights[x] && forall l :: 0 <= l < |s.links[x]| ==> s.links[x][l] == [])
    && s.entry == 0 && |c.heights| >= 1 && c.heights[0] == s.maxLevel + 1 && s.counter == 1
    && s.locks == map[] && s.entryWriter == None && s.claimedBy == map[] && s.finished == {}
    && forall w :: 0 <= w < |s.workers| ==> s.workers[w] == Idle
  }

  // ---------- Steps ----------

  /** Where an insertion goes to search `level` from the given entry points. */
  function SearchFrom(job: Job, level: nat, ep: nat, starts: seq<nat>): Phase {
    Pop(job, level, ep, Heaps(Elements(starts), Elements(starts), Elements(starts)))
  }

  /** Below `level` levels of greedy descent: descend one more or begin the beam searches. */
  function AfterDescent(c: Build, job: Job, level: nat, ep: nat): Phase
    requires job.node < |c.heights| && c.heights[job.node] >= 1
  {
    if level > c.heights[job.node] - 1 then GreedyFetch(job, level, ep)
    else SearchFrom(job, Min(c.heights[job.node] - 1, job.top), ep, [ep])
  }

  ghost predicate Claim(c: Build, s: State, s': State, w: nat)
    requires w < |s.workers|
  {
    && s.workers[w].Idle?
    && var i := s.counter;
       if i >= |c.rows| then s' == Goto(s, w, Done).(counter := i + 1)
       else s' == Goto(s, w, Start(i)).(counter := i + 1, claimedBy := s.claimedBy[i := w])
  }

  ghost predicate ReadEntry(c: Build, s: State, s': State, w: nat)
    requires w < |s.workers|
  {
    && s.workers[w].Start? && s.entryWriter.None?
    && s.workers[w].node < |c.heights| && c.heights[s.workers[w].node] >= 1
    && s' == Goto(s, w, AfterDescent(c, Job(s.workers[w].node, s.maxLevel), s.maxLevel, s.entry))
  }

  /** Copies one adjacency list under its node's lock, which is free before and after. */
  ghost predicate GreedyCopy(c: Build, s: State, s': State, w: nat)
    requires w < |s.workers|
  {
    var p := s.workers[w];
    && p.GreedyFetch? && p.cur !in s.locks && p.cur < |s.links|
    && s' == Goto(s, w, GreedyScan(p.job, p.level, p.cur, false, LayerOf(s.links, p.level)[p.cur]))
  }

  ghost predicate GreedyScore(c: Build, s: State, s': State, w: nat)
    requires w < |s.workers|
  {
    var p := s.workers[w];
    && p.GreedyScan?
    && p.job.node < |c.heights| && c.heights[p.job.node] >= 1
    && if p.pending != [] then
         var nbr, f := p.pending[0], c.Score(p.job.node);
         var better := f(nbr) > f(p.cur);
         s' == Goto(s, w, GreedyScan(p.job, p.level, if better then nbr else p.cur, p.improved || better, p.pending[1..]))
       else if p.improved then s' == Goto(s, w, GreedyFetch(p.job, p.level, p.cur))
       else p.level >= 1 && s' == Goto(s, w, AfterDescent(c, p.job, p.level - 1, p.cur))
  }

  /** The beam cannot improve: no candidate, or a full beam all better than every candidate. */
  ghost predicate Exhausted(h: Heaps, ef: nat, f: nat -> real) {
    h.candidates == {} || (|h.result| >= ef && forall x, r :: x in h.candidates && r in h.result ==> f(x) < f(r))
  }

  ghost predicate PopBest(c: Build, s: State, s': State, w: nat, cand: nat)
    requires w < |s.workers|
  {
    var p := s.workers[w];
    && p.Pop?
    && (var h, f := p.heaps, c.Score(p.job.node);
        && !Exhausted(h, c.ef, f)
        && cand in h.candidates && (forall x :: x in h.candidates ==> f(x) <= f(cand))
        && s' == Goto(s, w, Fetch(p.job, p.level, p.ep, h.(candidates := h.candidates - {cand}), cand)))
  }

  ghost predicate CopyList(c: Build, s: State, s': State, w: nat)
    requires w < |s.workers|
  {
    var p := s.workers[w];
    && p.Fetch? && p.cand !in s.locks && p.cand < |s.links|
    && s' == Goto(s, w, Scan(p.job, p.level, p.ep, p.heaps, LayerOf(s.links, p.level)[p.cand]))
  }

  /** Scores one copied neighbour; when it overfills the beam, a worst member is dropped. */
  ghost predicate Offered(h: Heaps, h': Heaps, ef: nat, f: nat -> real, nbr: nat, dropped: nat) {
    if nbr in h.seen then h' == h
    else if |h.result| < ef || exists r :: r in h.result && f(r) < f(nbr) then
      && h'.seen == h.seen + {nbr} && h'.candidates == h.candidates + {nbr}
      && (if |h.result + {nbr}| > ef
          then
            && dropped in h.result + {nbr} && (forall r :: r in h.result + {nbr} ==> f(dropped) <= f(r))
            && h'.result == h.result + {nbr} - {dropped}
          else h'.result == h.result + {nbr})
    else h' == h.(seen := h.seen + {nbr})
  }

  ghost predicate ScoreNext(c: Build, s: State, s': State, w: nat, h': Heaps, dropped: nat)
    requires w < |s.workers|
  {
    var p := s.workers[w];
    && p.Scan?
    && if p.pending == [] then s' == Goto(s, w, Pop(p.job, p.level, p.ep, p.heaps))
       else
         && Offered(p.heaps, h', c.ef, c.Score(p.job.node), p.pending[0], dropped)
         && s' == Goto(s, w, Scan(p.job, p.level, p.ep, h', p.pending[1..]))
  }

  ghost predicate FinishSearch(c: Build, s: State, s': State, w: nat, found: seq<nat>)
    requires w < |s.workers|
  {
    var p := s.workers[w];
    && p.Pop?
    && (var f := c.Score(p.job.node);
        && Exhausted(p.heaps, c.ef, f)
        && Distinct(found) && Elements(found) == p.heaps.result && Descending(found, f)
        && NodesBelow(WithScores(found, f), |c.rows|)
        && s' == Goto(s, w, Linking(p.job, p.level, p.ep, found,
                                    Select(c.rows, c.walk, WithScores(found, f), c.Cap(p.level)), 0, Ready)))
  }

  /** All selected neighbours done: the next level down, or the end of the insertion. */
  ghost predicate LevelDone(c: Build, s: State, s': State, w: nat)
    requires w < |s.workers|
  {
    var p := s.workers[w];
    && p.Linking? && p.stage.Ready? && p.idx == |p.selected|
    && p.job.node < |c.heights|
    && if p.level > 0 then
         s' == Goto(s, w, SearchFrom(p.job, p.level - 1, p.ep, if p.found == [] then [p.ep] else p.found))
       else if c.heights[p.job.node] > p.job.top + 1 then s' == Goto(s, w, AskEntry(p.job))
       else s' == Goto(s, w, Idle).(finished := s.finished + {p.job.node})
  }

  /** The next selected neighbour: skipped when it is the node itself. */
  ghost predicate NextEdge(c: Build, s: State, s': State, w: nat)
    requires w < |s.workers|
  {
    var p := s.workers[w];
    && p.Linking? && p.stage.Ready? && p.idx < |p.selected|
    && s' == Goto(s, w, if p.selected[p.idx] == p.job.node then p.(idx := p.idx + 1) else p.(stage := WantLow))
  }

  ghost predicate LockLow(c: Build, s: State, s': State, w: nat)
    requires w < |s.workers|
  {
    var p := s.workers[w];
    && p.Linking? && p.stage.WantLow? && p.idx < |p.selected| && p.Low() !in s.locks
    && s' == Goto(s, w, p.(stage := WantHigh)).(locks := s.locks[p.Low() := w])
  }

  ghost predicate LockHigh(c: Build, s: State, s': State, w: nat)
    requires w < |s.workers|
  {
    var p := s.workers[w];
    && p.Linking? && p.stage.WantHigh? && p.idx < |p.selected| && p.High() !in s.locks
    && s' == Goto(s, w, p.(stage := HoldBoth)).(locks := s.locks[p.High() := w])
  }

  /** The node gains the neighbour unpruned; the neighbour gains the node and is pruned. */
  ghost predicate EdgeLinked(c: Build, before: Links, after: Links, node: nat, nbr: nat, level: nat, kept: seq<nat>) {
    && node < |before| && nbr < |before| && nbr < |c.rows|
    && (var one := if level < |before[node]| && nbr !in before[node][level]
                   then SetList(before, node, level, before[node][level] + [nbr]) else before;
        if level < |one[nbr]| then
          && PrunedTo(c.rows, c.walk, nbr,
                      if node in one[nbr][level] then one[nbr][level] else one[nbr][level] + [node], c.Cap(level), kept)
          && after == SetList(one, nbr, level, kept)
        else after == one)
  }

  ghost predicate LinkAndPrune(c: Build, s: State, s': State, w: nat, links': Links, kept: seq<nat>)
    requires w < |s.workers|
  {
    var p := s.workers[w];
    && p.Linking? && p.stage.HoldBoth? && p.idx < |p.selected|
    && EdgeLinked(c, s.links, links', p.job.node, p.selected[p.idx], p.level, kept)
    && s' == Goto(s, w, p.(stage := Linked)).(links := links')
  }

  ghost predicate UnlockHigh(c: Build, s: State, s': State, w: nat)
    requires w < |s.workers|
  {
    var p := s.workers[w];
    && p.Linking? && p.stage.Linked? && p.idx < |p.selected|
    && s' == Goto(s, w, p.(stage := HoldLow)).(locks := s.locks - {p.High()})
  }

  ghost predicate UnlockLow(c: Build, s: State, s': State, w: nat)
    requires w < |s.workers|
  {
    var p := s.workers[w];
    && p.Linking? && p.stage.HoldLow? && p.idx < |p.selected|
    && s' == Goto(s, w, p.(stage := Ready, idx := p.idx + 1)).(locks := s.locks - {p.Low()})
  }

  ghost predicate TakeEntry(c: Build, s: State, s': State, w: nat)
    requires w < |s.workers|
  {
    var p := s.workers[w];
    && p.AskEntry? && s.entryWriter.None?
    && s' == Goto(s, w, HoldEntry(p.job)).(entryWriter := Some(w))
  }

  /** Under the write lock: promote only if still higher than the current entry. */
  ghost predicate Promote(c: Build, s: State, s': State, w: nat)
    requires w < |s.workers|
  {
    var p := s.workers[w];
    && p.HoldEntry? && p.job.node < |c.heights| && c.heights[p.job.node] >= 1
    && (var released := Goto(s, w, Idle).(entryWriter := None, finished := s.finished + {p.job.node});
        s' == if c.heights[p.job.node] - 1 > s.maxLevel
              then released.(entry := p.job.node, maxLevel := c.heights[p.job.node] - 1)
              else released)
  }

  datatype Step =
    | DoClaim | DoReadEntry | DoGreedyCopy | DoGreedyScore | DoPopBest(cand: nat) | DoCopyList
    | DoScoreNext(h: Heaps, dropped: nat) | DoFinishSearch(found: seq<nat>) | DoLevelDone | DoNextEdge
    | DoLockLow | DoLockHigh | DoLinkAndPrune(links: Links, kept: seq<nat>) | DoUnlockHigh | DoUnlockLow
    | DoTakeEntry | DoPromote

  ghost predicate Takes(c: Build, s: State, s': State, w: nat, step: Step) {
    && w < |s.workers| == |s'.workers|
    && match step
       case DoClaim => Claim(c, s, s', w)
       case DoReadEntry => ReadEntry(c, s, s', w)
       case DoGreedyCopy => GreedyCopy(c, s, s', w)
       case DoGreedyScore => GreedyScore(c, s, s', w)
       case DoPopBest(cand) => PopBest(c, s, s', w, cand)
       case DoCopyList => CopyList(c, s, s', w)
       case DoScoreNext(h, dropped) => ScoreNext(c, s, s', w, h, dropped)
       case DoFinishSearch(found) => FinishSearch(c, s, s', w, found)
       case DoLevelDone => LevelDone(c, s, s', w)
       case DoNextEdge => NextEdge(c, s, s', w)
       case DoLockLow => LockLow(c, s, s', w)
       case DoLockHigh => LockHigh(c, s, s', w)
       case DoLinkAndPrune(links', kept) => LinkAndPrune(c, s, s', w, links', kept)
       case DoUnlockHigh => UnlockHigh(c, s, s', w)
       case DoUnlockLow => UnlockLow(c, s, s', w)
       case DoTakeEntry => TakeEntry(c, s, s', w)
       case DoPromote => Promote(c, s, s', w)
  }

  ghost predicate Next(c: Build, s: State, s': State) {
    exists w, step :: Takes(c, s, s', w, step)
  }

  /** A run: any workers, any interleaving. */
  ghost predicate IsRun(c: Build, run: seq<State>) {
    && run != [] && Initial(c, run[0])
    && forall i, j :: 0 <= i < |run| - 1 && j == i + 1 ==> Next(c, run[i], run[j])
  }

  // ---------- The invariant, piece by piece ----------

  ghost predicate AllOn(c: Build, xs: set<nat>, level: nat) {
    forall x :: x in xs ==> c.On(x, level)
  }

  /** Every list keeps its shape and stays well formed, whoever wrote it. */
  ghost predicate LinksOk(c: Build, links: Links) {
    && |links| == |c.heights| && (forall x :: 0 <= x < |links| ==> |links[x]| == c.heights[x])
    && Sound(links)
  }

  ghost predicate EntryOk(c: Build, s: State) {
    && s.entry < |c.heights| && c.heights[s.entry] == s.maxLevel + 1
    && c.heights[0] <= s.maxLevel + 1
    && forall x :: x in s.finished ==> x < |c.heights| && c.heights[x] <= s.maxLevel + 1
  }

  /** Everything a worker remembers names nodes that occupy the level it is working on. */
  ghost predicate PhaseOk(c: Build, counter: nat, maxLevel: nat, p: Phase) {
    && (p.Working() ==> p.Node() < |c.heights| && c.heights[p.Node()] >= 1)
    && match p
       case Idle => true
       case Done => counter >= |c.heights|
       case Start(_) => true
       case GreedyFetch(job, level, cur) =>
         job.top <= maxLevel && c.heights[job.node] <= level <= job.top && c.On(cur, level)
       case GreedyScan(job, level, cur, _, pending) =>
         job.top <= maxLevel && c.heights[job.node] <= level <= job.top && c.On(cur, level) && AllOn(c, Elements(pending), level)
       case Pop(job, level, ep, h) =>
         SearchOk(c, maxLevel, job, level, ep, h)
       case Fetch(job, level, ep, h, cand) =>
         SearchOk(c, maxLevel, job, level, ep, h) && c.On(cand, level)
       case Scan(job, level, ep, h, pending) =>
         SearchOk(c, maxLevel, job, level, ep, h) && AllOn(c, Elements(pending), level)
       case Linking(job, level, ep, found, selected, idx, stage) =>
         && job.top <= maxLevel && c.On(job.node, level) && c.On(ep, level)
         && AllOn(c, Elements(found), level) && AllOn(c, Elements(selected), level)
         && |selected| <= c.Cap(level) && idx <= |selected|
         && (!stage.Ready? ==> idx < |selected| && selected[idx] != job.node)
       case AskEntry(job) => job.top <= maxLevel && job.top + 1 < c.heights[job.node]
       case HoldEntry(job) => job.top <= maxLevel && job.top + 1 < c.heights[job.node]
  }

  ghost predicate SearchOk(c: Build, maxLevel: nat, job: Job, level: nat, ep: nat, h: Heaps) {
    && job.top <= maxLevel && c.On(job.node, level) && c.On(ep, level)
    && AllOn(c, h.seen, level) && h.candidates <= h.seen && h.result <= h.seen
  }

  ghost predicate PhasesOk(c: Build, s: State) {
    forall w :: 0 <= w < |s.workers| ==> PhaseOk(c, s.counter, s.maxLevel, s.workers[w])
  }

  /** The lock table says exactly what the workers hold. */
  ghost predicate LocksOk(s: State) {
    NodeLocksOk(s) && EntryLockOk(s)
  }

  ghost predicate NodeLocksOk(s: State) {
    && (forall x :: x in s.locks ==> s.locks[x] < |s.workers| && s.workers[s.locks[x]].Holds(x))
    && (forall w, x :: 0 <= w < |s.workers| && s.workers[w].Holds(x) ==> x in s.locks && s.locks[x] == w)
  }

  ghost predicate EntryLockOk(s: State) {
    && (s.entryWriter.Some? ==> s.entryWriter.value < |s.workers| && s.workers[s.entryWriter.value].HoldEntry?)
    && (forall w :: 0 <= w < |s.workers| && s.workers[w].HoldEntry? ==> s.entryWriter == Some(w))
  }

  /** Claimed nodes are 1 up to the counter; each is finished or in its claimer's hands. */
  ghost predicate ClaimsOk(c: Build, s: State) {
    && s.counter >= 1
    && (forall x :: x in s.claimedBy <==> 1 <= x < |c.heights| && x < s.counter)
    && s.finished <= s.claimedBy.Keys
    && (forall x :: x in s.claimedBy && x !in s.finished ==>
          s.claimedBy[x] < |s.workers| && s.workers[s.claimedBy[x]].Working() && s.workers[s.claimedBy[x]].Node() == x)
    && (forall w :: 0 <= w < |s.workers| && s.workers[w].Working() ==>
          && s.workers[w].Node() in s.claimedBy && s.claimedBy[s.workers[w].Node()] == w
          && s.workers[w].Node() !in s.finished)
  }

  /** How many unpruned pushes an insertion may have made onto its own list at a level. */
  function Pushes(c: Build, p: Phase, level: nat): nat {
    match p
    case Pop(_, lc, _, _) => if level > lc then c.Cap(level) else 0
    case Fetch(_, lc, _, _, _) => if level > lc then c.Cap(level) else 0
    case Scan(_, lc, _, _, _) => if level > lc then c.Cap(level) else 0
    case Linking(_, lc, _, _, _, idx, stage) =>
      if level > lc then c.Cap(level)
      else if level == lc then (if stage.Linked? || stage.HoldLow? then idx + 1 else idx)
      else 0
    case AskEntry(_) => c.Cap(level)
    case HoldEntry(_) => c.Cap(level)
    case _ => 0
  }

  function PushedTo(c: Build, s: State, x: nat, level: nat): nat {
    if x in s.finished then c.Cap(level)
    else if x in s.claimedBy && s.claimedBy[x] < |s.workers| then Pushes(c, s.workers[s.claimedBy[x]], level)
    else 0
  }

  ghost predicate DegreesOk(c: Build, s: State) {
    forall x, l :: 0 <= x < |s.links| && 0 <= l < |s.links[x]| ==>
      |s.links[x][l]| <= c.Cap(l) + PushedTo(c, s, x, l)
  }

  ghost predicate Inv(c: Build, s: State) {
    c.Valid() && LinksOk(c, s.links) && EntryOk(c, s) && PhasesOk(c, s) && LocksOk(s) && ClaimsOk(c, s) && DegreesOk(c, s)
  }

  lemma InitialInv(c: Build, s: State)
    requires c.Valid() && Initial(c, s)
    ensures Inv(c, s)
  {
    forall x, l | 0 <= x < |s.links| && 0 <= l < |s.links[x]|
      ensures ListOk(Heights(s.links), x, l, s.links[x][l])
    {
      assert s.links[x][l] == [];
    }
  }
}
