/** A build in which the seed is far from the other nodes, which are all equally near to each other, and how
    one worker of it goes ahead while the others wait. */
module HnswParallelLopsided {
  import opened Counting
  import opened Options
  import opened Ranking
  import opened Neighbours
  import opened Graphs
  import opened HnswParallel
  import opened HnswParallelResults

  // ---------- The build ----------

  /** Itself nearest, then all the others alike, then the seed. */
  function Closeness(a: nat, b: nat): real {
    if a == b then 2.0 else if a == 0 || b == 0 then 0.0 else 1.0
  }

  /** The seed's levels, the beam width, the list cap and the number of rows. */
  datatype Lopsided = Lopsided(h: nat, ef: nat, m: nat, n: nat) {
    /** As many nodes as keep the seed out of a layer-0 selection. */
    function Crowd(): nat {
      Min(ef, 2 * m)
    }

    predicate Ok() {
      h >= 3 && ef >= 2 && m >= 2 && Crowd() < n
    }

    function HeightOf(x: nat): nat {
      if x == 0 then h else if x == 1 || x == Crowd() then 3 else 1
    }

    function Build(): (c: Build)
      ensures |c.rows| == |c.heights| == n && c.ef == ef && c.m == m && c.mMax0 == 2 * m
      ensures forall x :: 0 <= x < n ==> c.rows[x] == x && c.heights[x] == HeightOf(x)
    {
      HnswParallel.Build(seq(n, x => x), Closeness, seq(n, x requires 0 <= x => HeightOf(x)), m, 2 * m, ef)
    }
  }

  lemma Scores(pl: Lopsided, v: nat)
    requires v < pl.n
    ensures forall x: nat :: x < pl.n ==> pl.Build().Score(v)(x) == Closeness(v, x)
  {
    var c := pl.Build();
    assert c.Score(v) == NodeScore(c.rows, FromRow(Closeness, v));
  }

  /** Nothing is nearer to another candidate than to the base, so the selection is the best `m`. */
  lemma SelectsBest(pl: Lopsided, v: nat, found: seq<nat>, m: nat)
    requires 0 < v < pl.n && Distinct(found) && NodesBelow(WithScores(found, pl.Build().Score(v)), pl.n)
    ensures Select(pl.Build().rows, Closeness, WithScores(found, pl.Build().Score(v)), m) == found[..Min(m, |found|)]
  {
    var c := pl.Build();
    var cs := WithScores(found, c.Score(v));
    assert Nodes(cs) == found && cs[0..] == cs && cs[..0] == [];
    forall i | 0 <= i < |found|
      ensures found[i] < pl.n && cs[i] == Scored(Closeness(v, found[i]), found[i])
    {
      assert cs[i] in cs;
      Scores(pl, v);
    }
    KeepsAll(c.rows, cs, v, 0, m);
    var k := Min(m, |cs|);
    assert Nodes(cs[..k]) == found[..k];
    TopsUpNothing(cs, m, found[..k]);
  }

  lemma {:induction false} KeepsAll(rows: seq<nat>, cs: seq<Scored>, v: nat, i: nat, m: nat)
    requires i <= |cs| && i <= m && Distinct(Nodes(cs)) && NodesBelow(cs[i..], |rows|) && v > 0
    requires forall x :: 0 <= x < |rows| ==> rows[x] == x
    requires forall j :: 0 <= j < |cs| ==> cs[j].node < |rows| && cs[j].score == Closeness(v, cs[j].node)
    ensures KeepDiverse(rows, Closeness, cs[i..], m, cs[..i]) == cs[..Min(m, |cs|)]
    decreases |cs| - i
  {
    if i < |cs| && i < m {
      assert cs[i..][0] == cs[i] && cs[i..][1..] == cs[i + 1..] && cs[..i] + [cs[i]] == cs[..i + 1];
      forall r | r in Nodes(cs[..i])
        ensures r != cs[i].node
      {
        var j :| 0 <= j < i && Nodes(cs[..i])[j] == r;
        assert Nodes(cs)[j] == r && Nodes(cs)[i] == cs[i].node;
      }
      assert Diverse(rows, Closeness, cs[i], Nodes(cs[..i]));
      KeepsAll(rows, cs, v, i + 1, m);
    }
  }

  lemma {:induction false} TopsUpNothing(cs: seq<Scored>, m: nat, kept: seq<nat>)
    requires |kept| >= m || forall c :: c in cs ==> c.node in kept
    ensures TopUp(cs, m, kept) == kept
  {
    if cs != [] && |kept| < m {
      assert cs[0] in cs;
      TopsUpNothing(cs[1..], m, kept);
    }
  }

  // ---------- Extending a run ----------

  ghost predicate IsPath(c: Build, path: seq<State>) {
    path != [] && forall i, j :: 0 <= i < |path| - 1 && j == i + 1 ==> Next(c, path[i], path[j])
  }

  ghost predicate Leads(c: Build, a: State, b: State) {
    exists path :: IsPath(c, path) && path[0] == a && path[|path| - 1] == b
  }

  lemma LeadsToItself(c: Build, a: State)
    ensures Leads(c, a, a)
  {
    assert IsPath(c, [a]);
  }

  lemma Extend(c: Build, s0: State, a: State, b: State, w: nat, step: Step)
    requires Leads(c, s0, a) && Takes(c, a, b, w, step)
    ensures Leads(c, s0, b)
  {
    hide Takes;
    var path :| IsPath(c, path) && path[0] == s0 && path[|path| - 1] == a;
    assert Next(c, a, b);
    assert IsPath(c, path + [b]);
  }

  /** `s` with worker `w` in phase `p` over the graph `links`. */
  function With(s: State, w: nat, p: Phase, links: Links): State
    requires w < |s.workers|
  {
    s.(workers := s.workers[w := p], links := links)
  }

  ghost predicate Calm(s: State, w: nat) {
    w < |s.workers| && s.locks == map[] && s.entryWriter == None
  }

  lemma WithGoto(s: State, w: nat, p: Phase, q: Phase, links: Links)
    requires w < |s.workers|
    ensures Goto(With(s, w, p, links), w, q) == With(s, w, q, links)
  {
    assert s.workers[w := p][w := q] == s.workers[w := q];
  }

  lemma WithItself(s: State, w: nat)
    requires w < |s.workers|
    ensures With(s, w, s.workers[w], s.links) == s
  {
    assert s.workers[w := s.workers[w]] == s.workers;
  }

  /** Worker `w` inserting `job.node` in a run from `s0`, with `ep` where its descent ended; everything but
      its phase and the graph is as in `s`. */
  datatype Actor = Actor(c: Build, s0: State, s: State, w: nat, job: Job, ep: nat) {
    ghost predicate At(p: Phase, links: Links) {
      Calm(s, w) && Leads(c, s0, With(s, w, p, links))
    }

    ghost function Score(): nat -> real {
      c.Score(job.node)
    }
  }

  lemma Moves(a: Actor, p: Phase, q: Phase, links: Links, step: Step)
    requires a.At(p, links) && Takes(a.c, With(a.s, a.w, p, links), Goto(With(a.s, a.w, p, links), a.w, q), a.w, step)
    ensures a.At(q, links)
  {
    hide Takes, Leads;
    Extend(a.c, a.s0, With(a.s, a.w, p, links), Goto(With(a.s, a.w, p, links), a.w, q), a.w, step);
    WithGoto(a.s, a.w, p, q, links);
  }

  // ---------- Searching ----------

  /** Takes the best candidate off the heap and copies its list. */
  lemma Reads(a: Actor, links: Links, level: nat, h: Heaps, cand: nat, h': Heaps, list: seq<nat>)
    requires a.At(Pop(a.job, level, a.ep, h), links) && cand < |links| && !Exhausted(h, a.c.ef, a.Score())
    requires cand in h.candidates && forall x :: x in h.candidates ==> a.Score()(x) <= a.Score()(cand)
    requires h'.seen == h.seen && h'.result == h.result && h'.candidates == h.candidates - {cand}
    requires list == if level < |links[cand]| then links[cand][level] else []
    ensures a.At(Scan(a.job, level, a.ep, h', list), links)
  {
    hide Leads, EdgeLinked, Offered, Exhausted;
    var fetch := Fetch(a.job, level, a.ep, h', cand);
    Moves(a, Pop(a.job, level, a.ep, h), fetch, links, DoPopBest(cand));
    Moves(a, fetch, Scan(a.job, level, a.ep, h', list), links, DoCopyList);
  }

  lemma Offers(a: Actor, links: Links, level: nat, h: Heaps, list: seq<nat>, h': Heaps, dropped: nat)
    requires a.At(Scan(a.job, level, a.ep, h, list), links) && list != []
    requires Offered(h, h', a.c.ef, a.Score(), list[0], dropped)
    ensures a.At(Scan(a.job, level, a.ep, h', list[1..]), links)
  {
    hide Leads, EdgeLinked, Exhausted, Offered;
    Moves(a, Scan(a.job, level, a.ep, h, list), Scan(a.job, level, a.ep, h', list[1..]), links, DoScoreNext(h', dropped));
  }

  /** Every neighbour on the list has been seen. */
  lemma {:induction false} SeesNothingNew(a: Actor, links: Links, level: nat, h: Heaps, list: seq<nat>)
    requires a.At(Scan(a.job, level, a.ep, h, list), links)
    requires forall x :: x in list ==> x in h.seen
    ensures a.At(Pop(a.job, level, a.ep, h), links)
    decreases |list|
  {
    hide Leads, EdgeLinked, Exhausted;
    if list == [] {
      Moves(a, Scan(a.job, level, a.ep, h, []), Pop(a.job, level, a.ep, h), links, DoScoreNext(h, 0));
    } else {
      Offers(a, links, level, h, list, h, 0);
      SeesNothingNew(a, links, level, h, list[1..]);
    }
  }

  /** A candidate that is also kept rules out that the search is over. */
  lemma StillGoing(h: Heaps, ef: nat, f: nat -> real, x: nat)
    requires x in h.candidates && x in h.result
    ensures !Exhausted(h, ef, f)
  {
  }

  lemma EndsSearch(a: Actor, pl: Lopsided, links: Links, level: nat, h: Heaps, found: seq<nat>, selected: seq<nat>)
    requires a.c == pl.Build() && 0 < a.job.node < pl.n
    requires a.At(Pop(a.job, level, a.ep, h), links) && Exhausted(h, a.c.ef, a.Score())
    requires Distinct(found) && Elements(found) == h.result && Descending(found, a.Score())
    requires (forall x :: x in found ==> x < pl.n) && selected == found[..Min(a.c.Cap(level), |found|)]
    ensures a.At(Linking(a.job, level, a.ep, found, selected, 0, Ready), links)
  {
    hide Leads, EdgeLinked, Exhausted, Offered;
    BelowByElements(found, a.Score(), pl.n);
    SelectsBest(pl, a.job.node, found, a.c.Cap(level));
    assert a.c.walk == Closeness;
    Moves(a, Pop(a.job, level, a.ep, h), Linking(a.job, level, a.ep, found, selected, 0, Ready), links, DoFinishSearch(found));
  }

  // ---------- Linking ----------

  lemma SkipsSelf(a: Actor, links: Links, level: nat, found: seq<nat>, selected: seq<nat>, idx: nat)
    requires a.At(Linking(a.job, level, a.ep, found, selected, idx, Ready), links)
    requires idx < |selected| && selected[idx] == a.job.node
    ensures a.At(Linking(a.job, level, a.ep, found, selected, idx + 1, Ready), links)
  {
    hide Leads, EdgeLinked, Exhausted, Offered;
    var p := Linking(a.job, level, a.ep, found, selected, idx, Ready);
    Moves(a, p, p.(idx := idx + 1), links, DoNextEdge);
  }

  /** Both locks in order, the edge, and the locks back. */
  lemma Edge(a: Actor, links: Links, links': Links, level: nat, found: seq<nat>, selected: seq<nat>, idx: nat, kept: seq<nat>)
    requires a.At(Linking(a.job, level, a.ep, found, selected, idx, Ready), links)
    requires idx < |selected| && selected[idx] != a.job.node
    requires EdgeLinked(a.c, links, links', a.job.node, selected[idx], level, kept)
    ensures a.At(Linking(a.job, level, a.ep, found, selected, idx + 1, Ready), links')
  {
    hide Leads, EdgeLinked, Exhausted, Offered;
    var p := Linking(a.job, level, a.ep, found, selected, idx, Ready);
    Moves(a, p, p.(stage := WantLow), links, DoNextEdge);
    LocksBoth(a, links, p);
    var both := a.s.(locks := map[p.Low() := a.w, p.High() := a.w]);
    WithGoto(both, a.w, p.(stage := HoldBoth), p.(stage := Linked), links);
    Extend(a.c, a.s0, With(both, a.w, p.(stage := HoldBoth), links), With(both, a.w, p.(stage := Linked), links'), a.w,
           DoLinkAndPrune(links', kept));
    UnlocksBoth(a, links', p);
  }

  lemma LocksBoth(a: Actor, links: Links, p: Phase)
    requires p.Linking? && p.idx < |p.selected| && p.selected[p.idx] != p.job.node
    requires a.At(p.(stage := WantLow), links)
    ensures Leads(a.c, a.s0, With(a.s.(locks := map[p.Low() := a.w, p.High() := a.w]), a.w, p.(stage := HoldBoth), links))
  {
    hide Leads, EdgeLinked, Exhausted, Offered;
    var low := a.s.(locks := map[p.Low() := a.w]);
    var both := a.s.(locks := map[p.Low() := a.w, p.High() := a.w]);
    var p1, p2, p3 := p.(stage := WantLow), p.(stage := WantHigh), p.(stage := HoldBoth);
    WithGoto(a.s, a.w, p1, p2, links);
    Extend(a.c, a.s0, With(a.s, a.w, p1, links), With(low, a.w, p2, links), a.w, DoLockLow);
    WithGoto(low, a.w, p2, p3, links);
    assert low.locks[p.High() := a.w] == both.locks;
    Extend(a.c, a.s0, With(low, a.w, p2, links), With(both, a.w, p3, links), a.w, DoLockHigh);
  }

  lemma UnlocksBoth(a: Actor, links: Links, p: Phase)
    requires Calm(a.s, a.w) && p.Linking? && p.idx < |p.selected| && p.selected[p.idx] != p.job.node
    requires Leads(a.c, a.s0, With(a.s.(locks := map[p.Low() := a.w, p.High() := a.w]), a.w, p.(stage := Linked), links))
    ensures a.At(p.(stage := Ready, idx := p.idx + 1), links)
  {
    hide Leads, EdgeLinked, Exhausted, Offered;
    var low := a.s.(locks := map[p.Low() := a.w]);
    var both := a.s.(locks := map[p.Low() := a.w, p.High() := a.w]);
    var p1, p2, p3 := p.(stage := Linked), p.(stage := HoldLow), p.(stage := Ready, idx := p.idx + 1);
    WithGoto(both, a.w, p1, p2, links);
    assert both.locks - {p.High()} == low.locks;
    Extend(a.c, a.s0, With(both, a.w, p1, links), With(low, a.w, p2, links), a.w, DoUnlockHigh);
    WithGoto(low, a.w, p2, p3, links);
    assert low.locks - {p.Low()} == a.s.locks;
    Extend(a.c, a.s0, With(low, a.w, p2, links), With(a.s, a.w, p3, links), a.w, DoUnlockLow);
  }

  lemma GoesDown(a: Actor, links: Links, level: nat, found: seq<nat>, selected: seq<nat>, h: Heaps)
    requires a.At(Linking(a.job, level, a.ep, found, selected, |selected|, Ready), links)
    requires level > 0 && found != [] && a.job.node < |a.c.heights|
    requires h.seen == h.candidates == h.result == Elements(found)
    ensures a.At(Pop(a.job, level - 1, a.ep, h), links)
  {
    hide Leads, EdgeLinked, Exhausted, Offered;
    Moves(a, Linking(a.job, level, a.ep, found, selected, |selected|, Ready), Pop(a.job, level - 1, a.ep, h), links, DoLevelDone);
  }
}
