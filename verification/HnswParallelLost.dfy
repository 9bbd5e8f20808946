/** Runs of the parallel builder after which the seed has no layer-0 neighbour. Node 1 links to the seed on
    level 2 and pauses; short nodes come in below it and never meet the seed; the last node of three levels
    links to node 1 and the seed on levels 2 and 1 and pauses. Node 1 then meets itself through the last
    node, and all the short nodes on layer 0: too many for the seed to stay among the selected. The last
    node fares likewise, and every later node comes in below the two. */
module HnswParallelLost {
  import opened Counting
  import opened Options
  import opened Ranking
  import opened Graphs
  import opened HnswParallel
  import opened HnswParallelLopsided
  import opened HnswParallelCrowd

  // ---------- The first tall node comes in and pauses ----------

  const FirstUp: Tall := Tall([1], [0], [])

  ghost predicate FirstWaits(pl: Lopsided, s: State)
    requires pl.Ok() && |s.workers| >= 2
  {
    s.workers[0] == Pop(Job(1, pl.h - 1), 1, 0, Same({0}))
  }

  function Opening(pl: Lopsided, workers: nat): State
    requires pl.Ok()
  {
    State(seq(pl.n, x requires 0 <= x => seq(pl.HeightOf(x), _ => [])), 0, pl.h - 1, 1, map[], None,
          seq(workers, _ => Idle), map[], {})
  }

  lemma OpeningScene(pl: Lopsided, workers: nat)
    requires pl.Ok() && workers >= 2
    ensures Initial(pl.Build(), Opening(pl, workers)) && pl.Build().Valid() && |Opening(pl, workers).workers| == workers
    ensures Scene(pl, Opening(pl, workers), Opening(pl, workers))
    ensures Upper(pl, Opening(pl, workers).links, Bare, Bare) && Clique(Opening(pl, workers).links, 1)
  {
    hide Leads, Among;
    LeadsToItself(pl.Build(), Opening(pl, workers));
  }

  lemma FirstLinksSeed(a: Actor, pl: Lopsided, links: Links) returns (links': Links)
    requires pl.Ok() && a.c == pl.Build() && a.job.node == 1 && a.ep == 0
    requires a.At(Pop(a.job, 2, 0, Same({0})), links) && Upper(pl, links, Bare, Bare)
    ensures a.At(Pop(a.job, 1, 0, Same({0})), links') && Upper(pl, links', FirstUp, Bare) && SameBottom(links, links')
  {
    hide Actor.At;
    var met := Heaps({0}, {}, {0});
    StillGoing(Same({0}), pl.ef, a.Score(), 0);
    Reads(a, links, 2, Same({0}), 0, met, []);
    SeesNothingNew(a, links, 2, met, []);
    EndsSearch(a, pl, links, 2, met, [0], [0]);
    links' := LinksTall(a, pl, links, Bare, Bare, 2, [0], [0], 0);
    GoesDown(a, links', 2, [0], [0], Same({0}));
  }

  lemma CliqueSame(links: Links, links': Links, k: nat)
    requires Clique(links, k) && SameBottom(links, links')
    ensures Clique(links', k)
  {
    hide Among, ListWithin;
    forall x | 0 <= x < |links'|
      ensures |links'[x]| >= 1 && ListWithin(links'[x][0], x, k)
    {
      assert |links[x]| >= 1 && ListWithin(links[x][0], x, k);
    }
  }

  lemma FirstComes(pl: Lopsided, s0: State) returns (s: State)
    requires Scene(pl, s0, s0) && |s0.workers| >= 2 && s0.workers[0] == Idle && s0.workers[1] == Idle && s0.counter == 1
    requires Upper(pl, s0.links, Bare, Bare) && Clique(s0.links, 1)
    ensures Scene(pl, s0, s) && FirstWaits(pl, s) && s.workers[1] == Idle && s.counter == 2 && s.finished == s0.finished
    ensures Upper(pl, s.links, FirstUp, Bare) && Clique(s.links, 1) && |s.workers| == |s0.workers|
  {
    hide Leads, Upper, Clique;
    var a := Begins(pl, s0, s0, 0, 1, Bare, Bare, 0);
    TallStart(a, pl, s0.links);
    var links := FirstLinksSeed(a, pl, s0.links);
    CliqueSame(s0.links, links, 1);
    s := With(a.s, 0, Pop(a.job, 1, 0, Same({0})), links);
  }

  // ---------- Short nodes come in below it ----------

  lemma ShortDescends(a: Actor, pl: Lopsided, links: Links)
    requires pl.Ok() && a.c == pl.Build() && a.ep == 1 && 1 < a.job.node < pl.n && !IsTall(pl, a.job.node)
    requires a.job.top == pl.h - 1 && Upper(pl, links, FirstUp, Bare) && a.At(AfterDescent(a.c, a.job, 2, 0), links)
    ensures a.At(Pop(a.job, 0, 1, Same({1})), links)
  {
    hide Leads, EdgeLinked, Exhausted, Offered;
    Scores(pl, a.job.node);
    var j := a.job;
    var one: seq<nat>, zero: seq<nat> := [1], [0];
    assert one[1..] == [] && zero[1..] == [];
    Moves(a, GreedyFetch(j, 2, 0), GreedyScan(j, 2, 0, false, [1]), links, DoGreedyCopy);
    Moves(a, GreedyScan(j, 2, 0, false, [1]), GreedyScan(j, 2, 1, true, []), links, DoGreedyScore);
    Moves(a, GreedyScan(j, 2, 1, true, []), GreedyFetch(j, 2, 1), links, DoGreedyScore);
    Moves(a, GreedyFetch(j, 2, 1), GreedyScan(j, 2, 1, false, [0]), links, DoGreedyCopy);
    Moves(a, GreedyScan(j, 2, 1, false, [0]), GreedyScan(j, 2, 1, false, []), links, DoGreedyScore);
    Moves(a, GreedyScan(j, 2, 1, false, []), GreedyFetch(j, 1, 1), links, DoGreedyScore);
    StaysAlone(a, links, 1, 1);
    assert Elements([1]) == {1};
    assert AfterDescent(a.c, j, 0, 1) == Pop(j, 0, 1, Same({1}));
  }

  lemma CliqueReach(links: Links, k: nat)
    requires Clique(links, k) && 1 <= k
    ensures k < |links| && Within(links, k) && |links[1]| >= 1 && Among(k) <= {1} + Elements(links[1][0])
  {
    hide Among;
  }

  lemma CliqueGrows(links: Links, links': Links, k: nat)
    requires Clique(links, k) && k + 1 < |links| && Within(links', k + 1) && Keeps0(links, links') && |links'| == |links|
    requires Mutual(links', k + 1, k)
    ensures Clique(links', k + 1)
  {
    hide Among, ListWithin;
    forall x, y | 1 <= x <= k + 1 && 1 <= y <= k + 1 && x != y
      ensures y in links'[x][0]
    {
      if x <= k && y <= k {
        assert On0(links, x, y);
      } else {
        var z := if x == k + 1 then y else x;
        assert z in Among(k) && z != k + 1;
        assert On0(links', k + 1, z) && On0(links', z, k + 1);
      }
    }
  }

  lemma WithinMore(links: Links, k: nat)
    requires Clique(links, k)
    ensures Within(links, k + 1)
  {
    hide Among;
    forall x | 0 <= x < |links|
      ensures |links[x]| >= 1 && ListWithin(links[x][0], x, k + 1)
    {
      assert ListWithin(links[x][0], x, k);
    }
  }

  /** One short node: it finds every node in the crowd and links to each. */
  lemma ShortLinks(a: Actor, pl: Lopsided, links: Links, k: nat) returns (links': Links, found: seq<nat>, selected: seq<nat>)
    requires pl.Ok() && a.c == pl.Build() && a.ep == 1 && a.job.node == k + 1 && 1 <= k && k + 1 < pl.Crowd()
    requires |links| == pl.n && Clique(links, k) && a.At(Pop(a.job, 0, 1, Same({1})), links)
    ensures a.At(Linking(a.job, 0, 1, found, selected, |selected|, Ready), links')
    ensures SameAbove(links, links') && Clique(links', k + 1)
  {
    hide Actor.At, Among, Keeps0, Clique, Within, SameAbove, Mutual;
    CliqueReach(links, k);
    WithinMore(links, k);
    CrowdFits(pl);
    hide Lopsided.Crowd;
    var starts: set<nat> := {1};
    assert |starts| == 1;
    links', found, selected := CrowdLinks(a, pl, links, starts, k, k + 1);
    CliqueGrows(links, links', k);
  }

  lemma UpperAbove(pl: Lopsided, links: Links, links': Links, top: Tall, mid: Tall)
    requires pl.Ok() && Upper(pl, links, top, mid) && SameAbove(links, links')
    ensures Upper(pl, links', top, mid)
  {
  }

  /** The crowd of `k` nodes, all but the first of them short and finished. */
  ghost predicate CrowdIn(pl: Lopsided, s0: State, s: State, k: nat) {
    && Scene(pl, s0, s) && FirstWaits(pl, s) && s.workers[1] == Idle && |s.workers| == |s0.workers|
    && s.counter == k + 1 && s.finished == Among(k) - {1} && Upper(pl, s.links, FirstUp, Bare) && Clique(s.links, k)
  }

  lemma ShortComes(pl: Lopsided, s0: State, s: State, k: nat) returns (t: State)
    requires CrowdIn(pl, s0, s, k) && 1 <= k && k + 1 < pl.Crowd()
    ensures CrowdIn(pl, s0, t, k + 1)
  {
    hide Leads, Upper, Clique;
    var a := Begins(pl, s0, s, 1, k + 1, FirstUp, Bare, 1);
    ShortDescends(a, pl, s.links);
    UpperSize(pl, s.links, FirstUp, Bare);
    var links, found, selected := ShortLinks(a, pl, s.links, k);
    UpperAbove(pl, s.links, links, FirstUp, Bare);
    Ends(a, pl, links, found, selected);
    t := With(a.s.(finished := a.s.finished + {k + 1}), 1, Idle, links);
    assert Among(k + 1) - {1} == (Among(k) - {1}) + {k + 1};
  }

  lemma UpperSize(pl: Lopsided, links: Links, top: Tall, mid: Tall)
    requires pl.Ok() && Upper(pl, links, top, mid)
    ensures |links| == pl.n
  {
  }

  lemma {:induction false} ShortsCome(pl: Lopsided, s0: State, s: State, k: nat) returns (t: State)
    requires CrowdIn(pl, s0, s, k) && 1 <= k < pl.Crowd()
    ensures CrowdIn(pl, s0, t, pl.Crowd() - 1)
    decreases pl.Crowd() - k
  {
    hide CrowdIn;
    if k + 1 == pl.Crowd() {
      t := s;
    } else {
      var next := ShortComes(pl, s0, s, k);
      t := ShortsCome(pl, s0, next, k + 1);
    }
  }

  // ---------- The last tall node comes in and pauses ----------

  lemma OfferDrops(h: Heaps, h': Heaps, f: nat -> real, nbr: nat, dropped: nat, other: nat)
    requires nbr !in h.seen && nbr !in h.result && h.result == {dropped, other} && dropped != other
    requires f(dropped) < f(nbr) && f(dropped) < f(other)
    requires h'.seen == h.seen + {nbr} && h'.candidates == h.candidates + {nbr} && h'.result == {other, nbr}
    ensures Offered(h, h', 2, f, nbr, dropped)
  {
    assert |h.result + {nbr}| == 3;
    assert dropped in h.result && f(dropped) < f(nbr);
    assert h.result + {nbr} - {dropped} == {other, nbr};
  }

  function TopDone(pl: Lopsided): Tall {
    Tall([1, pl.Crowd()], [0, pl.Crowd()], [1, 0])
  }

  function MidDone(pl: Lopsided): Tall {
    Tall([pl.Crowd()], [pl.Crowd()], [1, 0])
  }

  ghost predicate LastOf(a: Actor, pl: Lopsided) {
    pl.Ok() && a.c == pl.Build() && a.job.node == pl.Crowd() && a.ep == 0
  }

  lemma LastMeetsBoth(a: Actor, pl: Lopsided, links: Links)
    requires LastOf(a, pl) && Upper(pl, links, FirstUp, Bare) && a.At(Pop(a.job, 2, 0, Same({0})), links)
    ensures a.At(Pop(a.job, 2, 0, Heaps({0, 1}, {}, {0, 1})), links)
  {
    hide Actor.At, Offered, Exhausted;
    Scores(pl, a.job.node);
    var alone, both, met := Heaps({0}, {}, {0}), Heaps({0, 1}, {1}, {0, 1}), Heaps({0, 1}, {}, {0, 1});
    StillGoing(Same({0}), pl.ef, a.Score(), 0);
    Reads(a, links, 2, Same({0}), 0, alone, [1]);
    OfferFits(alone, both, pl.ef, a.Score(), 1);
    var one: seq<nat> := [1];
    assert one[1..] == [];
    Offers(a, links, 2, alone, one, both, 0);
    SeesNothingNew(a, links, 2, both, []);
    StillGoing(both, pl.ef, a.Score(), 1);
    Reads(a, links, 2, both, 1, met, [0]);
    SeesNothingNew(a, links, 2, met, [0]);
  }

  lemma LastLinksBoth(a: Actor, pl: Lopsided, links: Links, level: nat, top: Tall, mid: Tall) returns (links': Links)
    requires LastOf(a, pl) && Upper(pl, links, top, mid) && 1 <= level <= 2
    requires var t := if level == 2 then top else mid;
      t.last == [] && |t.seed| <= 1 && |t.first| <= 1 && pl.Crowd() !in t.seed && pl.Crowd() !in t.first
    requires a.At(Pop(a.job, level, 0, Heaps({0, 1}, {}, {0, 1})), links)
    ensures a.At(Pop(a.job, level - 1, 0, Same({0, 1})), links') && SameBottom(links, links')
    ensures var q := pl.Crowd();
      var t := if level == 2 then top else mid;
      var t' := Tall(t.seed + [q], t.first + [q], [1, 0]);
      Upper(pl, links', if level == 2 then t' else top, if level == 1 then t' else mid)
  {
    hide Actor.At, Upper;
    Scores(pl, a.job.node);
    var found: seq<nat> := [1, 0];
    assert Elements(found) == {0, 1} && found[..2] == found;
    EndsSearch(a, pl, links, level, Heaps({0, 1}, {}, {0, 1}), found, found);
    var half := LinksTall(a, pl, links, top, mid, level, found, found, 0);
    var t := WithPair(pl, if level == 2 then top else mid, a.job.node, 1);
    links' := LinksTall(a, pl, half, if level == 2 then t else top, if level == 1 then t else mid, level, found, found, 1);
    GoesDown(a, links', level, found, found, Same({0, 1}));
    BothGained(pl, if level == 2 then top else mid);
  }

  lemma BothGained(pl: Lopsided, t: Tall)
    requires pl.Ok() && t.last == [] && pl.Crowd() !in t.seed && pl.Crowd() !in t.first
    ensures var q := pl.Crowd(); WithPair(pl, WithPair(pl, t, q, 1), q, 0) == Tall(t.seed + [q], t.first + [q], [1, 0])
  {
    assert [] + [1] == [1] && [1] + [0] == [1, 0];
  }

  lemma LastOnLevel1(a: Actor, pl: Lopsided, links: Links)
    requires LastOf(a, pl) && Upper(pl, links, TopDone(pl), Bare) && a.At(Pop(a.job, 1, 0, Same({0, 1})), links)
    ensures a.At(Pop(a.job, 1, 0, Heaps({0, 1}, {}, {0, 1})), links)
  {
    hide Actor.At, Exhausted;
    Scores(pl, a.job.node);
    var one, met := Heaps({0, 1}, {0}, {0, 1}), Heaps({0, 1}, {}, {0, 1});
    StillGoing(Same({0, 1}), pl.ef, a.Score(), 1);
    Reads(a, links, 1, Same({0, 1}), 1, one, []);
    SeesNothingNew(a, links, 1, one, []);
    StillGoing(one, pl.ef, a.Score(), 0);
    Reads(a, links, 1, one, 0, met, []);
    SeesNothingNew(a, links, 1, met, []);
  }

  ghost predicate LastWaits(pl: Lopsided, s: State)
    requires pl.Ok() && |s.workers| >= 2
  {
    s.workers[1] == Pop(Job(pl.Crowd(), pl.h - 1), 0, 0, Same({0, 1}))
  }

  lemma LastComes(pl: Lopsided, s0: State, s: State, k: nat) returns (t: State)
    requires CrowdIn(pl, s0, s, k) && k + 1 == pl.Crowd()
    ensures Scene(pl, s0, t) && FirstWaits(pl, t) && LastWaits(pl, t) && |t.workers| == |s0.workers|
    ensures t.counter == pl.Crowd() + 1 && t.finished == Among(k) - {1}
    ensures Upper(pl, t.links, TopDone(pl), MidDone(pl)) && Clique(t.links, k)
  {
    hide Leads, Upper, Clique, Among;
    CrowdFits(pl);
    var q := pl.Crowd();
    var a := Begins(pl, s0, s, 1, q, FirstUp, Bare, 0);
    TallStart(a, pl, s.links);
    LastMeetsBoth(a, pl, s.links);
    assert [1] + [q] == [1, q] && [0] + [q] == [0, q] && [] + [q] == [q];
    var half := LastLinksBoth(a, pl, s.links, 2, FirstUp, Bare);
    LastOnLevel1(a, pl, half);
    var links := LastLinksBoth(a, pl, half, 1, TopDone(pl), Bare);
    CliqueSame(s.links, half, k);
    CliqueSame(half, links, k);
    t := With(a.s, 1, Pop(a.job, 0, 0, Same({0, 1})), links);
  }

  // ---------- The first goes on and finishes, then the last ----------

  ghost predicate FirstOf(a: Actor, pl: Lopsided) {
    pl.Ok() && a.c == pl.Build() && a.job.node == 1 && a.ep == 0
  }

  /** What node 1 finds on level 1: itself and the last tall node, and the seed if the beam has room. */
  ghost predicate FoundAbove(pl: Lopsided, found: seq<nat>) {
    found == [1, pl.Crowd()] || (found == [1, pl.Crowd(), 0] && pl.ef >= 3)
  }

  lemma FirstMeetsLast(a: Actor, pl: Lopsided, links: Links, top: Tall)
    requires FirstOf(a, pl) && Upper(pl, links, top, MidDone(pl)) && a.At(Pop(a.job, 1, 0, Same({0})), links)
    ensures var q := pl.Crowd(); a.At(Scan(a.job, 1, 0, Heaps({0, q}, {}, {0, q}), [1, 0]), links)
  {
    hide Actor.At, Offered, Exhausted;
    CrowdFits(pl);
    var q := pl.Crowd();
    hide Lopsided.Crowd;
    var alone, two := Heaps({0}, {}, {0}), Heaps({0, q}, {q}, {0, q});
    StillGoing(Same({0}), pl.ef, a.Score(), 0);
    Reads(a, links, 1, Same({0}), 0, alone, [q]);
    OfferFits(alone, two, pl.ef, a.Score(), q);
    var list: seq<nat> := [q];
    assert list[1..] == [];
    Offers(a, links, 1, alone, list, two, 0);
    SeesNothingNew(a, links, 1, two, []);
    StillGoing(two, pl.ef, a.Score(), q);
    Reads(a, links, 1, two, q, Heaps({0, q}, {}, {0, q}), [1, 0]);
  }

  function KeptAbove(pl: Lopsided, q: nat): set<nat> {
    if pl.ef == 2 then {1, q} else {0, 1, q}
  }

  lemma OfferItself(pl: Lopsided, q: nat, f: nat -> real)
    requires pl.ef >= 2 && q >= 2 && f(0) < f(1) && f(0) < f(q)
    ensures Offered(Heaps({0, q}, {}, {0, q}), Heaps({0, 1, q}, {1}, KeptAbove(pl, q)), pl.ef, f, 1, 0)
  {
    hide Offered;
    var two, all := Heaps({0, q}, {}, {0, q}), Heaps({0, 1, q}, {1}, KeptAbove(pl, q));
    if pl.ef == 2 {
      OfferDrops(two, all, f, 1, 0, q);
    } else {
      OfferFits(two, all, pl.ef, f, 1);
    }
  }

  lemma FirstMeetsItself(a: Actor, pl: Lopsided, links: Links, top: Tall)
    requires FirstOf(a, pl) && Upper(pl, links, top, MidDone(pl))
    requires var q := pl.Crowd(); a.At(Scan(a.job, 1, 0, Heaps({0, q}, {}, {0, q}), [1, 0]), links)
    ensures var q := pl.Crowd(); a.At(Pop(a.job, 1, 0, Heaps({0, 1, q}, {}, KeptAbove(pl, q))), links)
  {
    hide Actor.At, Offered, Exhausted;
    CrowdFits(pl);
    Scores(pl, 1);
    var q := pl.Crowd();
    hide Lopsided.Crowd;
    var all, met := Heaps({0, 1, q}, {1}, KeptAbove(pl, q)), Heaps({0, 1, q}, {}, KeptAbove(pl, q));
    OfferItself(pl, q, a.Score());
    var list: seq<nat> := [1, 0];
    assert list[1..] == [0];
    Offers(a, links, 1, Heaps({0, q}, {}, {0, q}), list, all, 0);
    SeesNothingNew(a, links, 1, all, [0]);
    StillGoing(all, pl.ef, a.Score(), 1);
    hide KeptAbove;
    Reads(a, links, 1, all, 1, met, [q]);
    SeesNothingNew(a, links, 1, met, [q]);
  }

  lemma FirstFindsAbove(a: Actor, pl: Lopsided, links: Links) returns (found: seq<nat>, selected: seq<nat>)
    requires FirstOf(a, pl)
    requires var q := pl.Crowd(); a.At(Pop(a.job, 1, 0, Heaps({0, 1, q}, {}, KeptAbove(pl, q))), links)
    ensures FoundAbove(pl, found) && selected == found[..Min(pl.m, |found|)]
    ensures a.At(Linking(a.job, 1, 0, found, selected, 0, Ready), links)
  {
    hide Actor.At;
    CrowdFits(pl);
    Scores(pl, 1);
    var q := pl.Crowd();
    hide Lopsided.Crowd;
    found := if pl.ef == 2 then [1, q] else [1, q, 0];
    selected := found[..Min(pl.m, |found|)];
    assert Elements(found) == KeptAbove(pl, q);
    EndsSearch(a, pl, links, 1, Heaps({0, 1, q}, {}, KeptAbove(pl, q)), found, selected);
  }

  lemma FirstLinksAbove(a: Actor, pl: Lopsided, links: Links, top: Tall, found: seq<nat>, selected: seq<nat>)
    returns (links': Links, mid: Tall)
    requires FirstOf(a, pl) && Upper(pl, links, top, MidDone(pl)) && FoundAbove(pl, found)
    requires selected == found[..Min(pl.m, |found|)] && a.At(Linking(a.job, 1, 0, found, selected, 0, Ready), links)
    ensures a.At(Pop(a.job, 0, 0, Same(Elements(found))), links') && SameBottom(links, links') && Upper(pl, links', top, mid)
  {
    hide Actor.At, Upper;
    CrowdFits(pl);
    SkipsSelf(a, links, 1, found, selected, 0);
    var one := LinksTall(a, pl, links, top, MidDone(pl), 1, found, selected, 1);
    assert WithPair(pl, MidDone(pl), 1, pl.Crowd()) == MidDone(pl);
    links', mid := one, MidDone(pl);
    if |selected| == 3 {
      mid := WithPair(pl, MidDone(pl), 1, 0);
      links' := LinksTall(a, pl, one, top, MidDone(pl), 1, found, selected, 2);
    }
    GoesDown(a, links', 1, found, selected, Same(Elements(found)));
  }

  ghost predicate LeadsToAll(links: Links, q: nat) {
    forall x :: 2 <= x <= q ==> On0(links, 1, x)
  }

  lemma FirstOnLayer0(a: Actor, pl: Lopsided, links: Links, starts: seq<nat>, k: nat)
    returns (links': Links, found: seq<nat>, selected: seq<nat>)
    requires FirstOf(a, pl) && k + 1 == pl.Crowd() && |links| == pl.n && Clique(links, k) && FoundAbove(pl, starts)
    requires a.At(Pop(a.job, 0, 0, Same(Elements(starts))), links)
    ensures a.At(Linking(a.job, 0, 0, found, selected, |selected|, Ready), links')
    ensures SameAbove(links, links') && Within(links', k + 1) && LeadsToAll(links', k + 1)
  {
    hide Actor.At, Among, Keeps0, On0, Clique, Within, SameAbove, Mutual, LeadsToAll;
    CrowdFits(pl);
    CliqueReach(links, k);
    WithinMore(links, k);
    var q := pl.Crowd();
    hide Lopsided.Crowd;
    ElementsSize(starts);
    assert 1 in Elements(starts) && q in Elements(starts) by {
      assert starts[0] == 1 && starts[1] == q;
    }
    forall x | x in Among(q)
      ensures x in Elements(starts) + Elements(links[1][0])
    {
      assert x == q || x in Among(k);
    }
    links', found, selected := CrowdLinks(a, pl, links, Elements(starts), q, q);
    LeadsFrom(links', q);
  }

  lemma LeadsFrom(links: Links, q: nat)
    requires Mutual(links, 1, q)
    ensures LeadsToAll(links, q)
  {
    hide Among, On0;
    forall x | 2 <= x <= q
      ensures On0(links, 1, x)
    {
      assert x in Among(q);
    }
  }

  ghost predicate FirstDone(pl: Lopsided, s0: State, s: State, k: nat, mid: Tall) {
    && Scene(pl, s0, s) && k + 1 == pl.Crowd() && s.workers[0] == Idle && LastWaits(pl, s) && |s.workers| == |s0.workers|
    && s.counter == k + 2 && s.finished == Among(k) && Upper(pl, s.links, TopDone(pl), mid)
    && Within(s.links, k + 1) && LeadsToAll(s.links, k + 1)
  }

  lemma FirstFinishes(pl: Lopsided, s0: State, s: State, k: nat) returns (t: State, mid: Tall)
    requires Scene(pl, s0, s) && FirstWaits(pl, s) && LastWaits(pl, s) && |s.workers| == |s0.workers|
    requires k + 1 == pl.Crowd() && s.counter == k + 2 && s.finished == Among(k) - {1}
    requires Upper(pl, s.links, TopDone(pl), MidDone(pl)) && Clique(s.links, k)
    ensures FirstDone(pl, s0, t, k, mid)
  {
    hide Leads, Upper, Clique, Within, LeadsToAll;
    CrowdFits(pl);
    var a := Actor(pl.Build(), s0, s, 0, Job(1, pl.h - 1), 0);
    WithItself(s, 0);
    FirstMeetsLast(a, pl, s.links, TopDone(pl));
    FirstMeetsItself(a, pl, s.links, TopDone(pl));
    var above, chosen := FirstFindsAbove(a, pl, s.links);
    var half;
    half, mid := FirstLinksAbove(a, pl, s.links, TopDone(pl), above, chosen);
    CliqueSame(s.links, half, k);
    UpperSize(pl, half, TopDone(pl), mid);
    var links, found, selected := FirstOnLayer0(a, pl, half, above, k);
    UpperAbove(pl, half, links, TopDone(pl), mid);
    Ends(a, pl, links, found, selected);
    t := With(s.(finished := s.finished + {1}), 0, Idle, links);
    assert t.finished == Among(k);
  }

  lemma LastOnLayer0(a: Actor, pl: Lopsided, links: Links) returns (links': Links, found: seq<nat>, selected: seq<nat>)
    requires LastOf(a, pl) && |links| == pl.n && Within(links, pl.Crowd()) && LeadsToAll(links, pl.Crowd())
    requires a.At(Pop(a.job, 0, 0, Same({0, 1})), links)
    ensures a.At(Linking(a.job, 0, 0, found, selected, |selected|, Ready), links')
    ensures SameAbove(links, links') && Within(links', pl.Crowd())
  {
    hide Actor.At, Among, Keeps0, Within, SameAbove, Mutual;
    CrowdFits(pl);
    var q := pl.Crowd();
    hide Lopsided.Crowd;
    ListWithinSet(links, q);
    forall x | x in Among(q)
      ensures x in {0, 1} + Elements(links[1][0])
    {
      assert x == 1 || On0(links, 1, x);
    }
    links', found, selected := CrowdLinks(a, pl, links, {0, 1}, q, q);
  }

  /** The crowd is in, linked without the seed, and every worker is free. */
  ghost predicate CrowdDone(pl: Lopsided, s0: State, s: State, mid: Tall) {
    && Scene(pl, s0, s) && |s.workers| == |s0.workers| && (forall w :: 0 <= w < |s.workers| ==> s.workers[w] == Idle)
    && s.counter == pl.Crowd() + 1 && Among(pl.Crowd()) <= s.finished
    && Upper(pl, s.links, TopDone(pl), mid) && Within(s.links, pl.Crowd())
  }

  lemma LastFinishes(pl: Lopsided, s0: State, s: State, k: nat, mid: Tall) returns (t: State)
    requires FirstDone(pl, s0, s, k, mid)
    ensures CrowdDone(pl, s0, t, mid)
  {
    hide Leads, Upper, Within, LeadsToAll;
    CrowdFits(pl);
    var a := Actor(pl.Build(), s0, s, 1, Job(pl.Crowd(), pl.h - 1), 0);
    WithItself(s, 1);
    UpperSize(pl, s.links, TopDone(pl), mid);
    var links, found, selected := LastOnLayer0(a, pl, s.links);
    UpperAbove(pl, s.links, links, TopDone(pl), mid);
    Ends(a, pl, links, found, selected);
    t := With(s.(finished := s.finished + {pl.Crowd()}), 1, Idle, links);
  }
}
