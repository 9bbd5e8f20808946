/** The lopsided build's graph, and what one worker does in it while the others wait: a layer-0 search that
    meets the whole crowd, and links that no list has to be cut for. */
module HnswParallelCrowd {
  import opened Counting
  import opened Options
  import opened Ranking
  import opened Graphs
  import opened HnswParallel
  import opened HnswParallelResults
  import opened HnswParallelLopsided

  // ---------- The graph ----------

  /** The lists of the seed, of node 1 and of the last tall node on one level. */
  datatype Tall = Tall(seed: seq<nat>, first: seq<nat>, last: seq<nat>)

  const Bare: Tall := Tall([], [], [])

  ghost predicate LevelIs(pl: Lopsided, links: Links, level: nat, t: Tall)
    requires pl.Ok()
  {
    && |links| == pl.n && level < |links[0]| && level < |links[1]| && level < |links[pl.Crowd()]|
    && links[0][level] == t.seed && links[1][level] == t.first && links[pl.Crowd()][level] == t.last
  }

  /** Everything above layer 0. */
  ghost predicate Upper(pl: Lopsided, links: Links, top: Tall, mid: Tall)
    requires pl.Ok()
  {
    && |links| == pl.n && (forall x :: 0 <= x < pl.n ==> |links[x]| == pl.HeightOf(x))
    && LevelIs(pl, links, 2, top) && LevelIs(pl, links, 1, mid)
    && forall l :: 3 <= l < |links[0]| ==> links[0][l] == []
  }

  function Among(k: nat): (ids: set<nat>)
    ensures |ids| == k && forall x :: x in ids <==> 1 <= x <= k
  {
    if k == 0 then {} else Among(k - 1) + {k}
  }

  ghost predicate ListWithin(list: seq<nat>, x: nat, k: nat) {
    Distinct(list) && (if x in Among(k) then forall y :: y in list ==> y in Among(k) && y != x else list == [])
  }

  /** On layer 0 nodes 1 to `k` have neighbours only among each other, and the rest have none. */
  ghost predicate Within(links: Links, k: nat) {
    forall x :: 0 <= x < |links| ==> |links[x]| >= 1 && ListWithin(links[x][0], x, k)
  }

  /** ... and each of them has all the others. */
  ghost predicate Clique(links: Links, k: nat) {
    && k < |links| && Within(links, k)
    && forall x, y :: 1 <= x <= k && 1 <= y <= k && x != y ==> y in links[x][0]
  }

  function Gained(list: seq<nat>, x: nat): seq<nat> {
    if x in list then list else list + [x]
  }

  /** An edge that no list has to be cut for. */
  function WithEdge(links: Links, node: nat, nbr: nat, level: nat): Links
    requires node < |links| && nbr < |links| && level < |links[node]| && level < |links[nbr]|
  {
    SetList(SetList(links, node, level, Gained(links[node][level], nbr)), nbr, level, Gained(links[nbr][level], node))
  }

  lemma WithEdgeIs(links: Links, node: nat, nbr: nat, level: nat)
    requires node < |links| && nbr < |links| && level < |links[node]| && level < |links[nbr]| && node != nbr
    ensures var after := WithEdge(links, node, nbr, level);
      && |after| == |links| && (forall x :: 0 <= x < |links| ==> |after[x]| == |links[x]|)
      && after[node][level] == Gained(links[node][level], nbr) && after[nbr][level] == Gained(links[nbr][level], node)
      && forall x, l :: 0 <= x < |links| && 0 <= l < |links[x]| && (l != level || (x != node && x != nbr)) ==>
           after[x][l] == links[x][l]
  {
  }

  lemma EdgeFits(a: Actor, links: Links, level: nat, found: seq<nat>, selected: seq<nat>, idx: nat)
    requires a.At(Linking(a.job, level, a.ep, found, selected, idx, Ready), links) && |links| == |a.c.rows|
    requires idx < |selected| && selected[idx] != a.job.node && a.job.node < |links| && selected[idx] < |links|
    requires level < |links[a.job.node]| && level < |links[selected[idx]]|
    requires |Gained(links[selected[idx]][level], a.job.node)| <= a.c.Cap(level)
    ensures a.At(Linking(a.job, level, a.ep, found, selected, idx + 1, Ready), WithEdge(links, a.job.node, selected[idx], level))
  {
    hide Actor.At;
    var node, nbr := a.job.node, selected[idx];
    var after := WithEdge(links, node, nbr, level);
    var one := SetList(links, node, level, Gained(links[node][level], nbr));
    if nbr in links[node][level] {
      assert links[node][level := links[node][level]] == links[node];
      assert one == links;
    }
    assert one[nbr][level] == links[nbr][level];
    assert EdgeLinked(a.c, links, after, node, nbr, level, Gained(links[nbr][level], node));
    Edge(a, links, after, level, found, selected, idx, Gained(links[nbr][level], node));
  }

  // ---------- Searching layer 0 ----------

  /** A beam over nodes 0 to `k` that has dropped nothing but, perhaps, the seed. */
  ghost predicate Crowded(h: Heaps, k: nat, ef: nat) {
    && h.result <= h.seen <= Among(k) + {0} && h.candidates <= h.seen
    && h.seen - {0} <= h.result && |h.result| <= ef
  }

  ghost predicate SeedLast(a: Actor, k: nat) {
    && a.c.ef >= 1 && k <= a.c.ef
    && forall x :: x in Among(k) ==> a.Score()(x) > a.Score()(0)
  }

  lemma OfferFits(h: Heaps, h': Heaps, ef: nat, f: nat -> real, nbr: nat)
    requires nbr !in h.seen && nbr !in h.result && |h.result| < ef
    requires h'.seen == h.seen + {nbr} && h'.candidates == h.candidates + {nbr} && h'.result == h.result + {nbr}
    ensures Offered(h, h', ef, f, nbr, 0)
  {
    assert |h.result + {nbr}| == |h.result| + 1;
  }

  lemma OfferTrades(h: Heaps, h': Heaps, ef: nat, f: nat -> real, nbr: nat)
    requires nbr !in h.seen && nbr !in h.result && 0 in h.result && |h.result| == ef
    requires f(0) < f(nbr) && forall r :: r in h.result ==> f(0) <= f(r)
    requires h'.seen == h.seen + {nbr} && h'.candidates == h.candidates + {nbr} && h'.result == h.result + {nbr} - {0}
    ensures Offered(h, h', ef, f, nbr, 0) && |h'.result| == ef
  {
    assert |h.result + {nbr}| == |h.result| + 1;
  }

  lemma CrowdTakes(h: Heaps, h': Heaps, k: nat, ef: nat, nbr: nat)
    requires Crowded(h, k, ef) && nbr in Among(k) && nbr !in h.seen && |h'.result| <= ef
    requires h'.seen == h.seen + {nbr} && h'.candidates == h.candidates + {nbr}
    requires h'.result == h.result + {nbr} || h'.result == h.result + {nbr} - {0}
    ensures Crowded(h', k, ef)
  {
    hide Among;
  }

  lemma CrowdIs(h: Heaps, k: nat, ef: nat)
    requires Crowded(h, k, ef)
    ensures h.result <= h.seen && |h.result| <= ef && forall x :: x in h.result ==> x == 0 || x in Among(k)
  {
    hide Among;
  }

  lemma OfferCrowd(h: Heaps, k: nat, ef: nat, f: nat -> real, nbr: nat) returns (h': Heaps, dropped: nat)
    requires Crowded(h, k, ef) && nbr in Among(k) && k <= ef && forall x :: x in Among(k) ==> f(x) > f(0)
    ensures Offered(h, h', ef, f, nbr, dropped) && Crowded(h', k, ef)
    ensures h'.seen == h.seen + {nbr} && h.candidates <= h'.candidates
  {
    hide Among, Crowded;
    dropped := 0;
    CrowdIs(h, k, ef);
    if nbr in h.seen {
      h' := h;
      assert h.seen + {nbr} == h.seen;
    } else {
      hide Offered;
      if |h.result| < ef {
        h' := Heaps(h.seen + {nbr}, h.candidates + {nbr}, h.result + {nbr});
        OfferFits(h, h', ef, f, nbr);
      } else {
        FullHoldsSeed(h, k, ef, nbr);
        h' := Heaps(h.seen + {nbr}, h.candidates + {nbr}, h.result + {nbr} - {0});
        OfferTrades(h, h', ef, f, nbr);
      }
      CrowdTakes(h, h', k, ef, nbr);
    }
  }

  lemma FullHoldsSeed(h: Heaps, k: nat, ef: nat, nbr: nat)
    requires Crowded(h, k, ef) && nbr in Among(k) && nbr !in h.seen && k <= ef && |h.result| >= ef
    ensures 0 in h.result
  {
    hide Among;
    if 0 !in h.result {
      SubsetCount(h.result + {nbr}, Among(k));
      assert false;
    }
  }

  /** A whole list is scored. */
  lemma {:induction false} ScansAll(a: Actor, links: Links, h: Heaps, list: seq<nat>, k: nat) returns (h': Heaps)
    requires a.At(Scan(a.job, 0, a.ep, h, list), links) && SeedLast(a, k)
    requires Crowded(h, k, a.c.ef) && Elements(list) <= Among(k)
    ensures a.At(Pop(a.job, 0, a.ep, h'), links) && Crowded(h', k, a.c.ef) && h'.seen == h.seen + Elements(list)
    decreases |list|
  {
    hide Among, Actor.At, Crowded, Offered;
    if list == [] {
      h' := h;
      SeesNothingNew(a, links, 0, h, list);
    } else {
      assert list[0] in Elements(list);
      var h1, dropped := OfferCrowd(h, k, a.c.ef, a.Score(), list[0]);
      Offers(a, links, 0, h, list, h1, dropped);
      assert Elements(list) == {list[0]} + Elements(list[1..]);
      h' := ScansAll(a, links, h1, list[1..], k);
    }
  }

  lemma DrainsOne(a: Actor, links: Links, h: Heaps, k: nat) returns (h': Heaps)
    requires a.At(Pop(a.job, 0, a.ep, h), links) && Crowded(h, k, a.c.ef) && !Exhausted(h, a.c.ef, a.Score())
    requires k < |links| && Within(links, k) && Among(k) <= h.seen
    ensures a.At(Pop(a.job, 0, a.ep, h'), links) && h'.seen == h.seen && h'.result == h.result
    ensures h'.candidates < h.candidates
  {
    hide Among, Actor.At, Exhausted;
    SomeCandidate(h, a.c.ef, a.Score());
    var cand := BestExists(h.candidates, a.Score());
    h' := Heaps(h.seen, h.candidates - {cand}, h.result);
    assert ListWithin(links[cand][0], cand, k);
    hide Within;
    Reads(a, links, 0, h, cand, h', links[cand][0]);
    SeesNothingNew(a, links, 0, h', links[cand][0]);
  }

  /** Once everything has been seen the candidates run out. */
  lemma {:induction false} Drains(a: Actor, links: Links, h: Heaps, k: nat) returns (h': Heaps)
    requires a.At(Pop(a.job, 0, a.ep, h), links) && Crowded(h, k, a.c.ef)
    requires k < |links| && Within(links, k) && Among(k) <= h.seen
    ensures a.At(Pop(a.job, 0, a.ep, h'), links) && Exhausted(h', a.c.ef, a.Score())
    ensures h'.seen == h.seen && h'.result == h.result
    decreases h.candidates
  {
    hide Among, Actor.At, Exhausted, Within;
    if Exhausted(h, a.c.ef, a.Score()) {
      h' := h;
    } else {
      var h1 := DrainsOne(a, links, h, k);
      h' := Drains(a, links, h1, k);
    }
  }

  lemma SomeCandidate(h: Heaps, ef: nat, f: nat -> real)
    requires !Exhausted(h, ef, f)
    ensures h.candidates != {}
  {
  }

  function Same(xs: set<nat>): Heaps {
    Heaps(xs, xs, xs)
  }

  lemma SeesCrowd(a: Actor, links: Links, starts: set<nat>, k: nat) returns (h: Heaps)
    requires SeedLast(a, k) && k < |links| && Within(links, k) && 1 < |links|
    requires 1 in starts && starts <= Among(k) + {0} && |starts| <= a.c.ef
    requires a.At(Pop(a.job, 0, a.ep, Same(starts)), links) && Among(k) <= starts + Elements(links[1][0])
    requires forall x :: x in starts ==> a.Score()(x) <= a.Score()(1)
    ensures a.At(Pop(a.job, 0, a.ep, h), links) && Exhausted(h, a.c.ef, a.Score())
    ensures Crowded(Heaps(h.seen, {}, h.result), k, a.c.ef) && h.seen == starts + Elements(links[1][0])
  {
    hide Among, Actor.At, Exhausted, Within;
    StillGoing(Same(starts), a.c.ef, a.Score(), 1);
    var h0 := Heaps(starts, starts - {1}, starts);
    ListWithinSet(links, k);
    Reads(a, links, 0, Same(starts), 1, h0, links[1][0]);
    var h1 := ScansAll(a, links, h0, links[1][0], k);
    h := Drains(a, links, h1, k);
  }

  lemma ListWithinSet(links: Links, k: nat)
    requires Within(links, k) && 1 < |links|
    ensures |links[1]| >= 1 && Elements(links[1][0]) <= Among(k)
  {
    hide Among;
  }

  /** A layer-0 search that starts at node 1 and perhaps others sees everything node 1 leads to. */
  lemma SearchesCrowd(a: Actor, pl: Lopsided, links: Links, starts: set<nat>, k: nat)
    returns (found: seq<nat>, selected: seq<nat>)
    requires pl.Ok() && a.c == pl.Build() && 0 < a.job.node < pl.n && k < pl.n && k <= pl.ef
    requires 1 in starts && starts <= Among(k) + {0} && |starts| <= pl.ef
    requires |links| == pl.n && Within(links, k) && Among(k) <= starts + Elements(links[1][0])
    requires a.At(Pop(a.job, 0, a.ep, Same(starts)), links)
    requires forall x :: x in starts ==> Closeness(a.job.node, x) <= Closeness(a.job.node, 1)
    ensures a.At(Linking(a.job, 0, a.ep, found, selected, 0, Ready), links)
    ensures Distinct(found) && Among(k) <= Elements(found) && Elements(found) <= Among(k) + {0} && |found| <= pl.ef
    ensures Descending(found, a.Score()) && selected == found[..Min(2 * pl.m, |found|)]
    ensures 0 in found ==> 0 in starts
  {
    hide Among, Actor.At, Exhausted;
    Scores(pl, a.job.node);
    ListWithinSet(links, k);
    hide Within;
    var h := SeesCrowd(a, links, starts, k);
    found := OrderExists(h.result, a.Score());
    selected := found[..Min(2 * pl.m, |found|)];
    forall x | x in found
      ensures x < pl.n && x in h.result
    {
      assert x in Elements(found);
    }
    DistinctSize(found);
    EndsSearch(a, pl, links, 0, h, found, selected);
  }

  lemma SeedScoresLeast(pl: Lopsided, v: nat)
    requires 0 < v < pl.n
    ensures forall x: nat :: 0 < x < pl.n ==> pl.Build().Score(v)(x) > pl.Build().Score(v)(0)
  {
    Scores(pl, v);
  }

  lemma SeedComesLast(pl: Lopsided, v: nat, found: seq<nat>, k: nat)
    requires 0 < v < pl.n && Distinct(found) && 0 in found && Elements(found) <= Among(k) + {0} && k < pl.n
    requires Descending(found, pl.Build().Score(v))
    ensures found == found[..|found| - 1] + [0] && 0 !in found[..|found| - 1]
  {
    hide Among;
    var i :| 0 <= i < |found| && found[i] == 0;
    SeedScoresLeast(pl, v);
    var f := pl.Build().Score(v);
    hide Lopsided.Build, Build.Score;
    forall j | 0 <= j < |found| && j != i
      ensures f(found[j]) > f(0)
    {
      assert found[j] in Elements(found);
    }
    assert f(found[i]) >= f(found[|found| - 1]);
    assert i == |found| - 1;
  }

  /** When the crowd fills the selection, the seed is not in it. */
  lemma SeedNotSelected(pl: Lopsided, v: nat, found: seq<nat>, k: nat)
    requires pl.Ok() && 0 < v < pl.n && k <= pl.Crowd() && (k == pl.Crowd() || 0 !in found)
    requires Distinct(found) && Among(k) <= Elements(found) && Elements(found) <= Among(k) + {0} && |found| <= pl.ef
    requires Descending(found, pl.Build().Score(v))
    ensures Elements(found[..Min(2 * pl.m, |found|)]) == Among(k)
  {
    hide Among;
    DistinctSize(found);
    if 0 in found {
      SeedComesLast(pl, v, found, k);
      CrowdBeforeSeed(found, k);
      assert k == 2 * pl.m && Min(2 * pl.m, |found|) == k;
    } else {
      assert Elements(found) == Among(k);
      assert found[..|found|] == found;
    }
  }

  lemma CrowdBeforeSeed(found: seq<nat>, k: nat)
    requires Distinct(found) && found != [] && found == found[..|found| - 1] + [0] && 0 !in found[..|found| - 1]
    requires Among(k) <= Elements(found) && Elements(found) <= Among(k) + {0}
    ensures |found| == k + 1 && Elements(found[..k]) == Among(k)
  {
    hide Among;
    var before := found[..|found| - 1];
    assert Elements(found) == Elements(before) + {0};
    assert Elements(before) == Among(k);
    DistinctSize(before);
  }

  // ---------- Linking on layer 0 ----------

  ghost predicate SameAbove(links: Links, links': Links) {
    && |links'| == |links| && (forall x :: 0 <= x < |links| ==> |links'[x]| == |links[x]|)
    && forall x, l :: 0 <= x < |links| && 1 <= l < |links[x]| ==> links'[x][l] == links[x][l]
  }

  ghost predicate On0(links: Links, x: nat, y: nat) {
    x < |links| && |links[x]| >= 1 && y in links[x][0]
  }

  ghost predicate Keeps0(links: Links, links': Links) {
    forall x, y :: On0(links, x, y) ==> On0(links', x, y)
  }

  lemma GainedWithin(list: seq<nat>, x: nat, y: nat, k: nat)
    requires ListWithin(list, x, k) && x in Among(k) && y in Among(k) && x != y
    ensures ListWithin(Gained(list, y), x, k) && |Gained(list, y)| <= k
  {
    hide Among;
    DistinctSize(Gained(list, y));
    SubsetCount(Elements(Gained(list, y)), Among(k));
  }

  lemma LinksOne(a: Actor, pl: Lopsided, links: Links, found: seq<nat>, selected: seq<nat>, idx: nat, k: nat)
    returns (links': Links)
    requires a.c == pl.Build() && |links| == pl.n && k < pl.n && k <= 2 * pl.m && Within(links, k)
    requires idx < |selected| && a.job.node in Among(k) && selected[idx] in Among(k) && selected[idx] != a.job.node
    requires a.At(Linking(a.job, 0, a.ep, found, selected, idx, Ready), links)
    ensures a.At(Linking(a.job, 0, a.ep, found, selected, idx + 1, Ready), links')
    ensures SameAbove(links, links') && Keeps0(links, links') && Within(links', k)
    ensures On0(links', a.job.node, selected[idx]) && On0(links', selected[idx], a.job.node)
  {
    hide Actor.At, Among;
    var v, x := a.job.node, selected[idx];
    assert ListWithin(links[v][0], v, k) && ListWithin(links[x][0], x, k);
    GainedWithin(links[v][0], v, x, k);
    GainedWithin(links[x][0], x, v, k);
    links' := WithEdge(links, v, x, 0);
    WithEdgeIs(links, v, x, 0);
    EdgeFits(a, links, 0, found, selected, idx);
    hide WithEdge;
    forall y | 0 <= y < |links'|
      ensures |links'[y]| >= 1 && ListWithin(links'[y][0], y, k)
    {
      assert ListWithin(links[y][0], y, k);
    }
  }

  lemma {:induction false} LinksAll(a: Actor, pl: Lopsided, links: Links, found: seq<nat>, selected: seq<nat>, idx: nat, k: nat)
    returns (links': Links)
    requires a.c == pl.Build() && |links| == pl.n && k < pl.n && k <= 2 * pl.m && Within(links, k)
    requires idx <= |selected| && a.job.node in Among(k) && Elements(selected) <= Among(k)
    requires a.At(Linking(a.job, 0, a.ep, found, selected, idx, Ready), links)
    ensures a.At(Linking(a.job, 0, a.ep, found, selected, |selected|, Ready), links')
    ensures |links'| == |links|
    ensures SameAbove(links, links') && Keeps0(links, links') && Within(links', k)
    ensures forall i :: idx <= i < |selected| && selected[i] != a.job.node ==>
      On0(links', a.job.node, selected[i]) && On0(links', selected[i], a.job.node)
    decreases |selected| - idx
  {
    hide Actor.At, Among, Within, On0;
    if idx == |selected| {
      links' := links;
    } else {
      assert selected[idx] in Elements(selected);
      var one := links;
      if selected[idx] == a.job.node {
        SkipsSelf(a, links, 0, found, selected, idx);
      } else {
        one := LinksOne(a, pl, links, found, selected, idx, k);
      }
      links' := LinksAll(a, pl, one, found, selected, idx + 1, k);
    }
  }

  lemma CrowdFits(pl: Lopsided)
    requires pl.Ok()
    ensures 2 <= pl.Crowd() < pl.n && pl.Crowd() <= pl.ef && pl.Crowd() <= 2 * pl.m
  {
  }

  ghost predicate Mutual(links: Links, v: nat, k: nat) {
    forall x :: x in Among(k) && x != v ==> On0(links, v, x) && On0(links, x, v)
  }

  lemma AllMutual(links: Links, v: nat, k: nat, selected: seq<nat>)
    requires Elements(selected) == Among(k)
    requires forall i :: 0 <= i < |selected| && selected[i] != v ==> On0(links, v, selected[i]) && On0(links, selected[i], v)
    ensures Mutual(links, v, k)
  {
    hide Among, On0;
    forall x | x in Among(k) && x != v
      ensures On0(links, v, x) && On0(links, x, v)
    {
      assert x in Elements(selected);
      var i :| 0 <= i < |selected| && selected[i] == x;
    }
  }

  /** One insertion's layer 0: it meets the crowd of `k` and links to each of it, the seed left out. */
  lemma CrowdLinks(a: Actor, pl: Lopsided, links: Links, starts: set<nat>, k: nat, j: nat)
    returns (links': Links, found: seq<nat>, selected: seq<nat>)
    requires pl.Ok() && a.c == pl.Build() && k <= j <= pl.Crowd() && a.job.node in Among(j)
    requires |links| == pl.n && Within(links, k) && Within(links, j) && 1 in starts && starts <= Among(k) + {0}
    requires |links[1]| >= 1 && |starts| <= pl.ef && Among(k) <= starts + Elements(links[1][0])
    requires a.At(Pop(a.job, 0, a.ep, Same(starts)), links) && (k == pl.Crowd() || 0 !in starts)
    requires forall x :: x in starts ==> Closeness(a.job.node, x) <= Closeness(a.job.node, 1)
    ensures a.At(Linking(a.job, 0, a.ep, found, selected, |selected|, Ready), links')
    ensures SameAbove(links, links') && Keeps0(links, links') && |links'| == |links| && Within(links', j)
    ensures Mutual(links', a.job.node, k)
  {
    hide Actor.At, Among, Keeps0, On0, Within, SameAbove, Mutual, Closeness;
    CrowdFits(pl);
    hide Lopsided.Crowd;
    found, selected := SearchesCrowd(a, pl, links, starts, k);
    SeedNotSelected(pl, a.job.node, found, k);
    forall x | x in Among(k)
      ensures x in Among(j)
    {
    }
    links' := LinksAll(a, pl, links, found, selected, 0, j);
    AllMutual(links', a.job.node, k, selected);
  }

  // ---------- Linking above layer 0 ----------

  function GainAt(pl: Lopsided, t: Tall, x: nat, y: nat): Tall {
    if x == 0 then t.(seed := Gained(t.seed, y))
    else if x == 1 then t.(first := Gained(t.first, y))
    else t.(last := Gained(t.last, y))
  }

  function WithPair(pl: Lopsided, t: Tall, x: nat, y: nat): Tall {
    GainAt(pl, GainAt(pl, t, x, y), y, x)
  }

  ghost predicate IsTall(pl: Lopsided, x: nat) {
    x == 0 || x == 1 || x == pl.Crowd()
  }

  ghost predicate SameBottom(links: Links, links': Links) {
    |links'| == |links|
    && forall x :: 0 <= x < |links| && |links[x]| >= 1 ==> |links'[x]| >= 1 && links'[x][0] == links[x][0]
  }

  lemma UpperEdge(pl: Lopsided, links: Links, top: Tall, mid: Tall, level: nat, x: nat, y: nat)
    requires pl.Ok() && Upper(pl, links, top, mid) && 1 <= level <= 2 && IsTall(pl, x) && IsTall(pl, y) && x != y
    ensures level < |links[x]| && level < |links[y]|
    ensures var after := WithEdge(links, x, y, level);
      && SameBottom(links, after)
      && Upper(pl, after, if level == 2 then WithPair(pl, top, x, y) else top, if level == 1 then WithPair(pl, mid, x, y) else mid)
  {
    WithEdgeIs(links, x, y, level);
    hide WithEdge;
  }

  /** One tall node to another, where nothing has to be cut. */
  lemma LinksTall(a: Actor, pl: Lopsided, links: Links, top: Tall, mid: Tall, level: nat, found: seq<nat>,
                  selected: seq<nat>, idx: nat)
    returns (links': Links)
    requires pl.Ok() && a.c == pl.Build() && Upper(pl, links, top, mid) && 1 <= level <= 2
    requires idx < |selected| && IsTall(pl, a.job.node) && IsTall(pl, selected[idx]) && a.job.node != selected[idx]
    requires a.At(Linking(a.job, level, a.ep, found, selected, idx, Ready), links)
    requires var t := WithPair(pl, if level == 2 then top else mid, a.job.node, selected[idx]);
      |t.seed| <= 2 && |t.first| <= 2 && |t.last| <= 2
    ensures a.At(Linking(a.job, level, a.ep, found, selected, idx + 1, Ready), links') && SameBottom(links, links')
    ensures var t := WithPair(pl, if level == 2 then top else mid, a.job.node, selected[idx]);
      Upper(pl, links', if level == 2 then t else top, if level == 1 then t else mid)
  {
    hide Actor.At;
    UpperEdge(pl, links, top, mid, level, a.job.node, selected[idx]);
    links' := WithEdge(links, a.job.node, selected[idx], level);
    hide WithEdge;
    EdgeFits(a, links, level, found, selected, idx);
  }

  // ---------- Beginnings and ends ----------

  /** No neighbour on the level: the descent goes on from where it is. */
  lemma StaysAlone(a: Actor, links: Links, level: nat, cur: nat)
    requires a.At(GreedyFetch(a.job, level, cur), links) && level >= 1 && cur < |links|
    requires (if level < |links[cur]| then links[cur][level] else []) == []
    requires a.job.node < |a.c.heights| && a.c.heights[a.job.node] >= 1
    ensures a.At(AfterDescent(a.c, a.job, level - 1, cur), links)
  {
    hide Leads, EdgeLinked, Exhausted, Offered;
    Moves(a, GreedyFetch(a.job, level, cur), GreedyScan(a.job, level, cur, false, []), links, DoGreedyCopy);
    Moves(a, GreedyScan(a.job, level, cur, false, []), AfterDescent(a.c, a.job, level - 1, cur), links, DoGreedyScore);
  }

  /** Above level 2 the seed is alone. */
  lemma {:induction false} FallsToTwo(a: Actor, pl: Lopsided, links: Links, top: Tall, mid: Tall, level: nat)
    requires pl.Ok() && a.c == pl.Build() && Upper(pl, links, top, mid) && 0 < a.job.node < pl.n && 2 <= level < pl.h
    requires a.At(AfterDescent(a.c, a.job, level, 0), links)
    ensures a.At(AfterDescent(a.c, a.job, 2, 0), links)
    decreases level
  {
    hide Actor.At;
    if level > 2 {
      StaysAlone(a, links, level, 0);
      FallsToTwo(a, pl, links, top, mid, level - 1);
    }
  }

  /** Where the whole run stands while the first two workers take turns. */
  ghost predicate Scene(pl: Lopsided, s0: State, s: State) {
    && pl.Ok() && Leads(pl.Build(), s0, s) && s.locks == map[] && s.entryWriter == None
    && s.entry == 0 && s.maxLevel == pl.h - 1 && |s.workers| >= 2
    && forall w :: 2 <= w < |s.workers| ==> s.workers[w] == Idle
  }

  function Claimed(s: State, w: nat, v: nat): State {
    s.(counter := v + 1, claimedBy := s.claimedBy[v := w])
  }

  /** A worker draws node `v` and descends to level 2. */
  lemma Begins(pl: Lopsided, s0: State, s: State, w: nat, v: nat, top: Tall, mid: Tall, ep: nat) returns (a: Actor)
    requires Scene(pl, s0, s) && w < 2 && s.workers[w] == Idle && s.counter == v && 0 < v < pl.n
    requires Upper(pl, s.links, top, mid)
    ensures a == Actor(pl.Build(), s0, Claimed(s, w, v), w, Job(v, pl.h - 1), ep)
    ensures a.At(AfterDescent(a.c, a.job, 2, 0), s.links)
  {
    hide Leads, EdgeLinked, Exhausted, Offered;
    var c := pl.Build();
    a := Actor(c, s0, Claimed(s, w, v), w, Job(v, pl.h - 1), ep);
    Extend(c, s0, s, With(a.s, w, Start(v), s.links), w, DoClaim);
    Moves(a, Start(v), AfterDescent(c, a.job, pl.h - 1, 0), s.links, DoReadEntry);
    FallsToTwo(a, pl, s.links, top, mid, pl.h - 1);
  }

  lemma TallStart(a: Actor, pl: Lopsided, links: Links)
    requires pl.Ok() && a.c == pl.Build() && a.ep == 0 && a.job.top == pl.h - 1 && 0 < a.job.node
    requires IsTall(pl, a.job.node) && a.At(AfterDescent(a.c, a.job, 2, 0), links)
    ensures a.At(Pop(a.job, 2, 0, Same({0})), links)
  {
    hide Actor.At;
    assert Elements([0]) == {0};
    assert AfterDescent(a.c, a.job, 2, 0) == Pop(a.job, 2, 0, Same({0}));
  }

  /** The insertion returns. */
  lemma Ends(a: Actor, pl: Lopsided, links: Links, found: seq<nat>, selected: seq<nat>)
    requires pl.Ok() && a.c == pl.Build() && 0 < a.job.node < pl.n && a.job.top == pl.h - 1
    requires a.At(Linking(a.job, 0, a.ep, found, selected, |selected|, Ready), links)
    ensures Leads(a.c, a.s0, With(a.s.(finished := a.s.finished + {a.job.node}), a.w, Idle, links))
  {
    hide Leads, EdgeLinked, Exhausted, Offered;
    var p := Linking(a.job, 0, a.ep, found, selected, |selected|, Ready);
    var free := a.s.(finished := a.s.finished + {a.job.node});
    WithGoto(a.s, a.w, p, Idle, links);
    Extend(a.c, a.s0, With(a.s, a.w, p, links), With(free, a.w, Idle, links), a.w, DoLevelDone);
  }
}
