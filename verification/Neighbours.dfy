/** The neighbour-selection heuristic shared by the serial and the parallel builder. */
module Neighbours {
  import opened Counting
  import opened Ranking

  datatype Scored = Scored(score: real, node: nat)

  /** Nearness of one stored row to another; higher is nearer. */
  type RowScore = (nat, nat) -> real

  /** A row scorer lifted to node ids. */
  function NodeScore(rows: seq<nat>, score: nat -> real): nat -> real {
    (x: nat) => if x < |rows| then score(rows[x]) else 0.0
  }

  function FromRow(walk: RowScore, row: nat): nat -> real {
    (r: nat) => walk(row, r)
  }

  function WithScores(nodes: seq<nat>, f: nat -> real): (cs: seq<Scored>)
    ensures |cs| == |nodes|
    ensures forall i :: 0 <= i < |nodes| ==> cs[i] == Scored(f(nodes[i]), nodes[i])
  {
    seq(|nodes|, i requires 0 <= i < |nodes| => Scored(f(nodes[i]), nodes[i]))
  }

  function Nodes(cs: seq<Scored>): (ns: seq<nat>)
    ensures |ns| == |cs|
    ensures forall i :: 0 <= i < |cs| ==> ns[i] == cs[i].node
  {
    seq(|cs|, i requires 0 <= i < |cs| => cs[i].node)
  }

  ghost predicate NodesBelow(cs: seq<Scored>, n: nat) {
    forall c :: c in cs ==> c.node < n
  }

  /** Nearer to the base than to every neighbour kept so far. */
  ghost predicate Diverse(rows: seq<nat>, walk: RowScore, c: Scored, kept: seq<nat>)
    requires c.node < |rows|
  {
    forall r :: r in kept && r < |rows| ==> c.score >= walk(rows[c.node], rows[r])
  }

  ghost function KeepDiverse(rows: seq<nat>, walk: RowScore, cs: seq<Scored>, m: nat, kept: seq<Scored>): seq<Scored>
    requires NodesBelow(cs, |rows|)
  {
    if cs == [] || |kept| >= m then kept
    else KeepDiverse(rows, walk, cs[1..], m, if Diverse(rows, walk, cs[0], Nodes(kept)) then kept + [cs[0]] else kept)
  }

  ghost function TopUp(cs: seq<Scored>, m: nat, kept: seq<nat>): seq<nat> {
    if cs == [] || |kept| >= m then kept
    else TopUp(cs[1..], m, if cs[0].node in kept then kept else kept + [cs[0].node])
  }

  ghost function Select(rows: seq<nat>, walk: RowScore, cs: seq<Scored>, m: nat): seq<nat>
    requires NodesBelow(cs, |rows|)
  {
    TopUp(cs, m, Nodes(KeepDiverse(rows, walk, cs, m, [])))
  }

  // ---------- What the selection means ----------

  ghost predicate Prefix<T>(a: seq<T>, b: seq<T>) {
    |a| <= |b| && a == b[..|a|]
  }

  ghost predicate Drawn(cs: seq<Scored>, xs: seq<nat>) {
    forall x :: x in xs ==> x in Nodes(cs)
  }

  /** Each kept candidate was nearer to the base than to every one kept before it. */
  ghost predicate PairwiseDiverse(rows: seq<nat>, walk: RowScore, kept: seq<Scored>) {
    && NodesBelow(kept, |rows|)
    && forall j :: 0 <= j < |kept| ==> DiverseAt(rows, walk, kept, j)
  }

  ghost predicate DiverseAt(rows: seq<nat>, walk: RowScore, kept: seq<Scored>, j: nat)
    requires NodesBelow(kept, |rows|) && j < |kept|
  {
    forall i :: 0 <= i < j ==>
      (assert kept[i] in kept && kept[j] in kept; kept[j].score >= walk(rows[kept[j].node], rows[kept[i].node]))
  }

  /** `kept` are some of the first `k` candidates, in their order. */
  ghost predicate DrawnFrom(all: seq<Scored>, k: nat, kept: seq<Scored>) {
    k <= |all| && Distinct(kept) && forall c :: c in kept ==> c in all[..k]
  }

  /** Passed over means too near to a kept neighbour. */
  ghost predicate RestConflicts(rows: seq<nat>, walk: RowScore, all: seq<Scored>, k: nat, kept: seq<Scored>)
    requires k <= |all| && NodesBelow(all, |rows|)
  {
    forall i :: 0 <= i < k && all[i] !in kept ==> ConflictAt(rows, walk, all, i, kept)
  }

  ghost predicate ConflictAt(rows: seq<nat>, walk: RowScore, all: seq<Scored>, i: nat, kept: seq<Scored>)
    requires i < |all| && NodesBelow(all, |rows|)
  {
    assert all[i] in all;
    Crowded(rows, walk, all[i], kept)
  }

  /** Nearer to a kept candidate than to the base. */
  ghost predicate Crowded(rows: seq<nat>, walk: RowScore, c: Scored, kept: seq<Scored>)
    requires c.node < |rows|
  {
    exists j :: 0 <= j < |kept| && kept[j].node < |rows| && c.score < walk(rows[c.node], rows[kept[j].node])
  }

  lemma CrowdedIffNotDiverse(rows: seq<nat>, walk: RowScore, c: Scored, kept: seq<Scored>)
    requires c.node < |rows|
    ensures Crowded(rows, walk, c, kept) <==> !Diverse(rows, walk, c, Nodes(kept))
  {
    if !Diverse(rows, walk, c, Nodes(kept)) {
      var r :| r in Nodes(kept) && r < |rows| && c.score < walk(rows[c.node], rows[r]);
      var j :| 0 <= j < |kept| && Nodes(kept)[j] == r;
      assert kept[j].node == r;
    }
    if Crowded(rows, walk, c, kept) {
      var j :| 0 <= j < |kept| && kept[j].node < |rows| && c.score < walk(rows[c.node], rows[kept[j].node]);
      assert Nodes(kept)[j] in Nodes(kept);
    }
  }

  lemma KeepStep(rows: seq<nat>, walk: RowScore, all: seq<Scored>, k: nat, kept: seq<Scored>)
    requires k < |all| && NodesBelow(all, |rows|) && Distinct(all) && all[k] in all
    requires DrawnFrom(all, k, kept) && PairwiseDiverse(rows, walk, kept) && RestConflicts(rows, walk, all, k, kept)
    ensures var kept' := if Diverse(rows, walk, all[k], Nodes(kept)) then kept + [all[k]] else kept;
      DrawnFrom(all, k + 1, kept') && PairwiseDiverse(rows, walk, kept') && RestConflicts(rows, walk, all, k + 1, kept')
  {
    var c := all[k];
    assert all[..k + 1] == all[..k] + [c];
    assert c !in all[..k];
    if Diverse(rows, walk, c, Nodes(kept)) {
      var kept' := kept + [c];
      forall j | 0 <= j < |kept'|
        ensures DiverseAt(rows, walk, kept', j)
      {
        assert kept'[..j] == kept[..j];
        assert j < |kept| ==> DiverseAt(rows, walk, kept, j);
        assert kept[..|kept|] == kept;
      }
      forall i | 0 <= i < k + 1 && all[i] !in kept'
        ensures ConflictAt(rows, walk, all, i, kept')
      {
        assert ConflictAt(rows, walk, all, i, kept);
        ConflictGrows(rows, walk, all[i], kept, c);
      }
    } else {
      CrowdedIffNotDiverse(rows, walk, c, kept);
      assert ConflictAt(rows, walk, all, k, kept);
    }
  }

  lemma ConflictGrows(rows: seq<nat>, walk: RowScore, c: Scored, kept: seq<Scored>, more: Scored)
    requires c.node < |rows| && Crowded(rows, walk, c, kept)
    ensures Crowded(rows, walk, c, kept + [more])
  {
    var j :| 0 <= j < |kept| && kept[j].node < |rows| && c.score < walk(rows[c.node], rows[kept[j].node]);
    assert (kept + [more])[j] == kept[j];
  }

  lemma {:induction false} KeepDiverseProperties(
      rows: seq<nat>, walk: RowScore, all: seq<Scored>, k: nat, m: nat, kept: seq<Scored>) returns (stop: nat)
    requires k <= |all| && NodesBelow(all, |rows|) && Distinct(all) && |kept| <= m
    requires DrawnFrom(all, k, kept) && PairwiseDiverse(rows, walk, kept) && RestConflicts(rows, walk, all, k, kept)
    ensures k <= stop <= |all|
    ensures var s := KeepDiverse(rows, walk, all[k..], m, kept);
      && |s| <= m && DrawnFrom(all, stop, s) && PairwiseDiverse(rows, walk, s)
      && RestConflicts(rows, walk, all, stop, s) && (|s| < m ==> stop == |all|)
    decreases |all| - k
  {
    stop := k;
    if k < |all| && |kept| < m {
      assert all[k] in all;
      var kept' := if Diverse(rows, walk, all[k], Nodes(kept)) then kept + [all[k]] else kept;
      KeepUnfolds(rows, walk, all, k, m, kept);
      KeepStep(rows, walk, all, k, kept);
      stop := KeepDiverseProperties(rows, walk, all, k + 1, m, kept');
    }
  }

  lemma KeepUnfolds(rows: seq<nat>, walk: RowScore, all: seq<Scored>, k: nat, m: nat, kept: seq<Scored>)
    requires k < |all| && NodesBelow(all, |rows|) && |kept| < m && all[k] in all
    ensures KeepDiverse(rows, walk, all[k..], m, kept) ==
      KeepDiverse(rows, walk, all[k + 1..], m, if Diverse(rows, walk, all[k], Nodes(kept)) then kept + [all[k]] else kept)
  {
    assert all[k..][1..] == all[k + 1..] && all[k..][0] == all[k];
  }

  lemma DistinctByNode(cs: seq<Scored>)
    requires Distinct(Nodes(cs))
    ensures Distinct(cs)
  {
    forall i, j | 0 <= i < j < |cs|
      ensures cs[i] != cs[j]
    {
      assert Nodes(cs)[i] != Nodes(cs)[j];
    }
  }

  lemma DrawnNodes(all: seq<Scored>, k: nat, kept: seq<Scored>)
    requires Distinct(Nodes(all)) && DrawnFrom(all, k, kept)
    ensures Distinct(Nodes(kept)) && Drawn(all, Nodes(kept))
  {
    forall c | c in kept
      ensures c in all && c.node in Nodes(all)
    {
      var i :| 0 <= i < k && all[..k][i] == c;
      assert Nodes(all)[i] == c.node;
    }
    forall i, j | 0 <= i < j < |kept|
      ensures Nodes(kept)[i] != Nodes(kept)[j]
    {
      assert kept[i] in all && kept[j] in all;
      if kept[i].node == kept[j].node {
        SameNode(all, kept[i], kept[j]);
      }
    }
  }

  lemma SameNode(all: seq<Scored>, c: Scored, d: Scored)
    requires Distinct(Nodes(all)) && c in all && d in all && c.node == d.node
    ensures c == d
  {
    var i :| 0 <= i < |all| && all[i] == c;
    var j :| 0 <= j < |all| && all[j] == d;
    assert Nodes(all)[i] == Nodes(all)[j];
  }

  /** Candidates already passed over by the top-up are all kept. */
  ghost predicate TakenTo(all: seq<Scored>, k: nat, s: seq<nat>) {
    k <= |all| && forall i :: 0 <= i < k ==> all[i].node in s
  }

  lemma TopUpUnfolds(all: seq<Scored>, k: nat, m: nat, kept: seq<nat>)
    requires k < |all| && |kept| < m
    ensures var x := all[k].node;
            TopUp(all[k..], m, kept) == TopUp(all[k + 1..], m, if x in kept then kept else kept + [x])
  {
    assert all[k..][1..] == all[k + 1..] && all[k..][0] == all[k];
  }

  /** One more candidate looked at keeps the selection distinct, drawn from the candidates and complete
      so far. */
  lemma TopUpStep(all: seq<Scored>, k: nat, kept: seq<nat>, more: seq<nat>)
    requires k < |all| && Distinct(kept) && Drawn(all, kept) && TakenTo(all, k, kept)
    requires more == if all[k].node in kept then kept else kept + [all[k].node]
    ensures Distinct(more) && Drawn(all, more) && TakenTo(all, k + 1, more) && Prefix(kept, more)
  {
    assert Nodes(all)[k] == all[k].node;
    forall i | 0 <= i < k + 1
      ensures all[i].node in more
    {
      if i < k {
        assert all[i].node in kept;
      }
    }
  }

  lemma {:induction false} TopUpProperties(all: seq<Scored>, k: nat, m: nat, kept: seq<nat>) returns (stop: nat)
    requires k <= |all| && |kept| <= m && Distinct(kept) && Drawn(all, kept)
    requires TakenTo(all, k, kept)
    ensures k <= stop <= |all|
    ensures var s := TopUp(all[k..], m, kept);
      && Prefix(kept, s) && |s| <= m && Distinct(s) && Drawn(all, s) && TakenTo(all, stop, s)
      && (|s| < m ==> stop == |all|)
      && (forall x :: x in s && x !in kept ==> x in Nodes(all[k..stop]))
    decreases |all| - k
  {
    hide Distinct, Drawn, TakenTo;
    stop := k;
    if k < |all| && |kept| < m {
      var x := all[k].node;
      var more := if x in kept then kept else kept + [x];
      TopUpUnfolds(all, k, m, kept);
      TopUpStep(all, k, kept, more);
      stop := TopUpProperties(all, k + 1, m, more);
      forall y | y in TopUp(all[k..], m, kept) && y !in kept
        ensures y in Nodes(all[k..stop])
      {
        LaterNode(all, k, stop, y);
      }
    }
  }

  lemma LaterNode(all: seq<Scored>, k: nat, stop: nat, y: nat)
    requires k < stop <= |all|
    requires y == all[k].node || y in Nodes(all[k + 1..stop])
    ensures y in Nodes(all[k..stop])
  {
    if y == all[k].node {
      assert Nodes(all[k..stop])[0] == y;
    } else {
      var i :| 0 <= i < stop - k - 1 && Nodes(all[k + 1..stop])[i] == y;
      assert Nodes(all[k..stop])[i + 1] == y;
    }
  }

  /** The heuristic, stated by what it keeps: `min(m, candidates)` distinct candidates. They start
      with a pairwise diverse group `core`; when that group alone does not fill `m`, every
      candidate outside it was nearer to a kept neighbour than to the base, and the rest of the
      result are the nearest of those. */
  ghost predicate SelectionOf(rows: seq<nat>, walk: RowScore, cs: seq<Scored>, m: nat, out: seq<nat>, core: seq<Scored>)
    requires NodesBelow(cs, |rows|)
  {
    && |out| == Min(m, |cs|) && Distinct(out) && Drawn(cs, out)
    && Prefix(Nodes(core), out) && PairwiseDiverse(rows, walk, core)
    && (|core| < m ==> RestConflicts(rows, walk, cs, |cs|, core))
    && (forall c, d :: c in cs && d in cs && c.node in out[|core|..] && d.node !in out ==> d.score <= c.score)
  }

  lemma SelectionMeaning(rows: seq<nat>, walk: RowScore, cs: seq<Scored>, m: nat) returns (core: seq<Scored>)
    requires NodesBelow(cs, |rows|) && Distinct(Nodes(cs)) && Descending(cs, (c: Scored) => c.score)
    ensures SelectionOf(rows, walk, cs, m, Select(rows, walk, cs, m), core)
  {
    assert cs[0..] == cs;
    DistinctByNode(cs);
    var passed := KeepDiverseProperties(rows, walk, cs, 0, m, []);
    core := KeepDiverse(rows, walk, cs, m, []);
    DrawnNodes(cs, passed, core);
    var kept, out := Nodes(core), Select(rows, walk, cs, m);
    var stop := TopUpProperties(cs, 0, m, kept);
    SelectionSize(cs, m, out, stop);
    forall c, d | c in cs && d in cs && c.node in out[|core|..] && d.node !in out
      ensures d.score <= c.score
    {
      var j :| |core| <= j < |out| && out[j] == c.node;
      ToppedUpIsFresh(kept, out, j);
      NearestFirst(cs, out, stop, c, d);
    }
  }

  lemma ToppedUpIsFresh(kept: seq<nat>, out: seq<nat>, j: nat)
    requires Prefix(kept, out) && Distinct(out) && |kept| <= j < |out|
    ensures out[j] !in kept
  {
    forall i | 0 <= i < |kept|
      ensures kept[i] != out[j]
    {
      assert kept[i] == out[i];
    }
  }

  lemma NearestFirst(cs: seq<Scored>, out: seq<nat>, stop: nat, c: Scored, d: Scored)
    requires Distinct(Nodes(cs)) && Descending(cs, (c: Scored) => c.score)
    requires TakenTo(cs, stop, out) && c in cs && d in cs
    requires c.node in Nodes(cs[..stop]) && d.node !in out
    ensures d.score <= c.score
  {
    var p :| 0 <= p < stop && Nodes(cs[..stop])[p] == c.node;
    var q :| 0 <= q < |cs| && cs[q] == d;
    assert cs[p] in cs;
    SameNode(cs, c, cs[p]);
    assert p < q;
  }

  /** The size bound needs no order on the candidates. */
  lemma SelectSizes(rows: seq<nat>, walk: RowScore, cs: seq<Scored>, m: nat)
    requires NodesBelow(cs, |rows|) && Distinct(Nodes(cs))
    ensures var s := Select(rows, walk, cs, m);
      |s| == Min(m, |cs|) && Distinct(s) && Drawn(cs, s)
  {
    assert cs[0..] == cs;
    DistinctByNode(cs);
    var passed := KeepDiverseProperties(rows, walk, cs, 0, m, []);
    DrawnNodes(cs, passed, KeepDiverse(rows, walk, cs, m, []));
    var stop := TopUpProperties(cs, 0, m, Nodes(KeepDiverse(rows, walk, cs, m, [])));
    SelectionSize(cs, m, Select(rows, walk, cs, m), stop);
  }

  /** The best candidate is always kept, and first. */
  lemma FirstIsKept(rows: seq<nat>, walk: RowScore, cs: seq<Scored>, m: nat)
    requires NodesBelow(cs, |rows|) && Distinct(Nodes(cs)) && cs != [] && m >= 1
    ensures Select(rows, walk, cs, m) != [] && Select(rows, walk, cs, m)[0] == cs[0].node
  {
    assert Diverse(rows, walk, cs[0], Nodes([]));
    assert [] + [cs[0]] == [cs[0]];
    KeptStays(rows, walk, cs[1..], m, [cs[0]]);
    assert KeepDiverse(rows, walk, cs, m, []) == KeepDiverse(rows, walk, cs[1..], m, [cs[0]]);
    assert Nodes(KeepDiverse(rows, walk, cs, m, []))[0] == cs[0].node;
    TopUpStays(cs, m, Nodes(KeepDiverse(rows, walk, cs, m, [])));
  }

  lemma {:induction false} KeptStays(rows: seq<nat>, walk: RowScore, cs: seq<Scored>, m: nat, kept: seq<Scored>)
    requires NodesBelow(cs, |rows|)
    ensures Prefix(kept, KeepDiverse(rows, walk, cs, m, kept))
  {
    if cs != [] && |kept| < m {
      KeptStays(rows, walk, cs[1..], m, if Diverse(rows, walk, cs[0], Nodes(kept)) then kept + [cs[0]] else kept);
    }
  }

  lemma {:induction false} TopUpStays(cs: seq<Scored>, m: nat, kept: seq<nat>)
    ensures Prefix(kept, TopUp(cs, m, kept))
  {
    if cs != [] && |kept| < m {
      TopUpStays(cs[1..], m, if cs[0].node in kept then kept else kept + [cs[0].node]);
    }
  }

  lemma SelectionSize(cs: seq<Scored>, m: nat, out: seq<nat>, stop: nat)
    requires Distinct(Nodes(cs)) && Distinct(out) && Drawn(cs, out) && |out| <= m
    requires |out| < m ==> TakenTo(cs, |cs|, out)
    ensures |out| == Min(m, |cs|)
  {
    DistinctSize(out);
    DistinctSize(Nodes(cs));
    SubsetCount(Elements(out), Elements(Nodes(cs)));
    if |out| < m {
      forall x | x in Elements(Nodes(cs))
        ensures x in Elements(out)
      {
        var i :| 0 <= i < |cs| && Nodes(cs)[i] == x;
      }
      SubsetCount(Elements(Nodes(cs)), Elements(out));
    }
  }

  method IsDiverse(rows: seq<nat>, walk: RowScore, cand: Scored, selected: seq<nat>) returns (keep: bool)
    requires cand.node < |rows| && forall q :: 0 <= q < |selected| ==> selected[q] < |rows|
    ensures keep <==> Diverse(rows, walk, cand, selected)
  {
    keep := true;
    var j := 0;
    while j < |selected| && keep
      invariant 0 <= j <= |selected|
      invariant keep ==> forall q :: 0 <= q < j ==> cand.score >= walk(rows[cand.node], rows[selected[q]])
      invariant !keep ==> !Diverse(rows, walk, cand, selected)
    {
      keep := cand.score >= walk(rows[cand.node], rows[selected[j]]);
      assert selected[j] in selected;
      j := j + 1;
    }
  }

  /** The two loops of the heuristic compute the selection. */
  method SelectNeighbors(rows: seq<nat>, walk: RowScore, candidates: seq<Scored>, m: nat) returns (selected: seq<nat>)
    requires NodesBelow(candidates, |rows|)
    ensures selected == Select(rows, walk, candidates, m)
    ensures Distinct(Nodes(candidates)) ==>
      |selected| == Min(m, |candidates|) && Distinct(selected) && Drawn(candidates, selected)
  {
    hide Diverse, Drawn;
    selected := [];
    ghost var kept: seq<Scored> := [];
    var i := 0;
    while i < |candidates| && |selected| < m
      invariant 0 <= i <= |candidates|
      invariant selected == Nodes(kept)
      invariant forall q :: 0 <= q < |selected| ==> selected[q] < |rows|
      invariant KeepDiverse(rows, walk, candidates, m, []) == KeepDiverse(rows, walk, candidates[i..], m, kept)
    {
      assert candidates[i] in candidates;
      var keep := IsDiverse(rows, walk, candidates[i], selected);
      assert candidates[i..][1..] == candidates[i + 1..];
      if keep {
        selected, kept := selected + [candidates[i].node], kept + [candidates[i]];
      }
      i := i + 1;
    }
    ghost var core := selected;
    assert kept == KeepDiverse(rows, walk, candidates, m, []);
    if |selected| < m {
      i := 0;
      while i < |candidates| && |selected| < m
        invariant 0 <= i <= |candidates|
        invariant TopUp(candidates, m, core) == TopUp(candidates[i..], m, selected)
      {
        assert candidates[i..][1..] == candidates[i + 1..];
        if candidates[i].node !in selected {
          selected := selected + [candidates[i].node];
        }
        i := i + 1;
      }
    }
    if Distinct(Nodes(candidates)) {
      SelectSizes(rows, walk, candidates, m);
    }
  }

  // ---------- Pruning a list back to its cap ----------

  /** `kept` is what pruning node `n`'s list `adj` leaves; ties in the sort stay open. */
  ghost predicate PrunedTo(rows: seq<nat>, walk: RowScore, n: nat, adj: seq<nat>, cap: nat, kept: seq<nat>)
    requires n < |rows|
  {
    if |adj| <= cap then kept == adj
    else exists order :: PrunedInOrder(rows, walk, n, adj, cap, order, kept)
  }

  ghost predicate PrunedInOrder(
      rows: seq<nat>, walk: RowScore, n: nat, adj: seq<nat>, cap: nat, order: seq<nat>, kept: seq<nat>)
    requires n < |rows|
  {
    var f := NodeScore(rows, FromRow(walk, rows[n]));
    && multiset(order) == multiset(adj) && Descending(order, f)
    && NodesBelow(WithScores(order, f), |rows|)
    && kept == Select(rows, walk, WithScores(order, f), cap)
  }

  lemma PrunedKeeps(rows: seq<nat>, walk: RowScore, n: nat, adj: seq<nat>, cap: nat, kept: seq<nat>)
    requires n < |rows| && Distinct(adj) && PrunedTo(rows, walk, n, adj, cap, kept)
    ensures |kept| == Min(cap, |adj|) && Distinct(kept)
    ensures forall x :: x in kept ==> x in adj
  {
    if |adj| > cap {
      var f := NodeScore(rows, FromRow(walk, rows[n]));
      var order :| PrunedInOrder(rows, walk, n, adj, cap, order, kept);
      PermutationDistinct(adj, order);
      assert Nodes(WithScores(order, f)) == order;
      SelectSizes(rows, walk, WithScores(order, f), cap);
      forall x | x in kept
        ensures x in adj
      {
        assert x in order;
        assert x in multiset(order);
      }
    }
  }

  /** A list over its cap is cut to it, and what is left starts with the neighbour nearest to the node. */
  lemma PruneKeepsNearest(rows: seq<nat>, walk: RowScore, n: nat, adj: seq<nat>, cap: nat, kept: seq<nat>)
    requires n < |rows| && Distinct(adj) && PrunedTo(rows, walk, n, adj, cap, kept) && 1 <= cap < |adj|
    ensures |kept| == cap && kept[0] in adj && kept[0] < |rows|
    ensures forall x :: x in adj ==> x < |rows| && walk(rows[n], rows[x]) <= walk(rows[n], rows[kept[0]])
  {
    var f := NodeScore(rows, FromRow(walk, rows[n]));
    var order :| PrunedInOrder(rows, walk, n, adj, cap, order, kept);
    var cs := WithScores(order, f);
    PrunedKeeps(rows, walk, n, adj, cap, kept);
    PermutationDistinct(adj, order);
    assert Nodes(cs) == order;
    FirstIsKept(rows, walk, cs, cap);
    forall x | x in adj
      ensures x < |rows| && f(x) <= f(order[0])
    {
      assert x in multiset(adj) && x in order;
      var i :| 0 <= i < |order| && order[i] == x;
      assert cs[i] in cs && cs[0] in cs;
    }
  }

  lemma PermutationDistinct<T>(xs: seq<T>, ys: seq<T>)
    requires multiset(xs) == multiset(ys) && Distinct(xs)
    ensures Distinct(ys) && |ys| == |xs|
  {
    assert |multiset(xs)| == |xs| && |multiset(ys)| == |ys|;
    DistinctMultiset(xs);
    forall i, j | 0 <= i < j < |ys|
      ensures ys[i] != ys[j]
    {
      TwoPlaces(ys, i, j);
    }
  }

  /** Scores the list against its own node, sorts it and selects. */
  method PruneList(rows: seq<nat>, walk: RowScore, n: nat, adj: seq<nat>, cap: nat) returns (kept: seq<nat>)
    requires n < |rows| && forall x :: x in adj ==> x < |rows|
    ensures PrunedTo(rows, walk, n, adj, cap, kept)
  {
    if |adj| <= cap {
      return adj;
    }
    var f := NodeScore(rows, FromRow(walk, rows[n]));
    var order := SortDescending(adj, f);
    var scored := WithScores(order, f);
    forall c | c in scored
      ensures c.node < |rows|
    {
      var i :| 0 <= i < |scored| && scored[i] == c;
      assert order[i] == c.node && order[i] in multiset(order);
      assert c.node in multiset(adj) && c.node in adj;
    }
    kept := SelectNeighbors(rows, walk, scored, cap);
    assert PrunedInOrder(rows, walk, n, adj, cap, order, kept);
  }
}
