/** The serial HNSW graph: incremental insertion, greedy descent, beam search and query. */
module Hnsw {
  import opened Counting
  import opened Ranking
  import opened BeamSearch
  import opened Neighbours
  import opened Graphs

  const USIZE_MAX: nat := 0xFFFF_FFFF_FFFF_FFFF

  function Max(a: nat, b: nat): nat {
    if a >= b then a else b
  }

  ghost function Above(n: nat, f: nat -> real, cur: nat): set<nat> {
    set x | 0 <= x < n && f(x) > f(cur)
  }

  ghost predicate LocallyBest(g: Layer, f: nat -> real, x: nat) {
    x < |g| && forall y :: y in g[x] ==> f(y) <= f(x)
  }

  /** One pass over a neighbour list, keeping the best node met so far. */
  method GreedyPass(rows: seq<nat>, score: nat -> real, start: nat, neighbors: seq<nat>)
    returns (cur: nat, improved: bool)
    requires start < |rows| && forall i :: 0 <= i < |neighbors| ==> neighbors[i] < |rows|
    ensures cur < |rows|
    ensures forall y :: y in neighbors ==> NodeScore(rows, score)(y) <= NodeScore(rows, score)(cur)
    ensures if improved then cur in neighbors && NodeScore(rows, score)(cur) > NodeScore(rows, score)(start)
            else cur == start
  {
    ghost var f := NodeScore(rows, score);
    cur, improved := start, false;
    var curScore := score(rows[cur]);
    var i := 0;
    while i < |neighbors|
      invariant 0 <= i <= |neighbors|
      invariant cur < |rows| && curScore == f(cur)
      invariant if improved then cur in neighbors && f(cur) > f(start) else cur == start
      invariant forall j :: 0 <= j < i ==> f(neighbors[j]) <= f(cur)
    {
      var nbr := neighbors[i];
      var s := score(rows[nbr]);
      if s > curScore {
        curScore := s;
        cur := nbr;
        improved := true;
      }
      i := i + 1;
    }
  }

  /** Hop to the best-scoring neighbour until no neighbour improves. */
  method GreedyDescend(rows: seq<nat>, links: Links, score: nat -> real, entry: nat, level: nat) returns (cur: nat)
    requires |links| == |rows| && Sound(links) && entry < |rows|
    ensures Reaches(LayerOf(links, level), entry, cur)
    ensures LocallyBest(LayerOf(links, level), NodeScore(rows, score), cur)
    ensures NodeScore(rows, score)(cur) >= NodeScore(rows, score)(entry)
  {
    ghost var f := NodeScore(rows, score);
    ghost var g := LayerOf(links, level);
    SoundLayerInRange(links, level);
    ReachesSelf(g, entry);
    cur := entry;
    var improved := true;
    while improved
      invariant cur < |rows| && f(cur) >= f(entry) && Reaches(g, entry, cur)
      invariant !improved ==> LocallyBest(g, f, cur)
      decreases Above(|rows|, f, cur), improved
    {
      ghost var start := cur;
      var neighbors := if level < |links[cur]| then links[cur][level] else [];
      assert forall i :: 0 <= i < |neighbors| ==> g[start][i] < |rows|;
      cur, improved := GreedyPass(rows, score, cur, neighbors);
      if improved {
        ReachesStep(g, entry, start, cur);
        ClimbShrinksAbove(|rows|, f, start, cur);
      }
    }
  }

  lemma ClimbShrinksAbove(n: nat, f: nat -> real, low: nat, high: nat)
    requires high < n && f(low) < f(high)
    ensures Above(n, f, high) < Above(n, f, low)
  {
    assert high in Above(n, f, low) && high !in Above(n, f, high);
  }

  /** The worst member of a non-empty heap; which one on ties is not specified. */
  method WorstOf(heap: set<nat>, f: nat -> real) returns (w: nat)
    requires heap != {}
    ensures w in heap && forall x :: x in heap ==> f(w) <= f(x)
  {
    w :| w in heap;
    var rest := heap - {w};
    while rest != {}
      invariant rest <= heap && w in heap
      invariant forall x :: x in heap - rest ==> f(w) <= f(x)
      decreases rest
    {
      var x :| x in rest;
      if f(x) < f(w) {
        w := x;
      }
      rest := rest - {x};
    }
  }

  method BestOf(heap: set<nat>, f: nat -> real) returns (b: nat)
    requires heap != {}
    ensures b in heap && forall x :: x in heap ==> f(x) <= f(b)
  {
    b := WorstOf(heap, (x: nat) => -f(x));
    assert forall x :: x in heap ==> -f(b) <= -f(x);
  }

  method ListOf(heap: set<nat>) returns (xs: seq<nat>)
    ensures Distinct(xs) && Elements(xs) == heap
  {
    xs := [];
    var rest := heap;
    while rest != {}
      invariant rest <= heap && Distinct(xs) && Elements(xs) == heap - rest
      decreases rest
    {
      var x :| x in rest;
      assert x !in Elements(xs);
      assert Elements(xs + [x]) == Elements(xs) + {x};
      xs := xs + [x];
      rest := rest - {x};
    }
  }

  /** The beam between two steps. `busy` is the node being expanded, if any. */
  ghost predicate Beam(g: Layer, starts: seq<nat>, ef: nat, f: nat -> real,
                       seen: set<nat>, candidates: set<nat>, result: set<nat>, busy: set<nat>)
  {
    && Elements(starts) <= seen <= Reachable(g, starts)
    && candidates <= seen && result <= seen && busy <= seen
    && (starts != [] ==> result != {})
    && |result| <= Max(ef, |Elements(starts)|)
    && (seen != result ==> ef <= |result|)
    && (forall x, y :: x in result && y in seen - result ==> f(y) <= f(x))
    && (forall x, y :: x in result - candidates - busy && x < |g| && y in g[x] ==> y in seen)
  }

  /** Scoring one unvisited neighbour: kept if the beam has room or it beats the worst kept,
      which is then dropped. */
  method Offer(ghost g: Layer, ghost starts: seq<nat>, ef: nat, f: nat -> real,
               ghost seen: set<nat>, candidates: set<nat>, result: set<nat>, ghost busy: set<nat>, nbr: nat)
    returns (candidates': set<nat>, result': set<nat>)
    requires ef >= 1 && Beam(g, starts, ef, f, seen, candidates, result, busy)
    requires nbr !in seen && nbr in Reachable(g, starts)
    ensures Beam(g, starts, ef, f, seen + {nbr}, candidates', result', busy)
    ensures candidates <= candidates' <= candidates + {nbr}
  {
    candidates', result' := candidates, result;
    if result == {} {
      candidates', result' := candidates + {nbr}, {nbr};
    } else {
      var worst := WorstOf(result, f);
      if |result| < ef || f(nbr) > f(worst) {
        candidates', result' := candidates + {nbr}, result + {nbr};
        if |result'| > ef {
          var w := WorstOf(result', f);
          result' := result' - {w};
        }
      }
    }
  }

  ghost predicate Marks(visited: array<bool>, seen: set<nat>)
    reads visited
  {
    forall x: nat :: x < visited.Length ==> (visited[x] <==> x in seen)
  }

  /** Marks the entry points and puts each of them in both heaps. */
  method SeedBeam(ghost g: Layer, entryPoints: seq<nat>, visited: array<bool>) returns (beam: set<nat>)
    requires forall e :: e in entryPoints ==> e < visited.Length
    requires Marks(visited, {}) && |g| == visited.Length
    modifies visited
    ensures Marks(visited, beam) && beam == Elements(entryPoints) && beam <= Reachable(g, entryPoints)
  {
    beam := {};
    var i := 0;
    while i < |entryPoints|
      invariant 0 <= i <= |entryPoints|
      invariant Marks(visited, beam) && beam == Elements(entryPoints[..i])
    {
      var ep := entryPoints[i];
      assert ep in entryPoints;
      assert Elements(entryPoints[..i + 1]) == Elements(entryPoints[..i]) + {ep};
      if !visited[ep] {
        visited[ep] := true;
        beam := beam + {ep};
      }
      i := i + 1;
    }
    assert entryPoints[..i] == entryPoints;
    StartsReachable(g, entryPoints);
  }

  /** Scores every unvisited neighbour of `cand`. */
  method Expand(g: Layer, ghost starts: seq<nat>, ef: nat, f: nat -> real, cand: nat,
                visited: array<bool>, ghost seen: set<nat>, candidates: set<nat>, result: set<nat>)
    returns (candidates': set<nat>, result': set<nat>, ghost seen': set<nat>)
    requires InRange(g) && |g| == visited.Length && ef >= 1 && cand < |g|
    requires Marks(visited, seen) && Beam(g, starts, ef, f, seen, candidates, result, {cand})
    modifies visited
    ensures Marks(visited, seen') && Beam(g, starts, ef, f, seen', candidates', result', {})
    ensures seen <= seen' && (seen' == seen ==> candidates' == candidates)
  {
    candidates', result', seen' := candidates, result, seen;
    var j := 0;
    while j < |g[cand]|
      invariant 0 <= j <= |g[cand]|
      invariant Marks(visited, seen')
      invariant Beam(g, starts, ef, f, seen', candidates', result', {cand})
      invariant Elements(g[cand][..j]) <= seen'
      invariant seen <= seen' && (seen' == seen ==> candidates' == candidates)
    {
      assert Elements(g[cand][..j + 1]) == Elements(g[cand][..j]) + {g[cand][j]};
      candidates', result', seen' :=
        Visit(g, starts, ef, f, cand, j, visited, seen', candidates', result');
      j := j + 1;
    }
    assert g[cand][..j] == g[cand];
    ExpandedBeam(g, starts, ef, f, cand, seen', candidates', result');
  }

  method Visit(g: Layer, ghost starts: seq<nat>, ef: nat, f: nat -> real, cand: nat, j: nat,
               visited: array<bool>, ghost seen: set<nat>, candidates: set<nat>, result: set<nat>)
    returns (candidates': set<nat>, result': set<nat>, ghost seen': set<nat>)
    requires InRange(g) && |g| == visited.Length && ef >= 1 && cand < |g| && j < |g[cand]|
    requires Marks(visited, seen) && Beam(g, starts, ef, f, seen, candidates, result, {cand})
    modifies visited
    ensures Marks(visited, seen') && Beam(g, starts, ef, f, seen', candidates', result', {cand})
    ensures seen' == seen + {g[cand][j]} && (seen' == seen ==> candidates' == candidates)
  {
    var nbr := g[cand][j];
    candidates', result', seen' := candidates, result, seen + {nbr};
    if visited[nbr] {
      assert seen' == seen;
    } else {
      visited[nbr] := true;
      assert cand in Reachable(g, starts);
      NeighbourReachable(g, starts, cand, nbr);
      candidates', result' := Offer(g, starts, ef, f, seen, candidates, result, {cand}, nbr);
    }
  }

  lemma ExpandedBeam(g: Layer, starts: seq<nat>, ef: nat, f: nat -> real, cand: nat,
                     seen: set<nat>, candidates: set<nat>, result: set<nat>)
    requires cand < |g| && Beam(g, starts, ef, f, seen, candidates, result, {cand})
    requires Elements(g[cand]) <= seen
    ensures Beam(g, starts, ef, f, seen, candidates, result, {})
  {
    forall x, y | x in result - candidates && x < |g| && y in g[x]
      ensures y in seen
    {
      assert x == cand ==> y in Elements(g[cand]);
      assert x != cand ==> x in result - candidates - {cand};
    }
  }

  /** Drains the candidate heap, best first, until the beam cannot improve. */
  method Explore(g: Layer, ghost starts: seq<nat>, ef: nat, f: nat -> real, visited: array<bool>, beam: set<nat>)
    returns (result: set<nat>, ghost seen: set<nat>)
    requires InRange(g) && |g| == visited.Length && ef >= 1
    requires Marks(visited, beam) && beam == Elements(starts) && beam <= Reachable(g, starts)
    modifies visited
    ensures Beam(g, starts, ef, f, seen, {}, result, {})
  {
    var candidates := beam;
    result, seen := beam, beam;
    assert starts != [] ==> starts[0] in beam;
    while candidates != {}
      invariant Marks(visited, seen) && Beam(g, starts, ef, f, seen, candidates, result, {})
      decreases Reachable(g, starts) - seen, candidates
    {
      var cand := BestOf(candidates, f);
      if |result| >= ef {
        var worst := WorstOf(result, f);
        if f(cand) < f(worst) {
          assert result !! candidates;
          candidates := {};
          break;
        }
      }
      candidates := candidates - {cand};
      candidates, result, seen := Expand(g, starts, ef, f, cand, visited, seen, candidates, result);
    }
  }

  /** Best-first exploration of one level with a beam of `ef`. */
  method SearchLayer(rows: seq<nat>, links: Links, score: nat -> real, entryPoints: seq<nat>, ef: nat, level: nat)
    returns (out: seq<nat>)
    requires |links| == |rows| && Sound(links) && ef >= 1
    requires forall e :: e in entryPoints ==> e < |rows|
    ensures Certified(LayerOf(links, level), entryPoints, ef, NodeScore(rows, score), out)
  {
    var f, g := NodeScore(rows, score), LayerOf(links, level);
    SoundLayerInRange(links, level);
    var visited := new bool[|rows|](_ => false);
    var beam := SeedBeam(g, entryPoints, visited);
    var result; ghost var seen;
    result, seen := Explore(g, entryPoints, ef, f, visited, beam);
    var kept := ListOf(result);
    out := SortDescending(kept, f);
    PermutationDistinct(kept, out);
    SameElements(kept, out);
    DistinctSize(out);
    assert CertifiedBy(g, entryPoints, ef, f, out, seen);
  }

  lemma SameElements<T>(a: seq<T>, b: seq<T>)
    requires multiset(a) == multiset(b)
    ensures Elements(a) == Elements(b)
  {
    forall x | x in a
      ensures x in b
    {
      assert x in multiset(a);
    }
    forall x | x in b
      ensures x in a
    {
      assert x in multiset(b);
    }
  }

  lemma StartsReachable(g: Layer, starts: seq<nat>)
    requires forall e :: e in starts ==> e < |g|
    ensures Elements(starts) <= Reachable(g, starts)
  {
    forall e | e in starts
      ensures e in Reachable(g, starts)
    {
      ReachesSelf(g, e);
    }
  }

  lemma NeighbourReachable(g: Layer, starts: seq<nat>, x: nat, y: nat)
    requires x in Reachable(g, starts) && y < |g| && y in g[x]
    ensures y in Reachable(g, starts)
  {
    var e :| e in starts && Reaches(g, e, x);
    ReachesStep(g, e, x, y);
  }
}
