# nidus: verified model of the vector store's cores

nidus is a vector store written in Rust. This project models the parts of it whose correctness is not
obvious from reading one function, and proves what they promise.

- **HNSW graph index** (`Ranking`, `BeamSearch`, `Neighbours`, `Graphs`, `Hnsw`, `HnswIndex`): the serial
  graph as an object that inserts, prunes and searches in place. Scores are an arbitrary function of two
  rows and levels are arbitrary numbers, so every theorem holds for every metric, quantization and seed.
- **Parallel HNSW build** (`HnswParallel`, `HnswParallelProof`, `HnswParallelResults`, `HnswParallelBeams`,
  `HnswParallelEnds`): any number of workers as interleaved steps over one lock per node, one entry lock and one
  counter; safety, what the searches keep by nearness, deadlock freedom and termination.
- **What the parallel build links** (`HnswParallelLinked`, `HnswParallelForest`, `HnswParallelSeed`,
  `HnswParallelLopsided`, `HnswParallelCrowd`, `HnswParallelLost`, `HnswParallelShunned`): which nodes are sure
  of a layer-0 neighbour, and the runs in which the first node ends without one. The source builds in
  parallel from 1024 rows on (src/ann/hnsw.rs:141, 433); these results hold for every number of rows.
- **IVF index** (`Vectors`, `KMeans`, `Ivf`, `SplitMix`): seeding, Lloyd iterations, inverted lists and
  probing over real vectors.
- **Calendar and timestamps** (`Calendar`, `Timestamp`): the log's printer and the credential parser, two
  conversions written independently, with the integer division of each written out.
- **nDCG** (`Ndcg`): the retrieval metric, with the rearrangement inequality its range rests on.
- **OPFS handle pool** (`Bincode`, `OpfsDisk`, `OpfsPool`, `OpfsCrash`, `OpfsRefused`, `OpfsStore`): slots with
  durable bytes and unflushed calls, the directory codec, crashes between any two handle calls, writes the
  handle refuses.
- **Remembering** (`ChunkIds`, `Remember`, `RememberRuns`, `MemoryStore`): stamping, dedupe and chunked
  documents over a record store.
- **Conditional writes** (`Cas`, `CasResults`): many clients, one object, requests that are lost, late and
  replayed once.
- **Rank fusion, derived caches, tuning** (`Orders`, `Fusion`, `IndexCache`, `AnnPersist`, `Tune`).

`Counting`, `Division`, `Lex` and `Options` hold shared vocabulary. Sorting is unstable in the source, so rankings are
specified by what they contain and how they are ordered; ties are left open wherever the source leaves them
open.

`dafny verify dfyconfig.toml` checks the project.

## Where the code and its promises differ

- The retry comment (src/backend/cloud.rs:27-29) says a replay cannot apply twice. That is proved for every
  write that names a token. A create can apply twice when a delete falls between its two requests, and can
  report that someone else holds the object when its own lost request made it: `CasResults.CreateLandsTwice`
  and `CasResults.StaleThoughLanded` are runs that do so, and `TwoCreatesNeedADelete` and `StaleMeans` say
  exactly when it can happen.
- The pool's header (src/backend/opfs.rs:10-14) says a crash leaves at worst a body nothing references.
  That is proved for puts. A delete shortens the directory, and a crash between its write and its truncate
  leaves a directory that adoption refuses: `OpfsCrash.DeleteCanBeRefused`. `OpfsCrash.RefusedIffShorter`
  gives the exact condition for any request that commits.
- A put or delete changes the directory in memory before it writes slot 0 (src/backend/opfs.rs:128-129,
  136-137). When the handle refuses that write, for want of quota, the request fails and is served all the
  same: memory acts as if it had succeeded, the disk as if nothing had happened
  (`OpfsRefused.UnwrittenIsServed`). The next write of the directory puts the two back together
  (`NextWriteHeals`). A crash inside a put that comes before that finds what the disk had or all that
  memory has, unless the put was given the slot the failed request took from its key: then, and only then,
  its body is found under that key (`FreshSlotIsSafe`, `NextBodyOverwritesIff`). `LossIsPossible` is a pool of three slots where it happens.
- The serial build leaves every node a layer-0 neighbour. The parallel build does so for every node but the
  seed, node 0 (`HnswParallelForest.JoinIsLinked`). The seed is sure of one exactly when it occupies at most
  two levels, or beams hold one node, or `ef_construction` and twice `m` both reach the number of rows
  (`HnswParallelShunned.SeedIsSafeIff`). Otherwise two insertions that share three levels with it can each
  come to meet themselves and so many others that the seed is left out of the selection
  (src/ann/hnsw.rs:640-654), and later insertions pass it by: `HnswParallelShunned.SeedIsLost` is such a run,
  for every number of workers from two up.
- Timestamps from the year 10000 on do not read back, because the parser's columns are fixed:
  `Timestamp.RoundTripIffFourDigitYear` gives the exact condition.
- A dedupe match is looked for at one clock reading and stamped at another (src/memory.rs:864, 889), so a
  write without a TTL can inherit an expiry that passes in between; `RememberRuns.VisibleIff` says exactly
  when a write is visible as it is stamped. A TTL that is zero or negative is accepted and is never visible.

## Model

| member | source | states |
|---|---|---|
| `Neighbours.SelectNeighbors` | src/ann/hnsw.rs:438-463 | The two loops compute the selection; for distinct candidates it has exactly `min(m, candidates)` distinct members, all of them candidates. |
| `Neighbours.SelectionMeaning` | src/ann/hnsw.rs:435-463 | What the heuristic selects: every kept candidate is nearer the base than to every candidate kept before it, every refused one was dominated by a kept one, and the shortfall is made up by the best refused in order. |
| `Neighbours.SelectSizes` | src/ann/hnsw.rs:438-463 | The size and distinctness of a selection hold whatever order the candidates come in. |
| `Neighbours.PruneList` | src/ann/hnsw.rs:333-350 | A list over its cap becomes the heuristic's selection from some best-first ordering of itself; one within its cap is unchanged. |
| `Neighbours.PrunedKeeps` | src/ann/hnsw.rs:330-350 | Pruning keeps exactly `min(cap, degree)` distinct neighbours of the list it was given. |
| `Neighbours.PruneKeepsNearest` | src/ann/hnsw.rs:333-350 | A list over its cap is cut to exactly the cap and then starts with the neighbour `walk` puts nearest to the node. |
| `Hnsw.GreedyDescend` | src/ann/hnsw.rs:224-243 | Terminates at a node reachable from the start, scoring no worse than it, which no neighbour on the level beats. |
| `Hnsw.Offer` | src/ann/hnsw.rs:283-303 | Scoring one unvisited neighbour keeps the beam invariant: full beam holds the best visited nodes, every visited node left out scores no better than the worst kept. |
| `Hnsw.Explore` | src/ann/hnsw.rs:271-305 | Draining the candidate heap ends with every kept node expanded: no candidate is left that could improve the beam. |
| `Hnsw.SearchLayer` | src/ann/hnsw.rs:247-310 | Terminates with a certified beam: distinct nodes reachable from the entry points, best first, at most `ef` (or the entry points if more), every visited node left out no better than the worst kept, every kept node fully expanded. |
| `BeamSearch.CertifiedIsLocallyOptimal` | src/ann/hnsw.rs:271-305 | Each neighbour of a result is a result, or the beam is full and the neighbour is no better than its worst. |
| `BeamSearch.CertifiedNonEmpty` | src/ann/hnsw.rs:262-305 | A search with a start and a positive width returns something. |
| `BeamSearch.WideBeamIsExhaustive` | src/ann/hnsw.rs:247-310 | A beam at least as wide as the reachable part of a layer returns exactly the reachable part. |
| `BeamSearch.WideBeamRefinesBruteForce` | src/ann/hnsw.rs:352-385 | Its first `n` entries are then a best-`n` ranking of everything reachable, as brute force over those rows would return up to ties. |
| `HnswIndex.Connect` | src/ann/hnsw.rs:320-328 | The one list ends up with the neighbour in it, at the end if it is new, still without duplicates and never with the node itself; what was there stays and every other list is untouched. |
| `HnswIndex.Prune` | src/ann/hnsw.rs:333-350 | Replaces one list by its pruning and touches no other. |
| `HnswIndex.LinkPair` | src/ann/hnsw.rs:203-205 | Both directions of a new edge, then the far list pruned: links stay sound, only the two lists change, the far degree is `min(cap, degree + 1)`. |
| `HnswIndex.LinkLayer` | src/ann/hnsw.rs:202-206 | The node's list becomes the selection, each selected neighbour's list gains the node and is pruned, every other list and level is unchanged, caps are kept. |
| `HnswIndex.InsertAtLevel` | src/ann/hnsw.rs:197-206 | One level of an insertion: a certified beam from the entry points over the level as it was, then links to the heuristic's selection from it. |
| `HnswIndex.Descend` | src/ann/hnsw.rs:186-191 | Walks level by level: on each level above the stop it goes from where it was, along links of that level, to a node no neighbour on the level beats. |
| `HnswIndex.DescentImproves` | src/ann/hnsw.rs:224-243 | Such a walk never ends on a node scoring worse than the one it began from. |
| `HnswIndex.InsertBelow` | src/ann/hnsw.rs:181-213 | Descends to the new node's top level, then inserts on every level down to 0, each level starting from the beam found above it; caps and layer-0 links are kept and the entry still reaches the top level. |
| `HnswIndex.HnswGraph.constructor` | src/ann/hnsw.rs:80-97 | An empty graph with `m`, `ef_construction`, `ef_search` clamped to at least 1. |
| `HnswIndex.HnswGraph.FromParts` | src/ann/hnsw.rs:101-116 | Adopts decoded state unchanged; the graph is valid exactly when that state is navigable. |
| `HnswIndex.HnswGraph.SetQueryParams` | src/ann/hnsw.rs:129-131 | Changes the search width only. |
| `HnswIndex.HnswGraph.InsertFirst` | src/ann/hnsw.rs:168-179 | The first node becomes the entry point at its own level. |
| `HnswIndex.HnswGraph.InsertNext` | src/ann/hnsw.rs:181-219 | A later node is linked level by level from certified beams and becomes the entry point exactly when it rises above the top level. |
| `HnswIndex.HnswGraph.InsertOne` | src/ann/hnsw.rs:158-219 | One row added under this `walk` at the drawn level, or on the bottom when `m` is one: the first alone as entry, any other linked level by level from where its descent ended, the top and the entry moving exactly when it rises above them. Ids stay in range, edges level-valid, degrees within `m` (`2m` at layer 0), every node keeps a layer-0 neighbour once there are two. |
| `HnswIndex.HnswGraph.InsertRows` | src/ann/hnsw.rs:148-155 | A history of graphs from the old to the new one in which each row is added so, in order, under this `walk` and at its own drawn level; a zero-dimensional index changes nothing. |
| `HnswIndex.HnswGraph.BuildSerial` | src/ann/hnsw.rs:133-146 | Whatever the graph held, such a history from the empty graph to one of exactly the given rows: node `i` has one list per level up to its draw, `max_level` is the highest draw, degrees are within `m` and `2m`, and no layer-0 list is empty once there are two rows. |
| `HnswIndex.NewNodeLinksNearest` | src/ann/hnsw.rs:181-213 | What one insertion links, in terms of `walk` alone: the descent ends where no neighbour is nearer, each level's list has `min(cap, found)` entries and starts with the nearest node found. |
| `HnswIndex.HnswGraph.Search` | src/ann/hnsw.rs:352-385 | Walks down the levels from the entry, searches layer 0 from there with `max(ef_search, n)` and returns the best `n` of a certified beam with their scores; empty for no candidates, no dimension or no entry. |
| `HnswIndex.WideQueryMatchesBruteForce` | src/ann/hnsw.rs:352-385 | When the beam covers what the descent's end can reach on layer 0, the returned scores are those of any best-`n` ranking of the reachable rows. |
| `HnswParallelProof.StepKeepsInv` | src/ann/hnsw.rs:390-428 | Every step of every worker (claim, read entry, copy a list, lock low, lock high, link and prune, unlock, promote) keeps the structural, locking and claiming invariant. |
| `HnswParallelResults.RunsKeepInv` | src/ann/hnsw.rs:390-428 | The invariant holds in every state of every interleaving of any number of workers. |
| `HnswParallelResults.ReachableGraphsAreSafe` | src/ann/hnsw.rs:566-665 | In every reachable state ids are in range, there are no self-loops or duplicates, an edge joins only nodes on its level, and no list exceeds twice its cap. |
| `HnswParallelResults.ClaimsAreFinal` | src/ann/hnsw.rs:409-416 | A node's claim never moves to another worker and a finished insertion stays finished. |
| `HnswParallelResults.JoinIsComplete` | src/ann/hnsw.rs:404-427 | At the join nodes 1..n are each inserted by the one worker that claimed them, `max_level` is the highest level of any node and the entry has it, so the graph is one queries accept. |
| `HnswParallelBeams.StepKeepsBest` | src/ann/hnsw.rs:501-560 | Every step of every worker keeps what each search knows: a node it scored and left out was left out of a full beam of nodes at least as near. |
| `HnswParallelBeams.BeamsHoldTheNearest` | src/ann/hnsw.rs:501-654 | So in every state of every interleaving, whatever others write meanwhile; what was found is in order of nearness, and its nearest is the first of the `min(cap, found)` to be linked. |
| `HnswParallelBeams.StepsTowardsNearest` | src/ann/hnsw.rs:474-560 | A descent moves only to a node at least as near as where it is and as what it looked at, and a search goes on from the nearest candidate it has. |
| `HnswParallelLinked.StepKeepsLinkInv` | src/ann/hnsw.rs:501-665 | Every step of an insertion that has another node in its beam keeps it bound to link: past a neighbour on layer 0 it has a link there, which no pruning takes away. |
| `HnswParallelForest.StepKeepsForest` | src/ann/hnsw.rs:501-665 | With a beam of one, the edges ever made on a level form a forest in which every insertion starts in another tree than its own, at every step of every worker. |
| `HnswParallelForest.JoinIsLinked` | src/ann/hnsw.rs:404-427 | At the join every node but the seed has a layer-0 neighbour, whatever the beam width and the interleaving. |
| `HnswParallelSeed.SureSeedIsLinked` | src/ann/hnsw.rs:390-428 | A seed on at most two levels, beams of one, or room for every node in beams and layer-0 lists: the seed has a layer-0 neighbour at every join. The first insertion to link anywhere has met the seed alone, and then or later somebody is bound to link to it. |
| `HnswParallelShunned.StepShuns` | src/ann/hnsw.rs:611-665 | Once layer 0 names the seed nowhere and a way leads off it on level 2, every step of every worker on nodes of one level keeps it so. |
| `HnswParallelShunned.SeedIsLost` | src/ann/hnsw.rs:390-428 | For a seed on any number of levels from three up, any number of rows above the smaller of the beam width and twice `m`, and any number of workers from two up: a run that joins with the seed alone on layer 0. |
| `HnswParallelShunned.SeedIsSafeIff` | src/ann/hnsw.rs:390-428 | Given the seed's levels, `ef_construction`, `m` and the number of rows, every build leaves the seed a layer-0 neighbour exactly when it has at most two levels, the beam is one, or beam and layer-0 cap both reach the number of rows. An `m` of one gives every node one level (src/ann/hnsw.rs:82-83). |
| `HnswParallelResults.LocksAreOrdered` | src/ann/hnsw.rs:576-578 | A worker holding a node lock waits only for a larger id and never for the entry lock; it holds at most its low and high node. |
| `HnswParallelResults.OnlyLocksBlock` | src/ann/hnsw.rs:467-665 | An unfinished worker can always step unless a lock it needs is held. |
| `HnswParallelResults.DeadlockFree` | src/ann/hnsw.rs:566-665 | In every reachable state with an unfinished worker, some worker can step. |
| `HnswParallelEnds.StepsRunOut` | src/ann/hnsw.rs:404-427 | Every step of every worker uses up a measure: claims left, levels left, nodes scoring above the current one or not yet seen, candidates, list entries, edges, locks. |
| `HnswParallelEnds.RunsAreShort` | src/ann/hnsw.rs:404-427 | No run is longer than a bound given by the rows, the levels and the number of workers, however it is scheduled. |
| `HnswParallelEnds.MaximalRunsJoin` | src/ann/hnsw.rs:404-427 | A run that cannot go on has joined. |
| `HnswParallelEnds.RunsGoOnToJoin` | src/ann/hnsw.rs:404-427 | Every run goes on to a join. |
| `SplitMix.ShufflePrefix` | src/ann/ivf.rs:91-96 | The in-place Fisher–Yates prefix is the shuffle the generator state determines, and only rearranges. |
| `SplitMix.ShuffleRearranges` | src/tune.rs:133-137 | Whatever is drawn, the shuffled list is a permutation, so its prefix holds distinct positions. |
| `SplitMix.SplitMix64.Below` | src/ann/mod.rs:261-263 | A draw is within its bound, is the reduced mix of the advanced state, and advances the state once. |
| `SplitMix.ShufflePlaces` | src/ann/ivf.rs:91-96 | Each step places the entry picked by the generator's next draw modulo the entries left, puts what was there in its place, and goes on from the next state. |
| `SplitMix.DrawsAreDistinct` | src/ann/mod.rs:247-254 | The mixing can be undone by explicit inverse constants, so no two states give the same draw. |
| `SplitMix.StatesGoBack` | src/ann/mod.rs:248 | The step from state to state can be undone, so no two states have the same successor. |
| `KMeans.NearestCentroid` | src/ann/ivf.rs:168-180 | The best-scoring centroid, the lowest index among equals. |
| `KMeans.NearestUnique` | src/ann/ivf.rs:168-180 | That choice is unique. |
| `KMeans.AssignRows` | src/ann/ivf.rs:104-112 | Assigns every row to its best centroid and reports whether any assignment moved. |
| `KMeans.UpdateCentroids` | src/ann/ivf.rs:113-137 | Moves each centroid with members to their mean (rescaled for cosine) and leaves the empty ones where they were. |
| `KMeans.NearestIsCheapest` | src/ann/ivf.rs:104-112 | Under the Euclidean metric no assignment costs less than the nearest one. |
| `KMeans.HigherIsNearer` | src/ann/mod.rs:60-65 | Under every metric, of two vectors of equal length the one at the smaller distance scores higher. |
| `KMeans.ScoreIsDot` | src/ann/mod.rs:60-65 | Under cosine and dot product twice the score is what the two squared lengths exceed the squared distance by; under the Euclidean metric the score is minus that distance, expanded. |
| `KMeans.RefitDescends` | src/ann/ivf.rs:113-137 | Moving centroids to their members' means never increases the total squared distance. |
| `KMeans.LloydDescends` | src/ann/ivf.rs:102-141 | One whole iteration, from any assignment, never increases the total squared distance. |
| `Ivf.Lloyd` | src/ann/ivf.rs:102-141 | For every metric, a history from the seeds: each round assigns every row to its nearest centroid and moves each centroid to the mean of its rows, rescaled for cosine, an empty one staying; twelve rounds, or up to the first that assigns as the one before did (as all zeros, for the first). Under the Euclidean metric no assignment to the seeds costs less. |
| `Ivf.SettledIsFixed` | src/ann/ivf.rs:138-140 | A fit that stops after the first round is a fixed point: its rows are with their nearest final centroid and the final centroids are the means of their rows. |
| `Ivf.ListCount` | src/ann/ivf.rs:80-87 | The configured count capped at the rows, or the integer nearest to the square root of the row count; at least 1 and at most the number of rows. |
| `Ivf.RoundedRootUnique` | src/ann/ivf.rs:80-87 | There is one nearest integer: no root lies half way. |
| `Ivf.Seeds` | src/ann/ivf.rs:89-100 | The seeds are the shuffled prefix of the rows: `k` distinct positions. |
| `Ivf.FileRows` | src/ann/ivf.rs:143-165 | Each row goes onto the list of its best centroid and nothing else changes, as a multiset. |
| `Ivf.FitAndFile` | src/ann/ivf.rs:101-150 | The fit followed by filing holds every row exactly once, each under its best centroid. |
| `Ivf.SelectBest` | src/ann/ivf.rs:193-203 | A permutation of the centroids in which none of the probed ones scores below an unprobed one. |
| `Ivf.GatherRows` | src/ann/ivf.rs:207-213 | The buffer holds exactly the rows of the probed lists. |
| `Ivf.Probe` | src/ann/ivf.rs:205-216 | The best `n` of the probed lists' rows, sorted by score. |
| `Ivf.FullProbeIsBruteForce` | src/ann/ivf.rs:182-216 | Probing every list returns the scores of any best-`n` ranking of everything indexed, each paired with its own row. |
| `Ivf.IvfIndex.constructor` | src/ann/ivf.rs:26-37 | An empty index with the probe width clamped to at least 1. |
| `Ivf.IvfIndex.SetQueryParams` | src/ann/ivf.rs:66-68 | Changes the probe width only. |
| `Ivf.IvfIndex.Build` | src/ann/ivf.rs:72-150 | The lists hold exactly the rows, each under its best centroid, and the centroids fit no worse than the shuffled seed rows; an empty build clears the index. The centroids end such a history from the drawn seeds. |
| `Ivf.IvfIndex.InsertRows` | src/ann/ivf.rs:152-165 | Adds exactly the rows, each under its best centroid; an index with no centroids is built from them, from seeds drawn and fitted as in a build. |
| `Ivf.IvfIndex.Search` | src/ann/ivf.rs:182-216 | The best `n` rows of the `min(n_probe, lists)` best-scoring lists. |
| `Calendar.DaysRoundTrip` | src/diag.rs:188-199 | For every day number the computed date is a valid calendar date and the other conversion returns the day number. |
| `Calendar.DateRoundTrip` | src/backend/aws_creds.rs:336-342 | A date survives the two conversions exactly when it is a date of the proleptic Gregorian calendar. |
| `Calendar.DaysAdvance` | src/diag.rs:188-199 | The next day number is the next calendar day, across months, leap years and centuries. |
| `Calendar.DaysOrder` | src/diag.rs:188-199 | Later day numbers are later dates. |
| `Timestamp.PrintedParses` | src/diag.rs:168-183 | Up to the end of year 9999 the printed instant parses to its whole seconds. |
| `Timestamp.PrintedForm` | src/diag.rs:168-183 | Before the year 10000: 24 bytes, with hyphens, the letter T, colons, a point and the letter Z at the RFC 3339 places, digits everywhere else, and the milliseconds as the last three. |
| `Timestamp.AcceptedIff` | src/backend/aws_creds.rs:322-345 | With digits in the date and time columns a text is accepted exactly for a month of 1 to 12, a day of 1 to 31 and an instant not before 1970, and then means that instant, whatever the separators and the rest are. |
| `Timestamp.RoundTripIffFourDigitYear` | src/backend/aws_creds.rs:322-345 | The round trip holds exactly for the instants before the year 10000. |
| `Timestamp.TextOrderIsTimeOrder` | src/diag.rs:168-183 | Byte order of two printed instants of four-digit years is their time order. |
| `Ndcg.ComputeDcg` | benchmarks/src/qmetrics.rs:15-21 | The discounted sum of the first `k` gains. |
| `Ndcg.GainCounts` | benchmarks/src/qmetrics.rs:14-21 | A gain counts divided by its own rank's discount, whatever the other gains; no gains make nothing. |
| `Ndcg.DominanceDecides` | benchmarks/src/qmetrics.rs:15-21 | A sequence ahead in every prefix sum is ahead after any positive increasing discount, and level only with itself. |
| `Ndcg.TopIsLargest` | benchmarks/src/qmetrics.rs:40-41 | No selection of judged gains sums to more than the same number of the largest. |
| `Ndcg.IdealDominates` | benchmarks/src/qmetrics.rs:36-42 | The ideal order is ahead of every ranking without repeats at every rank. |
| `Ndcg.IdealUnique` | benchmarks/src/qmetrics.rs:40-41 | Sorting the judgements has one result, whatever order the hash map yields. |
| `Ndcg.QueryInRange` | benchmarks/src/qmetrics.rs:36-46 | One scored query lies in [0,1], and is 1 exactly when its top `k` carry the ideal gains. |
| `Ndcg.ScoreQuery` | benchmarks/src/qmetrics.rs:36-46 | One judged query is scored exactly when its ideal gain is positive, and then gets its own gain over the ideal. |
| `Ndcg.QueryShare` | benchmarks/src/qmetrics.rs:34-43 | A query's score is its ranking's discounted gain as a share of the ideal order's, both over the same `k` ranks. |
| `Ndcg.NdcgAtK` | benchmarks/src/qmetrics.rs:25-52 | The mean over scored queries, skipping those without judgements or without anything to gain; in [0,1] for fair input. |
| `Ndcg.MeanAverages` | benchmarks/src/qmetrics.rs:42-50 | Every counted query weighs the same in the mean. |
| `Ndcg.NdcgInRange` | benchmarks/src/qmetrics.rs:23-52 | The mean lies in [0,1] for every run, every `k` and every admissible discount. |
| `Ndcg.NdcgPerfect` | benchmarks/src/qmetrics.rs:23-52 | It is 1 exactly when some query is scored and every scored one ranks its top `k` ideally. |
| `Bincode.LeRoundTrip` | src/backend/opfs.rs:188-196 | An integer field reads back exactly when it fits its width. |
| `Bincode.LeCollides` | src/ann/persist.rs:52-56 | Two integers share a truncated field exactly when they agree modulo its range. |
| `Bincode.LittleEndian` | src/backend/opfs.rs:188-196 | Byte `i` of an integer field is worth 256 to the `i`, least significant first. |
| `Bincode.MapInverts` | src/backend/opfs.rs:188-221 | A key map's encoding reads back unchanged, whatever follows it. |
| `Bincode.MapExact` | src/backend/opfs.rs:188-221 | Bytes decode to a map exactly when they are a 64-bit count and that many entries, each a length, a key and a 32-bit slot. |
| `Bincode.LastEntryCounts` | src/backend/opfs.rs:211-220 | Of several entries with one key the last counts. |
| `OpfsDisk.RewriteSurvivors` | src/backend/opfs.rs:235-253 | A crash inside a slot rewrite leaves the old bytes, the new bytes or their overlap; before the first call the old, after the flush the new. |
| `OpfsDisk.DirRoundTrip` | src/backend/opfs.rs:188-221 | Any directory that has an encoding decodes to itself. |
| `OpfsDisk.DecodeDirIff` | src/backend/opfs.rs:198-221 | Bytes decode to a directory exactly when they are empty and it is, or when they are the length, a payload below 2^32 bytes that reads as the directory, and the payload's checksum. |
| `OpfsDisk.TornIsDetected` | src/backend/opfs.rs:198-210 | A shorter encoding with old bytes behind it is refused. |
| `OpfsDisk.DecodedIsEncodable` | src/backend/opfs.rs:188-221 | A directory read from any bytes can be written back: its encoding is no longer than what it was read from. |
| `OpfsPool.FreeSlotIff` | src/backend/opfs.rs:168-183 | With one slot per key a put finds a slot exactly when fewer keys are stored than there are body slots, for pools whose size survives the cast to 32 bits; a size of 0 or 1 after the cast finds none. |
| `OpfsPool.KeysAreFlat` | src/backend/mod.rs:237-245 | A key is accepted exactly when it is not empty, holds neither slash nor backslash and is not two dots. |
| `OpfsPool.EmptySlotIsAdopted` | src/backend/opfs.rs:66-85 | Handles whose slot 0 is empty are always adopted, with no contents. |
| `OpfsPool.PutServed` | src/backend/opfs.rs:117-131 | A successful put leaves the body in the first free slot and the new directory in slot 0, everything else untouched. |
| `OpfsPool.DeleteServed` | src/backend/opfs.rs:133-140 | A successful delete of a stored key rewrites the directory and nothing else. |
| `OpfsPool.ServeRefines` | src/backend/opfs.rs:95-140 | A successful put, delete or grow acts on the contents as on a plain map, commits, and keeps one slot per key. |
| `OpfsPool.RunRefines` | src/backend/opfs.rs:95-140 | So does any run of successful requests; no key ever maps to slot 0. |
| `OpfsPool.NewPoolRefines` | src/backend/opfs.rs:66-140 | Every run of successful requests on such a new pool acts as on an empty map. |
| `OpfsCrash.DirectoryCrash` | src/backend/opfs.rs:66-85 | Adoption after a crash in a directory rewrite finds the old directory, the new one, or refuses a shortened one. |
| `OpfsCrash.CrashSafe` | src/backend/opfs.rs:117-140 | A crash after any number of a request's handle calls leaves its contents before, its contents after, or a refused directory; after the last call, the contents after. |
| `OpfsCrash.RunCrashSafe` | src/backend/opfs.rs:117-140 | The same for the last request of any run: nothing of the requests before it is lost. |
| `OpfsCrash.PutNeverRefused` | src/backend/opfs.rs:117-131 | A put never shortens the directory, so a crash inside one is never refused. |
| `OpfsCrash.RefusedIffShorter` | src/backend/opfs.rs:117-140 | Some crash during a committing request is refused exactly when the request encodes a directory shorter than what slot 0 holds. |
| `OpfsCrash.DeleteCanBeRefused` | src/backend/opfs.rs:133-140 | A delete always shortens it: after its first handle call a crash can leave a pool that adoption refuses. |
| `OpfsCrash.CanonicalKept` | src/backend/opfs.rs:188-196 | Success leaves slot 0 holding this code's own encoding, from which puts never shorten the directory and deletes always do. |
| `OpfsCrash.PutCommitsIff` | src/backend/opfs.rs:117-131 | A put that finds a slot leaves disk and memory agreeing exactly when 8 bytes plus 12 and its length for each key, the new one included, stay below 2^32. |
| `OpfsCrash.StoredKeysCommit` | src/backend/opfs.rs:117-140 | From a committed pool every delete of a stored key succeeds, and every put of one that finds a slot. |
| `OpfsCrash.SmallPutsCommit` | src/backend/opfs.rs:117-131 | With a directory below 2^31 bytes, as on the 32-bit target, every put that finds a slot commits. |
| `OpfsRefused.UnwrittenIsServed` | src/backend/opfs.rs:117-140 | A put or delete whose directory write is refused acts on memory as if it had succeeded, while adopting the disk gives the contents from before. |
| `OpfsRefused.NextWriteHeals` | src/backend/opfs.rs:117-140 | The next request that writes the directory commits memory's contents, the failed request included. |
| `OpfsRefused.FreshSlotIsSafe` | src/backend/opfs.rs:117-131 | Before that, a crash inside a put that takes no slot the disk names finds what the disk had, all that memory has, or a refused shortened directory. |
| `OpfsRefused.NextBodyOverwritesIff` | src/backend/opfs.rs:117-131 | A crash with the next put's body flushed and its directory unwritten loses stored bytes exactly when the put was given the slot the failed request took from its key, and brings other bytes. |
| `OpfsRefused.LossIsPossible` | src/backend/opfs.rs:168-183 | A pool of one key and three slots where the next put is given that slot, after a refused put and after a refused delete alike. |
| `OpfsStore.OpfsFs.AdoptHandles` | src/backend/opfs.rs:66-85 | Adopts, whatever its size, exactly the pools whose slot 0 decodes to a directory naming only body slots, with the contents found there; a pool with an empty slot 0 always, with no contents. |
| `OpfsStore.OpfsFs.WriteFlushed` | src/backend/opfs.rs:235-244 | Write, cut to length, flush, in that order. |
| `OpfsStore.OpfsFs.AllocateSlot` | src/backend/opfs.rs:168-183 | The lowest body slot the directory does not name, or none. |
| `OpfsStore.OpfsFs.WriteMap` | src/backend/opfs.rs:250-253 | Rewrites slot 0 with the encoded directory, or changes nothing when it has no encoding or the handle refuses the write. |
| `OpfsStore.OpfsFs.PutBytes` | src/backend/opfs.rs:117-131 | The reply, the new state and the exact handle calls of a put, body first; on success the contents gain the key; when the directory write is refused memory has changed and slot 0 has not. |
| `OpfsStore.OpfsFs.DeleteKey` | src/backend/opfs.rs:133-140 | The reply, the new state and the handle calls of a delete; on success the contents lose the key; when the directory write is refused memory has changed and slot 0 has not. |
| `OpfsStore.OpfsFs.GetBytes` | src/backend/opfs.rs:108-115 | The stored bytes, absence, or a refused key. |
| `OpfsStore.OpfsFs.ListKeys` | src/backend/opfs.rs:142-147 | Exactly the stored keys, each once, ascending. |
| `OpfsStore.OpfsFs.GrowPool` | src/backend/opfs.rs:95-98 | Adds any number of slots and leaves the contents alone. |
| `IndexCache.BuildFrame` | src/index_cache.rs:30-74 | What it appends is opened by its own key, giving payload and watermark, and by no other; it refuses exactly the keys of 65536 bytes or more. |
| `IndexCache.FrameLayout` | src/index_cache.rs:30-74 | A frame byte by byte: magic, version, watermark, key length, key, payload and the payload's checksum at fixed places. |
| `IndexCache.FrameBinds` | src/index_cache.rs:30-74 | A frame is opened by the key it was made for, giving payload and watermark, and by no other. |
| `IndexCache.OnlyFramesOpen` | src/index_cache.rs:49-74 | Bytes are opened by a key exactly when they are the frame of that key, payload and watermark. |
| `AnnPersist.ValidityKeysAgree` | src/ann/persist.rs:42-58 | Two configurations share a key exactly when kind, metric, quantization and seed agree and the sizes agree in their low 32 bits. |
| `AnnPersist.ValidityKeyLayout` | src/ann/persist.rs:42-58 | The 27 bytes of a key: kind, metric and quantization codes, four sizes cut to 32 bits, the seed. |
| `AnnPersist.SegmentKeysAgree` | src/ann/persist.rs:112-127 | Two segments share a key exactly when name, row range, metric and seed agree, and dimension and list count agree in their low 32 bits. |
| `AnnPersist.SegmentKeyLayout` | src/ann/persist.rs:112-127 | A segment key byte by byte: metric, dimension, list count, seed, base, rows, name. |
| `AnnPersist.SnapshotRoundTrip` | src/ann/mod.rs:23-52 | A snapshot within machine widths reads back unchanged. |
| `AnnPersist.GraphLayout` | src/ann/mod.rs:23-52 | Where a stored graph has its tag, row count, first row, node count, entry and top level. |
| `AnnPersist.ListsLayout` | src/ann/mod.rs:23-52 | Where stored lists have their tag, coordinate count, first coordinate, list count and first list's length. |
| `AnnPersist.LoadAfterSave` | src/index_cache.rs:79-102 | A saved object loads under its own key, not under another, and no other object is disturbed. |
| `AnnPersist.SegmentBinding` | src/ann/persist.rs:131-168 | A segment's sidecar loads exactly for its own name, row range, metric, seed and sizes, and a payload that is not inverted lists never does. |
| `AnnPersist.LoadIndex` | src/ann/persist.rs:79-90 | Loads the stored graph or inverted lists from the object `ann` as decoded, with the configuration's own parameters, valid exactly when what was stored is navigable, or filed under its centroids; absent or stale objects load nothing. |
| `AnnPersist.SaveAndReload` | src/ann/persist.rs:63-90 | A saved graph comes back with the same rows, links, entry and levels under every configuration sharing its key, whatever the query tunables. |
| `AnnPersist.SaveAndReloadLists` | src/ann/persist.rs:63-90 | Saved inverted lists come back with the same centroids and lists under every configuration sharing the key, whatever the query tunables. |
| `Ivf.IvfIndex.FromParts` | src/ann/ivf.rs:44-55 | Adopts decoded state unchanged; the index is valid exactly when that state is filed under its centroids. |
| `ChunkIds.ChunkIdInjective` | src/memory.rs:557 | The id form determines parent and index although a parent may contain `#`. |
| `ChunkIds.ChunkIdForm` | src/memory.rs:557 | An id is the parent, byte 35 and the index in decimal, digit by digit. |
| `Remember.StripReserved` | src/memory.rs:305-324 | Removes exactly the listed names. |
| `Remember.StampRecency` | src/memory.rs:329-346 | Changes only the two stamps, and the expiry when there is a TTL: created is the prior's or now, updated is now, expiry saturates. |
| `Remember.PrepareRemember` | src/memory.rs:817-897 | The record's id and attributes for every combination of provenance, dedupe match and TTL; refuses a threshold without a vector. |
| `Remember.PreparedStores` | src/memory.rs:817-897 | What is stored, without the preparing functions: the write's text, its own attributes with its own values, the stamps, and on a dedupe match whatever else the matched record had; otherwise nothing more. |
| `Remember.PrepareChunks` | src/memory.rs:739-762 | Every chunk is prepared against the store as it was before the document. |
| `RememberRuns.CallerCannotForge` | src/memory.rs:301-324 | Nothing a caller puts under a reserved name reaches the store. |
| `RememberRuns.DocumentReplaced` | src/memory.rs:570-591 | After a non-empty ingest the records carrying the parent are exactly the chunks just written. |
| `RememberRuns.ChunkHoldsNewText` | src/memory.rs:731-773 | Chunk `i` holds the new text under index `i`; its birth date survives from the record it replaced. |
| `RememberRuns.OthersUntouched` | src/memory.rs:570-591 | Records of other parents, and records without provenance whose ids were not written, are untouched. |
| `RememberRuns.ForeignUntouched` | src/memory.rs:557-591 | A record that names another parent is untouched: its id cannot be one of the document's. |
| `RememberRuns.RunsLeaveOthers` | src/memory.rs:480-598 | So at every ingest of every run, together with records without provenance whose ids were not written. |
| `RememberRuns.PrunedWereStale` | src/memory.rs:578-588 | The prune removes exactly what was stale before the write, none of what was just written. |
| `RememberRuns.RunsKeepTraces` | src/memory.rs:817-897 | Over any run a record that names a parent and an index has the id made of the two. |
| `RememberRuns.RunsReplaceDocuments` | src/memory.rs:480-598 | Document replacement holds at every ingest of every run from an empty store. |
| `RememberRuns.VisibleIff` | src/memory.rs:326-356 | A write is visible as it is stamped exactly when its TTL is positive and does not saturate onto now, and an inherited expiry has not passed since the search. |
| `MemoryStore.Memory.RememberOne` | src/memory.rs:775-796 | One write replaces exactly the target record, which then holds the write's text and attributes, the stamps and, on a dedupe match, what the matched record had besides; a refused one changes nothing. |
| `MemoryStore.Memory.PruneTail` | src/memory.rs:578-588 | Removes and counts exactly the parent's records at index `n` and above. |
| `MemoryStore.Memory.CommitDocument` | src/memory.rs:570-591 | Upserts all chunks, then prunes the stale tail; returns the ids in order and the number of records that were stale. |
| `MemoryStore.Memory.RememberChunked` | src/memory.rs:480-598 | Refuses summarizing, dedupe, bad chunking and a vector count mismatch without effect, leaves the store alone for empty text, otherwise ingests the document; returns the ids in order and the number of stale records, none for empty text. |
| `MemoryStore.Memory.RememberChunkedTextOnly` | src/memory.rs:603-687 | The same without vectors, ids and pruned count included. |
| `Cas.StepKeepsInv` | src/backend/gcs.rs:195-226 | Every event keeps the version chain: generations rise, each version replaced the one before it or followed a delete, and each landed request made one version. |
| `Cas.RunsKeepInv` | src/backend/cloud.rs:27-40 | So does every run of any number of clients with late, lost and replayed requests. |
| `CasResults.TokenNamesGeneration` | src/backend/gcs.rs:201-204 | The text of a generation asks for that generation. |
| `CasResults.TokenWriteLandsOnce` | src/backend/cloud.rs:27-40 | A write naming a token takes effect at most once, however often it was sent. |
| `CasResults.OneWriterPerToken` | src/backend/gcs.rs:198-226 | Of all writes by any clients naming one token at most one takes effect. |
| `CasResults.WrittenReplacedExpected` | src/backend/gcs.rs:195-226 | `Written` means the bytes replaced exactly the expected version with nothing stored in between. |
| `CasResults.OneExclusiveCreate` | src/backend/mod.rs:80-86 | Among racing exclusive creates with no delete at most one returns true. |
| `CasResults.AnswerTellsArrival` | src/backend/gcs.rs:195-226 | An answer is true exactly when the last request sent found the generation it wanted as it arrived, and false otherwise. |
| `CasResults.BadTokenNeverLands` | src/backend/gcs.rs:198-204 | A write whose token asks for a negative generation, as an unreadable one does, never takes effect. |
| `CasResults.ReplayedIffDropped` | src/backend/cloud.rs:13-40 | Over any run a request is sent twice exactly when an answer to it was lost to one of the five faults of a dropped connection, and never a third time. |
| `CasResults.TwoCreatesNeedADelete` | src/backend/mod.rs:77-86 | Two creates that took effect have a delete between their versions. |
| `CasResults.StaleMeans` | src/backend/cloud.rs:27-29 | `Stale` means no effect unless the write was replayed, and then only its first request can have landed. |
| `CasResults.StaleThoughLanded` | src/backend/cloud.rs:30-40 | A run in which a create answers `Stale` although its own lost request made the object. |
| `CasResults.CreateLandsTwice` | src/backend/cloud.rs:27-40 | A run in which one create, with a delete between its two requests, takes effect twice. |
| `Fusion.Accumulate` | src/fuse.rs:38-51 | The map holds, for exactly the documents read, the summed score, the first leg's attributes and each leg's last rank and score. |
| `Fusion.RankContribution` | src/fuse.rs:47-48 | In a leg without repeats, rank `r` is worth `weight / (k + r + 1)`; where that divides by zero, an infinity of the weight's sign, or no number for no weight. It is the leg's detail. |
| `Fusion.OneMoreLeg` | src/fuse.rs:38-51 | One more leg adds `weight / (k + r + 1)` to the score of its rank `r`, and describes it only if no earlier leg listed it. |
| `Fusion.FusedOrder` | src/fuse.rs:59-65 | Higher scores come first; equal ones go by collection, then by id. |
| `Fusion.AbsentAddsNothing` | src/fuse.rs:43-51 | A leg that does not hold a document adds nothing to it. |
| `Fusion.ScoresDefined` | src/fuse.rs:47 | Under that condition every score is a number or plus infinity, and a number when no rank divides by zero. |
| `Fusion.FusionUnique` | src/fuse.rs:53-65 | Any two fusions have the same entries; when weights are positive or no rank divides by zero they are the same list, so no hash-map iteration order can show through. |
| `Fusion.FusionRespectsLegs` | src/fuse.rs:35-65 | With weights not negative and `rrf_k` above -1, a document no leg ranks below another is not fused below it. |
| `Fusion.RespectIff` | src/fuse.rs:35-65 | That holds of every set of legs exactly when `rrf_k` is above -1: below it the first document of a long enough leg loses to the last, and at it the first document of a leg without weight has no score. |
| `Fusion.RrfFuse` | src/fuse.rs:38-66 | For every `rrf_k`: every document of the union once, with its score, detail and attributes; by score, then collection, then id when every score is defined. |
| `Tune.RecallAtK` | src/tune.rs:17-29 | Mean over queries of shared entries over the truth's length, 1 when there are no queries. |
| `Tune.OneRecallIsShare` | src/tune.rs:21-26 | One query's recall times the size of its truth is the number of entries shared; zero for an empty truth. |
| `Tune.RecallAverages` | src/tune.rs:17-29 | Every query weighs the same in the mean. |
| `Tune.HitsBounded` | src/tune.rs:24-26 | A list without repeats hits at most the truth's length, and all of it exactly when it contains it. |
| `Tune.RecallMeaning` | src/tune.rs:14-29 | Recall lies in [0,1] and is 1 exactly when every averaged query returned all of a non-empty truth. |
| `Tune.StrippedTopK` | src/tune.rs:145-156 | Dropping the self hit from a top-(k+1) gives the top-k of the ranking without that record. |
| `Tune.StartIgnoresStoreOrder` | src/tune.rs:106-128 | The sample starts from one list whatever order the store yields its records in. |
| `Tune.SampleQueries` | src/tune.rs:109-140 | Exactly `min(sample, n)` records, none more often than stored, determined by the sorted records and the seed. |

## Left out

- Floating point: vectors, scores, weights and gains are exact reals, so rounding, NaN and infinities are
  not modelled, fusion's division by zero apart, and nothing is claimed bit for bit. The SIMD and quantized kernels are the score function.
- Machine widths of node ids and rows: ids are unbounded, so the casts of row counts to 32 bits are not
  modelled. Cache keys, directory slots, TTLs and parsed integers do model their widths.
- Reachability of the whole HNSW graph: pruning can drop the last link to a node, so exactness is stated
  relative to what the descent's end reaches.
- The closure certificate of the parallel beam search: adjacency changes under it, so what is stated for
  `search_layer_locked` is structural safety and that its beam holds the nearest of what it scored.
- `HnswIndex.HnswGraph.BuildSerial`: the branch of `build` that spawns workers is modelled on its own in
  `HnswParallel`.
- `HnswIndex.InsertBelow`: appends the row and its empty lists after the descent, where the source appends
  them first; the descent cannot see an unlinked node either way.
- HNSW level draws come in as numbers; the logarithm that shapes their distribution is not modelled.
- `Ivf.IvfIndex.Build`: centroids are a sequence of vectors, not one flat buffer, and unit rescaling for
  cosine is an arbitrary length-preserving function; descent of the cost is claimed for the Euclidean metric.
- Ndcg: the discount is any positive increasing function of the rank; that the binary logarithm is one is
  not proved.
- Failures of the OPFS handles other than a directory write refused whole, writes torn inside one call, and
  reordering of unflushed calls within one slot: a crash keeps what was flushed and, per slot, the first few
  calls since.
- Checksums are an arbitrary function of the payload to 32 bits, so detection of bit rot is not claimed; what
  is refused is refused for its length or its key.
- Text is bytes: that stored keys are UTF-8 is not checked when a directory is decoded.
- The dedupe search is its result: nothing, or an unexpired entry with a vector. Scores and the threshold
  are not computed, and neither are chunking, titles, embedding or full-text indexing.
- `MemoryStore.Memory.RememberOne`: creation of the collection, its embedder pin and dimension checks are
  one yes-or-no input; aliases, durability barriers and rollback of a failing upsert are left out.
- Recall with reinforcement, forgetting and summarizing.
- Requests to the object store are one object's conditional writes, plain writes and deletes; credentials,
  TLS, listing and S3's token form are left out. A plain write may be replayed and is not protected.
- `Fusion.RrfFuse`: says nothing of the order when a score is undefined, from a weight of zero or opposite
  infinities at a division by zero, where the source's comparison is not an order.
- `AnnPersist.SaveAndReloadLists`: which numbers 32-bit floats hold exactly is a parameter; the centroids are
  taken to be such numbers.
- Percentiles, cell selection and reporting of the tuning sweep.
- Store, log, segments, SQL, CLI, server, SDKs, metrics, providers and the browser binding.
