/** The OPFS handle pool as a copy-on-write object store: bodies go to free slots, and rewriting the
    directory in slot 0 is the commit point. */
module OpfsPool {
  import opened Counting
  import opened Options
  import opened Lex
  import opened Bincode
  import opened OpfsDisk

  const SLASH: Byte := 47
  const BACKSLASH: Byte := 92
  const DOT: Byte := 46

  predicate ValidKey(key: Text) {
    key != [] && SLASH !in key && BACKSLASH !in key && key != [DOT, DOT]
  }

  /** Keys are flat names: not empty, without slash or backslash, and not the parent directory. */
  lemma KeysAreFlat(key: Text)
    ensures ValidKey(key) <==> |key| > 0 && (forall i :: 0 <= i < |key| ==> key[i] != 47 && key[i] != 92) && key != [46, 46]
  {
  }

  datatype Request = Put(key: Text, body: Text) | Delete(key: Text) | Grow(handles: seq<Text>)

  /** `WriteRefused` is the handle's own refusal to write the directory. */
  datatype Reply = Done | BadKey | Exhausted | DirectoryTooLarge | WriteRefused

  datatype Pool = Pool(disk: seq<Slot>, dir: map<Text, nat>)

  /** The handle calls a request makes, the directory it leaves in memory, and its reply. */
  datatype Plan = Plan(steps: seq<Step>, dir: map<Text, nat>, reply: Reply)

  predicate InRange(dir: map<Text, nat>, slots: nat) {
    forall k :: k in dir ==> 1 <= dir[k] < slots
  }

  predicate Injective(dir: map<Text, nat>) {
    forall j, k :: j in dir && k in dir && dir[j] == dir[k] ==> j == k
  }

  function Contents(dir: map<Text, nat>, bytes: seq<Text>): map<Text, Text>
    requires InRange(dir, |bytes|)
  {
    map k | k in dir :: bytes[dir[k]]
  }

  function Lives(disk: seq<Slot>): seq<Text> {
    seq(|disk|, i requires 0 <= i < |disk| => disk[i].Live())
  }

  /** Slots the pool can name in 32 bits, all of them flushed. */
  ghost predicate Intact(p: Pool) {
    1 <= |p.disk| && InRange(p.dir, |p.disk|) && SlotsFit(p.dir) && Quiet(p.disk)
  }

  /** The directory on disk is the one in memory. */
  ghost predicate Committed(crc: Text -> Crc, p: Pool) {
    Intact(p) && DecodeDir(crc, p.disk[0].durable) == Some(p.dir)
  }

  /** What adopting a set of handles makes of their bytes; `None` is a refused pool. */
  function Adopt(crc: Text -> Crc, bytes: seq<Text>): Option<map<Text, nat>> {
    if bytes == [] then None
    else match DecodeDir(crc, bytes[0])
      case None => None
      case Some(dir) => if InRange(dir, |bytes|) then Some(dir) else None
  }

  // ---------- Slot allocation ----------

  function FirstFree(used: set<nat>, start: nat, end: nat): (s: Option<nat>)
    ensures s.Some? ==> start <= s.value < end && s.value !in used
    ensures s.Some? ==> forall t :: start <= t < s.value ==> t in used
    ensures s.None? ==> forall t :: start <= t < end ==> t in used
    decreases end - start
  {
    if start >= end then None
    else if start !in used then Some(start)
    else FirstFree(used, start + 1, end)
  }

  /** The slot a put takes. The pool's size is cast to 32 bits before the search. */
  function FreeSlot(p: Pool): (s: Option<nat>)
    ensures s.Some? ==> 1 <= s.value < |p.disk| && s.value < U32 && s.value !in p.dir.Values
  {
    FirstFree(p.dir.Values, 1, |p.disk| % U32)
  }

  function Body(slots: nat): (s: set<nat>)
    ensures forall t :: t in s <==> 1 <= t < slots
    ensures slots >= 1 ==> |s| == slots - 1
  {
    if slots <= 1 then {} else Body(slots - 1) + {slots - 1}
  }

  lemma {:induction false} ValueCount(dir: map<Text, nat>)
    requires Injective(dir)
    ensures |dir.Values| == |dir|
    decreases |dir|
  {
    if dir != map[] {
      var k :| k in dir;
      WithoutKey(dir, k);
      ValueCount(dir - {k});
      ValuesWithout(dir, k);
    }
  }

  lemma ValuesWithout(dir: map<Text, nat>, k: Text)
    requires Injective(dir) && k in dir
    ensures dir.Values == (dir - {k}).Values + {dir[k]} && dir[k] !in (dir - {k}).Values
  {
    forall v | v in dir.Values
      ensures v in (dir - {k}).Values + {dir[k]}
    {
      var j :| j in dir && dir[j] == v;
      if j != k {
        assert j in dir - {k} && (dir - {k})[j] == v;
      }
    }
  }

  lemma FreeBelowIff(dir: map<Text, nat>, slots: nat)
    requires slots >= 1 && InRange(dir, slots) && Injective(dir)
    ensures FirstFree(dir.Values, 1, slots).Some? <==> |dir| < slots - 1
  {
    ValueCount(dir);
    assert dir.Values <= Body(slots);
    SubsetCount(dir.Values, Body(slots));
    var s := FirstFree(dir.Values, 1, slots);
    assert s.Some? ==> s.value in Body(slots) && s.value !in dir.Values;
    assert s.None? ==> Body(slots) <= dir.Values;
    assert s.None? <==> dir.Values == Body(slots);
  }

  /** With one slot per key a put finds a slot exactly when fewer keys are stored than there are body
      slots, as long as the pool's size survives the cast; a pool of 2^32 slots finds none. */
  lemma FreeSlotIff(p: Pool)
    requires Intact(p) && Injective(p.dir)
    ensures |p.disk| < U32 ==> (FreeSlot(p).Some? <==> |p.dir| < |p.disk| - 1)
    ensures |p.disk| % U32 <= 1 ==> FreeSlot(p).None?
  {
    if |p.disk| < U32 {
      FreeBelowIff(p.dir, |p.disk|);
    }
  }

  // ---------- Requests ----------

  function CommitPlan(crc: Text -> Crc, body: seq<Step>, dir: map<Text, nat>): Plan {
    match EncodeDir(crc, dir)
    case None => Plan(body, dir, DirectoryTooLarge)
    case Some(e) => Plan(body + Rewrite(0, e), dir, Done)
  }

  function PlanFor(crc: Text -> Crc, p: Pool, req: Request): Plan {
    match req
    case Put(key, body) =>
      if !ValidKey(key) then Plan([], p.dir, BadKey)
      else (
        match FreeSlot(p)
        case None => Plan([], p.dir, Exhausted)
        case Some(s) => CommitPlan(crc, Rewrite(s, body), p.dir[key := s])
      )
    case Delete(key) =>
      if !ValidKey(key) then Plan([], p.dir, BadKey)
      else if key !in p.dir then Plan([], p.dir, Done)
      else CommitPlan(crc, [], p.dir - {key})
    case Grow(_) => Plan([], p.dir, Done)
  }

  /** Handles opened elsewhere join the pool with whatever bytes they already hold. */
  function Fresh(handles: seq<Text>): seq<Slot> {
    seq(|handles|, i requires 0 <= i < |handles| => Slot(handles[i], []))
  }

  function Serve(crc: Text -> Crc, p: Pool, req: Request): Pool {
    var plan := PlanFor(crc, p, req);
    Pool(AfterAll(p.disk, plan.steps) + (if req.Grow? then Fresh(req.handles) else []), plan.dir)
  }

  /** A request that goes as far as writing the directory. */
  predicate WritesDirectory(p: Pool, req: Request) {
    match req
    case Put(key, _) => ValidKey(key) && FreeSlot(p).Some?
    case Delete(key) => ValidKey(key) && key in p.dir
    case Grow(_) => false
  }

  /** ... and what it leaves when the handle refuses that write: memory has already changed. */
  function Unwritten(p: Pool, req: Request): Pool
    requires WritesDirectory(p, req)
  {
    match req
    case Put(key, body) =>
      Pool(AfterAll(p.disk, Rewrite(FreeSlot(p).value, body)), p.dir[key := FreeSlot(p).value])
    case Delete(key) => p.(dir := p.dir - {key})
  }

  /** The plain key-to-bytes map the pool is meant to be. */
  function Meaning(m: map<Text, Text>, req: Request): map<Text, Text> {
    match req
    case Put(key, body) => m[key := body]
    case Delete(key) => m - {key}
    case Grow(_) => m
  }

  // ---------- What a request leaves ----------

  lemma BodyWritten(disk: seq<Slot>, s: nat, body: Text)
    requires Quiet(disk) && s < |disk|
    ensures AfterAll(disk, Rewrite(s, body)) == disk[s := Slot(body, [])]
    ensures Quiet(disk[s := Slot(body, [])])
  {
    RewriteSteps(disk, s, body, 3);
    assert Rewrite(s, body)[..3] == Rewrite(s, body);
  }

  lemma PutDisk(disk: seq<Slot>, s: nat, body: Text, e: Text)
    requires Quiet(disk) && 0 < s < |disk|
    ensures AfterAll(disk, Rewrite(s, body) + Rewrite(0, e)) == disk[s := Slot(body, [])][0 := Slot(e, [])]
  {
    AfterConcat(disk, Rewrite(s, body), Rewrite(0, e));
    BodyWritten(disk, s, body);
    BodyWritten(disk[s := Slot(body, [])], 0, e);
  }

  lemma QuietLives(disk: seq<Slot>)
    requires Quiet(disk)
    ensures forall i :: 0 <= i < |disk| ==> Lives(disk)[i] == disk[i].durable
  {
  }

  lemma PutContents(p: Pool, s: nat, key: Text, body: Text, e: Text)
    requires Intact(p) && 0 < s < |p.disk| && s < U32 && s !in p.dir.Values
    ensures var q := Pool(p.disk[s := Slot(body, [])][0 := Slot(e, [])], p.dir[key := s]);
            Intact(q) && Contents(q.dir, Lives(q.disk)) == Contents(p.dir, Lives(p.disk))[key := body]
  {
    var q := Pool(p.disk[s := Slot(body, [])][0 := Slot(e, [])], p.dir[key := s]);
    QuietLives(p.disk);
    QuietLives(q.disk);
    forall k | k in p.dir && k != key
      ensures Lives(q.disk)[q.dir[k]] == Lives(p.disk)[p.dir[k]]
    {
      assert p.dir[k] in p.dir.Values;
    }
  }

  lemma RewrittenContents(p: Pool, dir: map<Text, nat>, e: Text)
    requires Intact(p) && InRange(dir, |p.disk|) && SlotsFit(dir)
    ensures var q := Pool(p.disk[0 := Slot(e, [])], dir);
            Intact(q) && Contents(q.dir, Lives(q.disk)) == Contents(dir, Lives(p.disk))
  {
    var q := Pool(p.disk[0 := Slot(e, [])], dir);
    QuietLives(p.disk);
    QuietLives(q.disk);
  }

  lemma GrowContents(p: Pool, handles: seq<Text>)
    requires Intact(p)
    ensures var q := Pool(p.disk + Fresh(handles), p.dir);
            Intact(q) && q.disk[0] == p.disk[0] && Contents(q.dir, Lives(q.disk)) == Contents(p.dir, Lives(p.disk))
  {
    var q := Pool(p.disk + Fresh(handles), p.dir);
    QuietLives(p.disk);
    QuietLives(q.disk);
  }

  lemma InjectiveAdds(dir: map<Text, nat>, key: Text, s: nat)
    requires Injective(dir) && s !in dir.Values
    ensures Injective(dir[key := s])
  {
    forall k | k in dir
      ensures dir[k] != s
    {
      assert dir[k] in dir.Values;
    }
  }

  /** What success promises: the new state is committed, keeps one slot per key, and differs from
      the old as a plain map would. */
  ghost predicate Refines(crc: Text -> Crc, p: Pool, req: Request, q: Pool) {
    && Intact(p) && Committed(crc, q)
    && (Injective(p.dir) ==> Injective(q.dir))
    && Contents(q.dir, Lives(q.disk)) == Meaning(Contents(p.dir, Lives(p.disk)), req)
  }

  /** A successful put leaves the body in the first free slot and the directory that names it. */
  lemma PutServed(crc: Text -> Crc, p: Pool, key: Text, body: Text)
    requires Intact(p) && PlanFor(crc, p, Put(key, body)).reply == Done
    ensures var s, q := FreeSlot(p), Serve(crc, p, Put(key, body));
            && s.Some? && q.dir == p.dir[key := s.value] && EncodeDir(crc, q.dir).Some?
            && q.disk == p.disk[s.value := Slot(body, [])][0 := Slot(EncodeDir(crc, q.dir).value, [])]
  {
    var s := FreeSlot(p).value;
    var e := EncodeDir(crc, p.dir[key := s]).value;
    PutDisk(p.disk, s, body, e);
    var disk := p.disk[s := Slot(body, [])][0 := Slot(e, [])];
    assert disk + [] == disk;
  }

  lemma PutRefines(crc: Text -> Crc, p: Pool, key: Text, body: Text)
    requires Intact(p) && PlanFor(crc, p, Put(key, body)).reply == Done
    ensures Refines(crc, p, Put(key, body), Serve(crc, p, Put(key, body)))
  {
    PutServed(crc, p, key, body);
    var s := FreeSlot(p).value;
    var dir := p.dir[key := s];
    PutContents(p, s, key, body, EncodeDir(crc, dir).value);
    DirRoundTrip(crc, dir);
    if Injective(p.dir) {
      InjectiveAdds(p.dir, key, s);
    }
  }

  lemma ContentsWithout(dir: map<Text, nat>, key: Text, bytes: seq<Text>)
    requires InRange(dir, |bytes|)
    ensures InRange(dir - {key}, |bytes|)
    ensures Contents(dir - {key}, bytes) == Contents(dir, bytes) - {key}
    ensures Injective(dir) ==> Injective(dir - {key})
  {
  }

  lemma DeleteSteps(crc: Text -> Crc, p: Pool, key: Text)
    requires ValidKey(key) && key in p.dir && EncodeDir(crc, p.dir - {key}).Some?
    ensures PlanFor(crc, p, Delete(key)).steps == Rewrite(0, EncodeDir(crc, p.dir - {key}).value)
  {
    var e := EncodeDir(crc, p.dir - {key}).value;
    assert [] + Rewrite(0, e) == Rewrite(0, e);
  }

  /** A successful delete of a stored key rewrites the directory and nothing else. */
  lemma DeleteServed(crc: Text -> Crc, p: Pool, key: Text)
    requires Intact(p) && key in p.dir && PlanFor(crc, p, Delete(key)).reply == Done
    ensures var q := Serve(crc, p, Delete(key));
            && q.dir == p.dir - {key} && EncodeDir(crc, q.dir).Some?
            && q.disk == p.disk[0 := Slot(EncodeDir(crc, q.dir).value, [])]
  {
    var e := EncodeDir(crc, p.dir - {key}).value;
    DeleteSteps(crc, p, key);
    BodyWritten(p.disk, 0, e);
    var disk := p.disk[0 := Slot(e, [])];
    assert disk + [] == disk;
  }

  lemma AbsentContents(dir: map<Text, nat>, key: Text, bytes: seq<Text>)
    requires InRange(dir, |bytes|) && key !in dir
    ensures Contents(dir, bytes) - {key} == Contents(dir, bytes)
  {
  }

  lemma NothingServed(crc: Text -> Crc, p: Pool, key: Text)
    requires ValidKey(key) && key !in p.dir
    ensures Serve(crc, p, Delete(key)) == p
  {
    assert AfterAll(p.disk, []) + [] == p.disk;
  }

  lemma DeleteRefines(crc: Text -> Crc, p: Pool, key: Text)
    requires Committed(crc, p) && PlanFor(crc, p, Delete(key)).reply == Done
    ensures Refines(crc, p, Delete(key), Serve(crc, p, Delete(key)))
  {
    if key in p.dir {
      var dir := p.dir - {key};
      DeleteServed(crc, p, key);
      ContentsWithout(p.dir, key, Lives(p.disk));
      RewrittenContents(p, dir, EncodeDir(crc, dir).value);
      DirRoundTrip(crc, dir);
    } else {
      AbsentContents(p.dir, key, Lives(p.disk));
      NothingServed(crc, p, key);
    }
  }

  lemma GrowRefines(crc: Text -> Crc, p: Pool, handles: seq<Text>)
    requires Committed(crc, p)
    ensures Refines(crc, p, Grow(handles), Serve(crc, p, Grow(handles)))
  {
    GrowContents(p, handles);
    assert Serve(crc, p, Grow(handles)) == Pool(p.disk + Fresh(handles), p.dir);
  }

  /** A request that succeeds commits, and acts on the contents as on a plain map. */
  lemma ServeRefines(crc: Text -> Crc, p: Pool, req: Request)
    requires Committed(crc, p) && PlanFor(crc, p, req).reply == Done
    ensures Refines(crc, p, req, Serve(crc, p, req))
  {
    match req
    case Put(key, body) => PutRefines(crc, p, key, body);
    case Delete(key) => DeleteRefines(crc, p, key);
    case Grow(handles) => GrowRefines(crc, p, handles);
  }

  // ---------- Whole runs ----------

  function ServeAll(crc: Text -> Crc, p: Pool, reqs: seq<Request>): Pool
    decreases |reqs|
  {
    if reqs == [] then p else ServeAll(crc, Serve(crc, p, reqs[0]), reqs[1..])
  }

  function MeaningAll(m: map<Text, Text>, reqs: seq<Request>): map<Text, Text>
    decreases |reqs|
  {
    if reqs == [] then m else MeaningAll(Meaning(m, reqs[0]), reqs[1..])
  }

  predicate AllDone(crc: Text -> Crc, p: Pool, reqs: seq<Request>)
    decreases |reqs|
  {
    reqs == [] || (
      && PlanFor(crc, p, reqs[0]).reply == Done
      && AllDone(crc, Serve(crc, p, reqs[0]), reqs[1..])
    )
  }

  /** Over any run of successful requests the pool behaves as the plain map, stays committed and
      keeps one slot per key, never slot 0. */
  lemma {:induction false} RunRefines(crc: Text -> Crc, p: Pool, reqs: seq<Request>)
    requires Committed(crc, p) && Injective(p.dir) && AllDone(crc, p, reqs)
    ensures Committed(crc, ServeAll(crc, p, reqs)) && Injective(ServeAll(crc, p, reqs).dir)
    ensures Contents(ServeAll(crc, p, reqs).dir, Lives(ServeAll(crc, p, reqs).disk))
         == MeaningAll(Contents(p.dir, Lives(p.disk)), reqs)
    decreases |reqs|
  {
    if reqs != [] {
      ServeRefines(crc, p, reqs[0]);
      RunRefines(crc, Serve(crc, p, reqs[0]), reqs[1..]);
    }
  }

  /** New handles, slot 0 still empty, make an empty pool, whatever the other slots hold. */
  lemma EmptySlotIsAdopted(crc: Text -> Crc, handles: seq<Text>)
    requires handles != [] && handles[0] == []
    ensures Adopt(crc, handles) == Some(map[]) && Contents(map[], handles) == map[]
    ensures Committed(crc, Pool(Fresh(handles), map[]))
  {
    DecodeDirIff(crc, [], map[]);
  }

  /** From there any run of successful requests leaves what a plain map would hold. */
  lemma NewPoolRefines(crc: Text -> Crc, handles: seq<Text>, reqs: seq<Request>)
    requires handles != [] && handles[0] == [] && AllDone(crc, Pool(Fresh(handles), map[]), reqs)
    ensures var q := ServeAll(crc, Pool(Fresh(handles), map[]), reqs);
      Committed(crc, q) && Injective(q.dir) && Contents(q.dir, Lives(q.disk)) == MeaningAll(map[], reqs)
  {
    EmptySlotIsAdopted(crc, handles);
    RunRefines(crc, Pool(Fresh(handles), map[]), reqs);
    assert Contents(map[], Lives(Fresh(handles))) == map[];
  }
}
