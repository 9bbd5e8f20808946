/** Crash safety of the OPFS pool: what adopting the handles finds after a crash between any two
    handle calls of a request. */
module OpfsCrash {
  import opened Options
  import opened Lex
  import opened Bincode
  import opened OpfsDisk
  import opened OpfsPool

  lemma UntouchedSurvive(disk: seq<Slot>, t: nat, b: Text, i: nat, bytes: seq<Text>)
    requires Quiet(disk) && t < |disk| && i <= 3 && Crash(Rewritten(disk, t, b, i), bytes)
    ensures forall j :: 0 <= j < |disk| && j != t ==> bytes[j] == disk[j].durable
  {
    forall j | 0 <= j < |disk| && j != t
      ensures bytes[j] == disk[j].durable
    {
      assert Rewritten(disk, t, b, i)[j] == disk[j];
      QuietSurvives(disk[j], bytes[j]);
    }
  }

  lemma SameContents(dir: map<Text, nat>, a: seq<Text>, b: seq<Text>)
    requires |a| == |b| && InRange(dir, |a|) && forall k :: k in dir ==> a[dir[k]] == b[dir[k]]
    ensures Contents(dir, a) == Contents(dir, b)
  {
  }

  /** Writing a body to a free slot cannot be seen after a crash. */
  lemma BodyCrash(crc: Text -> Crc, p: Pool, s: nat, body: Text, i: nat, bytes: seq<Text>)
    requires Committed(crc, p) && 0 < s < |p.disk| && s !in p.dir.Values && i <= 3
    requires Crash(Rewritten(p.disk, s, body, i), bytes)
    ensures Adopt(crc, bytes) == Some(p.dir)
    ensures Contents(p.dir, bytes) == Contents(p.dir, Lives(p.disk))
  {
    UntouchedSurvive(p.disk, s, body, i, bytes);
    QuietLives(p.disk);
    forall k | k in p.dir
      ensures bytes[p.dir[k]] == Lives(p.disk)[p.dir[k]]
    {
      assert p.dir[k] in p.dir.Values;
    }
    SameContents(p.dir, bytes, Lives(p.disk));
  }

  /** Of the bytes a crash can leave of a directory under rewrite, only the overlap is refused. */
  lemma DirectoryReads(crc: Text -> Crc, durable: Text, dir: map<Text, nat>, x: Text)
    requires SlotsFit(dir) && EncodeDir(crc, dir).Some?
    requires x == EncodeDir(crc, dir).value || x == Torn(durable, EncodeDir(crc, dir).value)
    ensures || DecodeDir(crc, x) == Some(dir)
            || (DecodeDir(crc, x) == None && |EncodeDir(crc, dir).value| < |durable|)
    ensures x == EncodeDir(crc, dir).value ==> DecodeDir(crc, x) == Some(dir)
  {
    DirRoundTrip(crc, dir);
    if |EncodeDir(crc, dir).value| < |durable| {
      TornIsDetected(crc, dir, durable);
    }
  }

  /** Rewriting the directory is atomic, or leaves an overlap that adoption refuses. */
  lemma DirectoryCrash(crc: Text -> Crc, disk: seq<Slot>, prior: map<Text, nat>, dir: map<Text, nat>,
                                          i: nat, bytes: seq<Text>)
    requires 1 <= |disk| && Quiet(disk) && i <= 3 && InRange(prior, |disk|) && InRange(dir, |disk|) && SlotsFit(dir)
    requires DecodeDir(crc, disk[0].durable) == Some(prior) && EncodeDir(crc, dir).Some?
    requires Crash(Rewritten(disk, 0, EncodeDir(crc, dir).value, i), bytes)
    ensures || Adopt(crc, bytes) == Some(prior)
            || Adopt(crc, bytes) == Some(dir)
            || (Adopt(crc, bytes) == None && |EncodeDir(crc, dir).value| < |disk[0].durable|)
    ensures i == 0 ==> Adopt(crc, bytes) == Some(prior)
    ensures i == 3 ==> Adopt(crc, bytes) == Some(dir)
  {
    hide DecodeDir, EncodeDir, SlotsFit, Torn;
    var e, x := EncodeDir(crc, dir).value, bytes[0];
    RewriteSurvivors(disk, 0, e, i, x);
    if x != disk[0].durable || i == 3 {
      DirectoryReads(crc, disk[0].durable, dir, x);
    }
  }

  /** The bodies are not part of a directory rewrite. */
  lemma BodiesKept(disk: seq<Slot>, e: Text, i: nat, bytes: seq<Text>, dir: map<Text, nat>)
    requires 1 <= |disk| && Quiet(disk) && i <= 3 && InRange(dir, |disk|)
    requires Crash(Rewritten(disk, 0, e, i), bytes)
    ensures Contents(dir, bytes) == Contents(dir, Lives(disk))
  {
    UntouchedSurvive(disk, 0, e, i, bytes);
    QuietLives(disk);
    SameContents(dir, bytes, Lives(disk));
  }

  lemma TakeFrom(a: seq<Step>, b: seq<Step>, i: nat)
    requires i <= |a| + |b|
    ensures (a + b)[..i] == if i <= |a| then a[..i] else a + b[..i - |a|]
  {
  }

  /** The disk after the first `i` calls of a put. */
  lemma {:induction false} PutPrefix(disk: seq<Slot>, s: nat, body: Text, e: Text, i: nat)
    requires Quiet(disk) && 0 < s < |disk| && i <= 6
    ensures AfterAll(disk, (Rewrite(s, body) + Rewrite(0, e))[..i])
         == if i <= 3 then Rewritten(disk, s, body, i) else Rewritten(disk[s := Slot(body, [])], 0, e, i - 3)
  {
    TakeFrom(Rewrite(s, body), Rewrite(0, e), i);
    if i <= 3 {
      RewriteSteps(disk, s, body, i);
    } else {
      AfterConcat(disk, Rewrite(s, body), Rewrite(0, e)[..i - 3]);
      BodyWritten(disk, s, body);
      RewriteSteps(disk[s := Slot(body, [])], 0, e, i - 3);
    }
  }

  /** The requests that reach the disk, with the calls they make. */
  ghost predicate Commits(crc: Text -> Crc, p: Pool, req: Request) {
    !req.Grow? && Committed(crc, p) && PlanFor(crc, p, req).reply == Done
  }

  /** Adoption finds the directory `dir`, holding `contents`. */
  ghost predicate Finds(crc: Text -> Crc, bytes: seq<Text>, dir: map<Text, nat>, contents: map<Text, Text>) {
    Adopt(crc, bytes) == Some(dir) && Contents(dir, bytes) == contents
  }

  /** What a crash may leave of a request that was to change the directory to `dir`: the contents
      before, the contents after, or a directory refused because it was being shortened. */
  ghost predicate OldOrNew(crc: Text -> Crc, p: Pool, dir: map<Text, nat>, contents: map<Text, Text>, bytes: seq<Text>)
    requires Intact(p)
  {
    || Finds(crc, bytes, p.dir, Contents(p.dir, Lives(p.disk)))
    || Finds(crc, bytes, dir, contents)
    || (Adopt(crc, bytes) == None && EncodeDir(crc, dir).Some?
        && |EncodeDir(crc, dir).value| < |p.disk[0].durable|)
  }

  lemma PutCrash(crc: Text -> Crc, p: Pool, s: nat, key: Text, body: Text, i: nat, bytes: seq<Text>)
    requires Committed(crc, p) && 0 < s < |p.disk| && s < U32 && s !in p.dir.Values && EncodeDir(crc, p.dir[key := s]).Some?
    requires i <= 6
    requires Crash(AfterAll(p.disk, (Rewrite(s, body) + Rewrite(0, EncodeDir(crc, p.dir[key := s]).value))[..i]), bytes)
    ensures OldOrNew(crc, p, p.dir[key := s], Contents(p.dir, Lives(p.disk))[key := body], bytes)
    ensures i == 6 ==> Finds(crc, bytes, p.dir[key := s], Contents(p.dir, Lives(p.disk))[key := body])
  {
    hide Adopt, Contents, Crash, EncodeDir, DecodeDir, AfterAll, Lives;
    var dir := p.dir[key := s];
    var e := EncodeDir(crc, dir).value;
    PutPrefix(p.disk, s, body, e, i);
    if i <= 3 {
      BodyCrash(crc, p, s, body, i, bytes);
    } else {
      var disk := p.disk[s := Slot(body, [])];
      BodyWritten(p.disk, s, body);
      DirectoryCrash(crc, disk, p.dir, dir, i - 3, bytes);
      BodiesKept(disk, e, i - 3, bytes, p.dir);
      BodiesKept(disk, e, i - 3, bytes, dir);
      WrittenBody(p, s, key, body);
    }
  }

  /** Once its slot holds the body, naming the slot in the directory stores the key. */
  lemma WrittenBody(p: Pool, s: nat, key: Text, body: Text)
    requires Intact(p) && 0 < s < |p.disk| && s !in p.dir.Values
    ensures var disk := p.disk[s := Slot(body, [])];
            && Contents(p.dir, Lives(disk)) == Contents(p.dir, Lives(p.disk))
            && Contents(p.dir[key := s], Lives(disk)) == Contents(p.dir, Lives(p.disk))[key := body]
  {
    var disk := p.disk[s := Slot(body, [])];
    QuietLives(p.disk);
    QuietLives(disk);
    forall k | k in p.dir
      ensures Lives(disk)[p.dir[k]] == Lives(p.disk)[p.dir[k]]
    {
      assert p.dir[k] in p.dir.Values;
    }
  }

  lemma DeleteCrash(crc: Text -> Crc, p: Pool, key: Text, i: nat, bytes: seq<Text>)
    requires Committed(crc, p) && EncodeDir(crc, p.dir - {key}).Some? && i <= 3
    requires Crash(AfterAll(p.disk, Rewrite(0, EncodeDir(crc, p.dir - {key}).value)[..i]), bytes)
    ensures OldOrNew(crc, p, p.dir - {key}, Contents(p.dir, Lives(p.disk)) - {key}, bytes)
    ensures i == 3 ==> Finds(crc, bytes, p.dir - {key}, Contents(p.dir, Lives(p.disk)) - {key})
  {
    hide Adopt, Crash, EncodeDir, DecodeDir, AfterAll;
    var dir := p.dir - {key};
    var e := EncodeDir(crc, dir).value;
    RewriteSteps(p.disk, 0, e, i);
    ContentsWithout(p.dir, key, Lives(p.disk));
    DirectoryCrash(crc, p.disk, p.dir, dir, i, bytes);
    BodiesKept(p.disk, e, i, bytes, p.dir);
    BodiesKept(p.disk, e, i, bytes, dir);
  }

  /** Crash safety: stopped after any number of its handle calls, a put or a delete is found wholly
      done, not started, or refused with an error; after its last call it is found done. */
  lemma CrashSafe(crc: Text -> Crc, p: Pool, req: Request, i: nat, bytes: seq<Text>)
    requires Commits(crc, p, req) && i <= |PlanFor(crc, p, req).steps|
    requires Crash(AfterAll(p.disk, PlanFor(crc, p, req).steps[..i]), bytes)
    ensures OldOrNew(crc, p, PlanFor(crc, p, req).dir, Meaning(Contents(p.dir, Lives(p.disk)), req), bytes)
    ensures i == |PlanFor(crc, p, req).steps|
        ==> Finds(crc, bytes, PlanFor(crc, p, req).dir, Meaning(Contents(p.dir, Lives(p.disk)), req))
  {
    match req
    case Put(key, body) =>
      PutCrash(crc, p, FreeSlot(p).value, key, body, i, bytes);
    case Delete(key) =>
      if key in p.dir {
        DeleteSteps(crc, p, key);
        DeleteCrash(crc, p, key, i, bytes);
      } else {
        IdleCrash(crc, p, bytes);
        AbsentContents(p.dir, key, Lives(p.disk));
      }
    case Grow(_) =>
  }

  lemma IdleCrash(crc: Text -> Crc, p: Pool, bytes: seq<Text>)
    requires Committed(crc, p) && Crash(p.disk, bytes)
    ensures Adopt(crc, bytes) == Some(p.dir) && Contents(p.dir, bytes) == Contents(p.dir, Lives(p.disk))
  {
    QuietLives(p.disk);
    forall j | 0 <= j < |p.disk|
      ensures bytes[j] == p.disk[j].durable
    {
      QuietSurvives(p.disk[j], bytes[j]);
    }
    SameContents(p.dir, bytes, Lives(p.disk));
  }

  /** A crash inside the last request of any run loses nothing of the requests before it. */
  lemma RunCrashSafe(crc: Text -> Crc, p: Pool, reqs: seq<Request>, req: Request, i: nat, bytes: seq<Text>)
    requires Committed(crc, p) && Injective(p.dir) && AllDone(crc, p, reqs)
    requires var q := ServeAll(crc, p, reqs);
             && Commits(crc, q, req) && i <= |PlanFor(crc, q, req).steps|
             && Crash(AfterAll(q.disk, PlanFor(crc, q, req).steps[..i]), bytes)
    ensures var m := MeaningAll(Contents(p.dir, Lives(p.disk)), reqs);
            var found := Adopt(crc, bytes);
            found.Some? ==> Contents(found.value, bytes) == m || Contents(found.value, bytes) == Meaning(m, req)
  {
    RunRefines(crc, p, reqs);
    CrashSafe(crc, ServeAll(crc, p, reqs), req, i, bytes);
  }

  // ---------- When a crash is refused ----------

  /** The directory slot is empty, as a new pool's is, or was written by this code. */
  ghost predicate Canonical(crc: Text -> Crc, p: Pool) {
    && Committed(crc, p)
    && (p.disk[0].durable == [] || EncodeDir(crc, p.dir) == Some(p.disk[0].durable))
  }

  /** A put never shortens the directory, so a crash during one is never refused. */
  lemma PutNeverRefused(crc: Text -> Crc, p: Pool, key: Text, body: Text, i: nat, bytes: seq<Text>)
    requires Canonical(crc, p) && Commits(crc, p, Put(key, body))
    requires i <= 6 && Crash(AfterAll(p.disk, PlanFor(crc, p, Put(key, body)).steps[..i]), bytes)
    ensures Adopt(crc, bytes).Some?
  {
    var s := FreeSlot(p).value;
    PutCrash(crc, p, s, key, body, i, bytes);
    if p.disk[0].durable != [] {
      EncodingGrows(crc, p.dir, key, s);
    }
  }

  lemma LivesSurvive(disk: seq<Slot>)
    ensures Crash(disk, Lives(disk))
  {
    forall j | 0 <= j < |disk|
      ensures Survives(disk[j], Lives(disk)[j])
    {
      assert disk[j].pending[..|disk[j].pending|] == disk[j].pending;
    }
  }

  /** The overlap a directory rewrite can leave after its first call is refused. */
  lemma TornSurvives(crc: Text -> Crc, disk: seq<Slot>, dir: map<Text, nat>)
    requires disk != [] && Quiet(disk) && EncodeDir(crc, dir).Some?
    requires |EncodeDir(crc, dir).value| < |disk[0].durable|
    ensures var torn := Rewritten(disk, 0, EncodeDir(crc, dir).value, 1);
            Crash(torn, Lives(torn)) && Adopt(crc, Lives(torn)) == None
  {
    var e, durable := EncodeDir(crc, dir).value, disk[0].durable;
    var torn := Rewritten(disk, 0, e, 1);
    LivesSurvive(torn);
    RewriteApplies(0, durable, e);
    TornIsDetected(crc, dir, durable);
    assert Lives(torn)[0] == Torn(durable, e);
  }

  /** `bytes` is left by a crash after `i` calls of the request, and adoption refuses it. */
  ghost predicate RefusedAfter(crc: Text -> Crc, p: Pool, req: Request, i: nat, bytes: seq<Text>) {
    var steps := PlanFor(crc, p, req).steps;
    i <= |steps| && Crash(AfterAll(p.disk, steps[..i]), bytes) && Adopt(crc, bytes).None?
  }

  /** The request rewrites the directory with fewer bytes than its slot holds. */
  ghost predicate Shortens(crc: Text -> Crc, p: Pool, req: Request)
    requires p.disk != []
  {
    var e := EncodeDir(crc, PlanFor(crc, p, req).dir);
    (req.Delete? ==> req.key in p.dir) && e.Some? && |e.value| < |p.disk[0].durable|
  }

  lemma ShortPutRefused(crc: Text -> Crc, p: Pool, key: Text, body: Text)
    requires Commits(crc, p, Put(key, body)) && Shortens(crc, p, Put(key, body))
    ensures exists i: nat, bytes :: RefusedAfter(crc, p, Put(key, body), i, bytes)
  {
    var s := FreeSlot(p).value;
    var dir := p.dir[key := s];
    var e, disk := EncodeDir(crc, dir).value, p.disk[s := Slot(body, [])];
    PutPrefix(p.disk, s, body, e, 4);
    BodyWritten(p.disk, s, body);
    TornSurvives(crc, disk, dir);
    assert RefusedAfter(crc, p, Put(key, body), 4, Lives(Rewritten(disk, 0, e, 1)));
  }

  lemma ShortDeleteRefused(crc: Text -> Crc, p: Pool, key: Text)
    requires Commits(crc, p, Delete(key)) && Shortens(crc, p, Delete(key))
    ensures exists i: nat, bytes :: RefusedAfter(crc, p, Delete(key), i, bytes)
  {
    var dir := p.dir - {key};
    var e := EncodeDir(crc, dir).value;
    DeleteSteps(crc, p, key);
    RewriteSteps(p.disk, 0, e, 1);
    TornSurvives(crc, p.disk, dir);
    assert RefusedAfter(crc, p, Delete(key), 1, Lives(Rewritten(p.disk, 0, e, 1)));
  }

  lemma RefusedMeansShort(crc: Text -> Crc, p: Pool, req: Request, i: nat, bytes: seq<Text>)
    requires Commits(crc, p, req) && RefusedAfter(crc, p, req, i, bytes)
    ensures Shortens(crc, p, req)
  {
    if req.Delete? && req.key !in p.dir {
      IdleCrash(crc, p, bytes);
    } else {
      CrashSafe(crc, p, req, i, bytes);
    }
  }

  /** Some crash during a request that commits is refused exactly when the request rewrites the
      directory shorter than it was. */
  lemma RefusedIffShorter(crc: Text -> Crc, p: Pool, req: Request)
    requires Commits(crc, p, req)
    ensures (exists i: nat, bytes :: RefusedAfter(crc, p, req, i, bytes)) <==> Shortens(crc, p, req)
  {
    if i: nat, bytes :| RefusedAfter(crc, p, req, i, bytes) {
      RefusedMeansShort(crc, p, req, i, bytes);
    }
    if Shortens(crc, p, req) {
      match req
      case Put(key, body) => ShortPutRefused(crc, p, key, body);
      case Delete(key) => ShortDeleteRefused(crc, p, key);
      case Grow(_) =>
    }
  }

  /** A delete always shortens a directory this code wrote, so a crash during one can be refused. */
  lemma DeleteCanBeRefused(crc: Text -> Crc, p: Pool, key: Text)
    requires Canonical(crc, p) && Commits(crc, p, Delete(key)) && key in p.dir
    ensures exists i: nat, bytes :: RefusedAfter(crc, p, Delete(key), i, bytes)
  {
    EncodingShrinks(crc, p.dir, key);
    RefusedIffShorter(crc, p, Delete(key));
  }

  /** Success leaves the directory slot canonical. */
  lemma CanonicalKept(crc: Text -> Crc, p: Pool, req: Request)
    requires Canonical(crc, p) && PlanFor(crc, p, req).reply == Done
    ensures Canonical(crc, Serve(crc, p, req))
  {
    ServeRefines(crc, p, req);
    DirectorySlot(crc, p, req);
  }

  lemma DirectorySlot(crc: Text -> Crc, p: Pool, req: Request)
    requires Committed(crc, p) && PlanFor(crc, p, req).reply == Done
    ensures var q := Serve(crc, p, req);
            || (q.disk[0] == p.disk[0] && q.dir == p.dir)
            || EncodeDir(crc, q.dir) == Some(q.disk[0].durable)
  {
    match req
    case Put(key, body) =>
      PutServed(crc, p, key, body);
    case Delete(key) =>
      if key in p.dir {
        DeleteServed(crc, p, key);
      } else {
        NothingServed(crc, p, key);
      }
    case Grow(_) =>
  }

  // ---------- A directory too large to write ----------

  /** A put that has a slot commits exactly when the directory with its key stays below 2^32 bytes. */
  lemma PutCommitsIff(crc: Text -> Crc, p: Pool, key: Text, body: Text)
    requires Committed(crc, p) && ValidKey(key) && FreeSlot(p).Some?
    ensures Committed(crc, Serve(crc, p, Put(key, body))) <==> 8 + KeyBytes(p.dir.Keys + {key}) < U32
  {
    var s := FreeSlot(p).value;
    var dir := p.dir[key := s];
    MapBytes(dir);
    assert dir.Keys == p.dir.Keys + {key};
    if 8 + KeyBytes(p.dir.Keys + {key}) < U32 {
      PutRefines(crc, p, key, body);
    } else {
      TooLargePut(crc, p, key, body);
    }
  }

  /** With keys that fit a 32-bit address space every put that has a slot commits. */
  lemma SmallPutsCommit(crc: Text -> Crc, p: Pool, key: Text, body: Text)
    requires Committed(crc, p) && ValidKey(key) && FreeSlot(p).Some?
    requires 8 + KeyBytes(p.dir.Keys + {key}) < 0x8000_0000
    ensures PlanFor(crc, p, Put(key, body)).reply == Done && Committed(crc, Serve(crc, p, Put(key, body)))
  {
    PutCommitsIff(crc, p, key, body);
    if PlanFor(crc, p, Put(key, body)).reply != Done {
      TooLargePut(crc, p, key, body);
      QuietLives(p.disk);
    }
  }

  /** What a put leaves when its directory is too large: the body is written, the directory slot is not. */
  lemma TooLargePut(crc: Text -> Crc, p: Pool, key: Text, body: Text)
    requires Intact(p) && ValidKey(key) && FreeSlot(p).Some? && EncodeDir(crc, p.dir[key := FreeSlot(p).value]).None?
    ensures var s, q := FreeSlot(p).value, Serve(crc, p, Put(key, body));
            && PlanFor(crc, p, Put(key, body)).reply == DirectoryTooLarge
            && q == Pool(p.disk[s := Slot(body, [])], p.dir[key := s])
            && Intact(q) && q.disk[0] == p.disk[0] && q.dir != p.dir
  {
    var s := FreeSlot(p).value;
    BodyWritten(p.disk, s, body);
    var disk := p.disk[s := Slot(body, [])];
    assert disk + [] == disk;
    assert p.dir[key := s][key] == s;
    assert key in p.dir ==> p.dir[key] in p.dir.Values;
  }

  /** A put of a stored key and every delete of one succeed, given a slot: neither lengthens the directory. */
  lemma StoredKeysCommit(crc: Text -> Crc, p: Pool, key: Text, body: Text)
    requires Committed(crc, p) && ValidKey(key) && key in p.dir
    ensures PlanFor(crc, p, Delete(key)).reply == Done
    ensures FreeSlot(p).Some? ==> PlanFor(crc, p, Put(key, body)).reply == Done
  {
    hide DecodeDir, FreeSlot;
    DecodedIsEncodable(crc, p.disk[0].durable);
    EncodingShrinks(crc, p.dir, key);
    if FreeSlot(p).Some? {
      var dir := p.dir[key := FreeSlot(p).value];
      assert dir.Keys == p.dir.Keys;
      MapBytes(p.dir);
      MapBytes(dir);
    }
  }
}
