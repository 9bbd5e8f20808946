/** What happens when a handle refuses the write of the directory, for want of quota: the request fails, but
    memory has already changed. */
module OpfsRefused {
  import opened Options
  import opened Lex
  import opened Bincode
  import opened OpfsDisk
  import opened OpfsPool
  import opened OpfsCrash

  /** The disk holds directory `d`, whatever memory holds. */
  ghost predicate OnDisk(crc: Text -> Crc, q: Pool, d: map<Text, nat>) {
    Intact(q) && Committed(crc, Pool(q.disk, d))
  }

  lemma UnwrittenPut(p: Pool, key: Text, body: Text)
    requires Intact(p) && WritesDirectory(p, Put(key, body))
    ensures var s := FreeSlot(p).value;
            Unwritten(p, Put(key, body)) == Pool(p.disk[s := Slot(body, [])], p.dir[key := s])
  {
    BodyWritten(p.disk, FreeSlot(p).value, body);
  }

  /** The failed request is served all the same: memory acts as if it had succeeded, while the disk still has
      the directory and the bytes from before. */
  lemma UnwrittenIsServed(crc: Text -> Crc, p: Pool, req: Request)
    requires Committed(crc, p) && WritesDirectory(p, req)
    ensures var q := Unwritten(p, req);
            && OnDisk(crc, q, p.dir) && (Injective(p.dir) ==> Injective(q.dir))
            && Contents(q.dir, Lives(q.disk)) == Meaning(Contents(p.dir, Lives(p.disk)), req)
            && Finds(crc, Lives(q.disk), p.dir, Contents(p.dir, Lives(p.disk)))
  {
    hide DecodeDir, EncodeDir, FreeSlot;
    QuietLives(p.disk);
    match req
    case Put(key, body) =>
      var s := FreeSlot(p).value;
      UnwrittenPut(p, key, body);
      WrittenBody(p, s, key, body);
      BodyWritten(p.disk, s, body);
      QuietLives(p.disk[s := Slot(body, [])]);
      if Injective(p.dir) {
        InjectiveAdds(p.dir, key, s);
      }
    case Delete(key) =>
      ContentsWithout(p.dir, key, Lives(p.disk));
  }

  /** The next request that does write the directory puts disk and memory back together, the failed one
      included. */
  lemma NextWriteHeals(crc: Text -> Crc, q: Pool, d: map<Text, nat>, req: Request)
    requires OnDisk(crc, q, d) && WritesDirectory(q, req) && PlanFor(crc, q, req).reply == Done
    ensures var r := Serve(crc, q, req);
            Committed(crc, r) && Contents(r.dir, Lives(r.disk)) == Meaning(Contents(q.dir, Lives(q.disk)), req)
  {
    match req
    case Put(key, body) => PutRefines(crc, q, key, body);
    case Delete(key) =>
      var dir := q.dir - {key};
      DeleteServed(crc, q, key);
      ContentsWithout(q.dir, key, Lives(q.disk));
      RewrittenContents(q, dir, EncodeDir(crc, dir).value);
      DirRoundTrip(crc, dir);
  }

  // ---------- A crash before that ----------

  /** Until then a put that takes no slot the disk names is as safe as ever: a crash inside it finds what the
      disk had, or everything memory has. */
  lemma FreshSlotIsSafe(crc: Text -> Crc, q: Pool, d: map<Text, nat>, key: Text, body: Text, i: nat, bytes: seq<Text>)
    requires OnDisk(crc, q, d) && WritesDirectory(q, Put(key, body)) && PlanFor(crc, q, Put(key, body)).reply == Done
    requires FreeSlot(q).value !in d.Values
    requires i <= 6 && Crash(AfterAll(q.disk, PlanFor(crc, q, Put(key, body)).steps[..i]), bytes)
    ensures var s := FreeSlot(q).value;
            OldOrNew(crc, Pool(q.disk, d), q.dir[key := s], Contents(q.dir, Lives(q.disk))[key := body], bytes)
  {
    hide Adopt, Contents, Crash, EncodeDir, DecodeDir, AfterAll, Lives;
    var s := FreeSlot(q).value;
    var dir := q.dir[key := s];
    var e := EncodeDir(crc, dir).value;
    PutPrefix(q.disk, s, body, e, i);
    if i <= 3 {
      BodyCrash(crc, Pool(q.disk, d), s, body, i, bytes);
    } else {
      var disk := q.disk[s := Slot(body, [])];
      BodyWritten(q.disk, s, body);
      DirectoryCrash(crc, disk, d, dir, i - 3, bytes);
      BodiesKept(disk, e, i - 3, bytes, d);
      BodiesKept(disk, e, i - 3, bytes, dir);
      WrittenBody(q, s, key, body);
      WrittenBody(Pool(q.disk, d), s, key, body);
    }
  }

  /** A crash in the next put, with the body flushed and the directory not yet written, loses stored bytes
      exactly when the put was given the slot that the failed request took from its key and brings other
      bytes. */
  lemma NextBodyOverwritesIff(crc: Text -> Crc, p: Pool, req: Request, other: Text, body: Text)
    requires Committed(crc, p) && Injective(p.dir) && WritesDirectory(p, req)
    requires WritesDirectory(Unwritten(p, req), Put(other, body))
    ensures var q := Unwritten(p, req);
            var s, bytes := FreeSlot(q).value, Lives(AfterAll(q.disk, Rewrite(FreeSlot(q).value, body)));
            && Crash(AfterAll(q.disk, Rewrite(s, body)), bytes) && Adopt(crc, bytes) == Some(p.dir)
            && (Contents(p.dir, bytes) == Contents(p.dir, Lives(p.disk))
                <==> (req.key in p.dir && p.dir[req.key] == s ==> body == Lives(p.disk)[s]))
  {
    hide Adopt, EncodeDir, DecodeDir;
    var q := Unwritten(p, req);
    var s := FreeSlot(q).value;
    UnwrittenIsServed(crc, p, req);
    BodyWritten(q.disk, s, body);
    var disk := q.disk[s := Slot(body, [])];
    LivesSurvive(disk);
    StillAdopts(crc, q, p.dir, s, body);
    TakenSlots(p, req);
    QuietLives(p.disk);
    QuietLives(q.disk);
    QuietLives(disk);
    BytesAfter(p, req, q, s, body);
  }

  lemma StillAdopts(crc: Text -> Crc, q: Pool, d: map<Text, nat>, s: nat, body: Text)
    requires OnDisk(crc, q, d) && 0 < s < |q.disk|
    ensures Adopt(crc, Lives(q.disk[s := Slot(body, [])])) == Some(d)
  {
    QuietLives(q.disk);
  }

  /** Only the failed request's own key gives up a slot the disk names. */
  lemma TakenSlots(p: Pool, req: Request)
    requires Intact(p) && Injective(p.dir) && WritesDirectory(p, req)
    ensures var q := Unwritten(p, req);
      forall k :: k in p.dir && k != req.key ==> p.dir[k] in q.dir.Values
  {
    var q := Unwritten(p, req);
    forall k | k in p.dir && k != req.key
      ensures p.dir[k] in q.dir.Values
    {
      assert k in q.dir && q.dir[k] == p.dir[k];
    }
  }

  lemma BytesAfter(p: Pool, req: Request, q: Pool, s: nat, body: Text)
    requires Intact(p) && Intact(q) && WritesDirectory(p, req) && q == Unwritten(p, req) && 0 < s < |q.disk|
    requires |q.disk| == |p.disk| && s !in q.dir.Values
    requires forall k :: k in p.dir && k != req.key ==> p.dir[k] in q.dir.Values
    ensures var bytes := Lives(q.disk[s := Slot(body, [])]);
      && (Contents(p.dir, bytes) == Contents(p.dir, Lives(p.disk))
          <==> (req.key in p.dir && p.dir[req.key] == s ==> body == Lives(p.disk)[s]))
  {
    var bytes := Lives(q.disk[s := Slot(body, [])]);
    forall k | k in p.dir && !(k == req.key && p.dir[k] == s)
      ensures bytes[p.dir[k]] == Lives(p.disk)[p.dir[k]]
    {
      if req.Put? {
        UnwrittenPut(p, req.key, req.body);
        assert p.dir[k] in p.dir.Values;
      }
    }
    if req.key in p.dir && p.dir[req.key] == s {
      assert Contents(p.dir, bytes)[req.key] == body;
      assert Contents(p.dir, Lives(p.disk))[req.key] == Lives(p.disk)[s];
    }
  }

  lemma PutFreesOne(p: Pool, key: Text, body: Text)
    requires Intact(p) && |p.disk| == 3 && p.dir == map[key := 1] && ValidKey(key)
    ensures WritesDirectory(p, Put(key, body)) && FreeSlot(Unwritten(p, Put(key, body))) == Some(1)
  {
    hide FreeSlot;
    OneName(p.dir, key);
    FreeIs(p, 2);
    UnwrittenPut(p, key, body);
    assert p.dir[key := 2].Keys == {key};
    OneName(p.dir[key := 2], key);
    FreeIs(Unwritten(p, Put(key, body)), 1);
  }

  lemma DeleteFreesOne(p: Pool, key: Text)
    requires Intact(p) && |p.disk| == 3 && p.dir == map[key := 1] && ValidKey(key)
    ensures WritesDirectory(p, Delete(key)) && FreeSlot(Unwritten(p, Delete(key))) == Some(1)
  {
    hide FreeSlot;
    assert p.dir - {key} == map[];
    FreeIs(Unwritten(p, Delete(key)), 1);
  }

  /** It happens at once in the smallest pools: one stored key in slot 1 and one free slot, and either request
      on that key refused. */
  lemma LossIsPossible(crc: Text -> Crc, key: Text, body: Text) returns (p: Pool)
    requires ValidKey(key) && |key| == 1
    ensures Committed(crc, p) && Injective(p.dir) && key in p.dir
    ensures forall req :: req == Put(key, body) || req == Delete(key) ==>
      WritesDirectory(p, req) && FreeSlot(Unwritten(p, req)) == Some(p.dir[key])
  {
    hide EncodeDir, DecodeDir, FreeSlot, WritesDirectory, Unwritten;
    p := OneKeyPool(crc, key);
    PutFreesOne(p, key, body);
    DeleteFreesOne(p, key);
  }

  lemma OneKeyPool(crc: Text -> Crc, key: Text) returns (p: Pool)
    requires |key| == 1
    ensures Committed(crc, p) && |p.disk| == 3 && p.dir == map[key := 1]
  {
    var dir: map<Text, nat> := map[key := 1];
    OneKeyEncodes(crc, key, dir);
    DirRoundTrip(crc, dir);
    p := ThreeSlots(crc, dir, EncodeDir(crc, dir).value);
  }

  lemma ThreeSlots(crc: Text -> Crc, dir: map<Text, nat>, e: Text) returns (p: Pool)
    requires InRange(dir, 3) && DecodeDir(crc, e) == Some(dir)
    ensures Committed(crc, p) && |p.disk| == 3 && p.dir == dir
  {
    hide DecodeDir;
    p := Pool([Slot(e, []), Slot([], []), Slot([], [])], dir);
  }

  lemma OneName(dir: map<Text, nat>, key: Text)
    requires dir.Keys == {key}
    ensures dir.Values == {dir[key]}
  {
  }

  lemma FreeIs(p: Pool, s: nat)
    requires |p.disk| < U32 && 1 <= s < |p.disk| && s !in p.dir.Values && forall t :: 1 <= t < s ==> t in p.dir.Values
    ensures FreeSlot(p) == Some(s)
  {
    hide FirstFree;
  }

  lemma OneKeyEncodes(crc: Text -> Crc, key: Text, dir: map<Text, nat>)
    requires |key| == 1 && dir == map[key := 1]
    ensures EncodeDir(crc, dir).Some? && SlotsFit(dir)
  {
    assert dir.Keys == {key};
    KeyBytesWithout({key}, key);
    assert {key} - {key} == {};
    MapBytes(dir);
  }
}
