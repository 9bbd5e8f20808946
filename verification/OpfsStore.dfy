/** The pool object: slot handles and the in-memory directory, updated in place one handle call at a
    time. Every method is tied to the request it serves. */
module OpfsStore {
  import opened Options
  import opened Lex
  import opened Bincode
  import opened OpfsDisk
  import opened OpfsPool

  datatype Got = Invalid | Absent | Found(bytes: Text)

  class OpfsFs {
    const crc: Text -> Crc
    var disk: seq<Slot>
    var dir: map<Text, nat>
    ghost var calls: seq<Step>

    ghost function State(): Pool
      reads this
    {
      Pool(disk, dir)
    }

    ghost predicate Valid()
      reads this
    {
      Intact(State())
    }

    constructor (crc: Text -> Crc, handles: seq<Text>, dir: map<Text, nat>)
      requires 1 <= |handles| && InRange(dir, |handles|) && SlotsFit(dir)
      ensures Valid() && this.crc == crc && this.dir == dir && disk == Fresh(handles) && calls == []
    {
      this.crc := crc;
      this.disk := Fresh(handles);
      this.dir := dir;
      this.calls := [];
    }

    /** Takes over opened handles if slot 0 holds a directory that names only body slots. */
    static method AdoptHandles(crc: Text -> Crc, handles: seq<Text>) returns (fs: OpfsFs?)
      ensures fs == null <==> Adopt(crc, handles) == None
      ensures |handles| > 0 && handles[0] == [] ==> fs != null && fs.dir == map[]
      ensures fs != null ==> fresh(fs) && fs.crc == crc && fs.Valid() && fs.disk == Fresh(handles)
      ensures fs != null ==> Committed(crc, fs.State()) && Some(fs.dir) == Adopt(crc, handles)
      ensures fs != null ==> Contents(fs.dir, Lives(fs.disk)) == Contents(fs.dir, handles)
    {
      if |handles| == 0 {
        return null;
      }
      if handles[0] == [] {
        EmptySlotIsAdopted(crc, handles);
      }
      var found := DecodeDir(crc, handles[0]);
      if found.None? || !InRange(found.value, |handles|) {
        return null;
      }
      DecodedIsEncodable(crc, handles[0]);
      fs := new OpfsFs(crc, handles, found.value);
      assert Lives(fs.disk) == handles;
    }

    // ---------- Handle calls ----------

    method Call(st: Step)
      requires st.slot < |disk|
      modifies this`disk, this`calls
      ensures disk == After(old(disk), st) && calls == old(calls) + [st]
    {
      if st.Flush? {
        disk := disk[st.slot := Slot(disk[st.slot].Live(), [])];
      } else {
        disk := disk[st.slot := Slot(disk[st.slot].durable, disk[st.slot].pending + [st])];
      }
      calls := calls + [st];
    }

    /** Writes the bytes, cuts the slot to their length, flushes it. */
    method WriteFlushed(slot: nat, bytes: Text)
      requires slot < |disk|
      modifies this`disk, this`calls
      ensures disk == AfterAll(old(disk), Rewrite(slot, bytes))
      ensures calls == old(calls) + Rewrite(slot, bytes)
    {
      ghost var was, had := disk, calls;
      Call(WriteAt(slot, bytes));
      Call(Truncate(slot, |bytes|));
      Call(Flush(slot));
      ThreeSteps(was, WriteAt(slot, bytes), Truncate(slot, |bytes|), Flush(slot));
      assert calls == had + Rewrite(slot, bytes);
    }

    // ---------- Requests ----------

    method AllocateSlot() returns (slot: Option<nat>)
      requires Valid()
      ensures slot == FreeSlot(State())
    {
      var used := dir.Values;
      var end := |disk| % U32;
      var s := 1;
      while s < end
        invariant 1 <= s
        invariant FirstFree(used, s, end) == FirstFree(used, 1, end)
      {
        if s !in used {
          return Some(s);
        }
        s := s + 1;
      }
      return None;
    }

    /** Rewrites and flushes slot 0, unless the directory is too large to encode or the handle does not
        accept the write. */
    method WriteMap(accepts: bool) returns (reply: Reply)
      requires Valid()
      modifies this`disk, this`calls
      ensures reply == if EncodeDir(crc, dir).None? then DirectoryTooLarge else if accepts then Done else WriteRefused
      ensures reply != Done ==> disk == old(disk) && calls == old(calls)
      ensures reply == Done ==> disk == AfterAll(old(disk), Rewrite(0, EncodeDir(crc, dir).value))
      ensures reply == Done ==> calls == old(calls) + Rewrite(0, EncodeDir(crc, dir).value)
      ensures Valid()
    {
      var e := EncodeDir(crc, dir);
      if e.None? {
        return DirectoryTooLarge;
      }
      if !accepts {
        return WriteRefused;
      }
      BodyWritten(disk, 0, e.value);
      WriteFlushed(0, e.value);
      return Done;
    }

    /** `accepts` is whether the handle of slot 0 takes the directory. */
    method PutBytes(key: Text, body: Text, accepts: bool) returns (reply: Reply)
      requires Valid()
      modifies this
      ensures accepts || !WritesDirectory(old(State()), Put(key, body)) ==>
        && reply == PlanFor(crc, old(State()), Put(key, body)).reply
        && State() == Serve(crc, old(State()), Put(key, body))
        && calls == old(calls) + PlanFor(crc, old(State()), Put(key, body)).steps
      ensures !accepts && WritesDirectory(old(State()), Put(key, body)) ==>
        reply != Done && State() == Unwritten(old(State()), Put(key, body))
      ensures reply == BadKey <==> !ValidKey(key)
      ensures reply == Exhausted <==> ValidKey(key) && forall s :: 1 <= s < |old(disk)| % 0x1_0000_0000 ==> s in old(dir).Values
      ensures reply == WriteRefused ==> !accepts
      ensures reply == BadKey || reply == Exhausted ==> State() == old(State()) && calls == old(calls)
      ensures Valid()
      ensures reply == Done && old(Committed(crc, State())) ==> Refines(crc, old(State()), Put(key, body), State())
    {
      ghost var was, had := State(), calls;
      if !ValidKey(key) {
        Unserved(crc, was, Put(key, body), calls);
        return BadKey;
      }
      var slot := AllocateSlot();
      if slot.None? {
        Unserved(crc, was, Put(key, body), calls);
        return Exhausted;
      }
      WriteFlushed(slot.value, body);
      dir := dir[key := slot.value];
      BodyWritten(was.disk, slot.value, body);
      StillInRange(was, slot.value, key, body);
      reply := WriteMap(accepts);
      PutSteps(crc, was, slot.value, key, body, had);
      if reply == Done {
        PutRefines(crc, was, key, body);
      }
    }

    method DeleteKey(key: Text, accepts: bool) returns (reply: Reply)
      requires Valid()
      modifies this
      ensures accepts || !WritesDirectory(old(State()), Delete(key)) ==>
        && reply == PlanFor(crc, old(State()), Delete(key)).reply
        && State() == Serve(crc, old(State()), Delete(key))
        && calls == old(calls) + PlanFor(crc, old(State()), Delete(key)).steps
      ensures !accepts && WritesDirectory(old(State()), Delete(key)) ==>
        reply != Done && State() == Unwritten(old(State()), Delete(key))
      ensures reply == BadKey <==> !ValidKey(key)
      ensures reply != Exhausted && (reply == WriteRefused ==> !accepts)
      ensures ValidKey(key) && key !in old(dir) ==> reply == Done
      ensures !ValidKey(key) || key !in old(dir) ==> State() == old(State()) && calls == old(calls)
      ensures Valid()
      ensures reply == Done && old(Committed(crc, State())) ==> Refines(crc, old(State()), Delete(key), State())
    {
      ghost var was, had := State(), calls;
      if !ValidKey(key) {
        Unserved(crc, was, Delete(key), calls);
        return BadKey;
      }
      if key !in dir {
        Unserved(crc, was, Delete(key), calls);
        AbsentContents(dir, key, Lives(disk));
        return Done;
      }
      dir := dir - {key};
      reply := WriteMap(accepts);
      RemoveSteps(crc, was, key, had);
      if reply == Done && Committed(crc, was) {
        DeleteRefines(crc, was, key);
      }
    }

    method GetBytes(key: Text) returns (got: Got)
      requires Valid()
      ensures got == Invalid <==> !ValidKey(key)
      ensures got == Absent <==> ValidKey(key) && key !in Contents(dir, Lives(disk))
      ensures got.Found? ==> key in Contents(dir, Lives(disk)) && got.bytes == Contents(dir, Lives(disk))[key]
    {
      if !ValidKey(key) {
        return Invalid;
      }
      if key !in dir {
        return Absent;
      }
      return Found(disk[dir[key]].Live());
    }

    /** The stored keys in ascending order, each once. */
    method ListKeys() returns (keys: seq<Text>)
      requires Valid()
      ensures forall i, j :: 0 <= i < j < |keys| ==> Less(keys[i], keys[j])
      ensures forall k :: k in keys <==> k in Contents(dir, Lives(disk))
    {
      var entries := Entries(dir);
      keys := [];
      while |keys| < |entries|
        invariant |keys| <= |entries|
        invariant forall i :: 0 <= i < |keys| ==> keys[i] == entries[i].0
      {
        keys := keys + [entries[|keys|].0];
      }
      KeysListed(dir, keys);
    }

    method GrowPool(handles: seq<Text>)
      requires Valid()
      modifies this`disk
      ensures State() == Serve(crc, old(State()), Grow(handles))
      ensures Valid() && Contents(dir, Lives(disk)) == old(Contents(dir, Lives(disk)))
    {
      GrowContents(State(), handles);
      disk := disk + Fresh(handles);
    }
  }

  lemma KeysListed(dir: map<Text, nat>, keys: seq<Text>)
    requires |keys| == |Entries(dir)| && forall i :: 0 <= i < |keys| ==> keys[i] == Entries(dir)[i].0
    ensures forall i, j :: 0 <= i < j < |keys| ==> Less(keys[i], keys[j])
    ensures forall k :: k in keys <==> k in dir
  {
    var entries := Entries(dir);
    EntriesAscend(dir);
    forall k | k in dir
      ensures k in keys
    {
      EntriesCover(dir, k);
      var i :| 0 <= i < |entries| && entries[i] == (k, dir[k]);
      assert keys[i] == k;
    }
    forall k | k in keys
      ensures k in dir
    {
      var i :| 0 <= i < |keys| && keys[i] == k;
      assert entries[i] in entries;
    }
  }

  // ---------- Plans, one call at a time ----------

  lemma ThreeSteps(disk: seq<Slot>, a: Step, b: Step, c: Step)
    ensures AfterAll(disk, [a, b, c]) == After(After(After(disk, a), b), c)
  {
    assert [a, b, c][1..] == [b, c] && [b, c][1..] == [c];
    OneStep(After(After(disk, a), b), c);
    assert AfterAll(After(disk, a), [b, c]) == AfterAll(After(After(disk, a), b), [c]);
  }

  lemma Unserved(crc: Text -> Crc, p: Pool, req: Request, calls: seq<Step>)
    requires !req.Grow? && PlanFor(crc, p, req).steps == [] && PlanFor(crc, p, req).dir == p.dir
    ensures Serve(crc, p, req) == p && calls + PlanFor(crc, p, req).steps == calls
  {
    assert AfterAll(p.disk, []) + [] == p.disk;
  }

  lemma StillInRange(p: Pool, s: nat, key: Text, body: Text)
    requires Intact(p) && 0 < s < |p.disk| && s < U32
    ensures Intact(Pool(p.disk[s := Slot(body, [])], p.dir[key := s]))
  {
  }

  lemma PutSteps(crc: Text -> Crc, p: Pool, s: nat, key: Text, body: Text, calls: seq<Step>)
    requires ValidKey(key) && FreeSlot(p) == Some(s)
    ensures var dir, writes := p.dir[key := s], Rewrite(s, body);
            var plan := PlanFor(crc, p, Put(key, body));
            match EncodeDir(crc, dir)
            case None =>
              && plan == Plan(writes, dir, DirectoryTooLarge)
              && Serve(crc, p, Put(key, body)) == Pool(AfterAll(p.disk, writes), dir)
            case Some(e) =>
              && plan == Plan(writes + Rewrite(0, e), dir, Done)
              && calls + plan.steps == calls + writes + Rewrite(0, e)
              && Serve(crc, p, Put(key, body)) == Pool(AfterAll(AfterAll(p.disk, writes), Rewrite(0, e)), dir)
  {
    hide EncodeDir, AfterAll, FreeSlot;
    var dir, writes := p.dir[key := s], Rewrite(s, body);
    match EncodeDir(crc, dir)
    case None =>
      assert AfterAll(p.disk, writes) + [] == AfterAll(p.disk, writes);
    case Some(e) =>
      AfterConcat(p.disk, writes, Rewrite(0, e));
      var disk := AfterAll(p.disk, writes + Rewrite(0, e));
      assert disk + [] == disk;
      assert calls + (writes + Rewrite(0, e)) == calls + writes + Rewrite(0, e);
  }

  lemma RemoveSteps(crc: Text -> Crc, p: Pool, key: Text, calls: seq<Step>)
    requires ValidKey(key) && key in p.dir
    ensures var dir, plan := p.dir - {key}, PlanFor(crc, p, Delete(key));
            match EncodeDir(crc, dir)
            case None =>
              && plan == Plan([], dir, DirectoryTooLarge)
              && calls + plan.steps == calls
              && Serve(crc, p, Delete(key)) == Pool(p.disk, dir)
            case Some(e) =>
              && plan == Plan(Rewrite(0, e), dir, Done)
              && Serve(crc, p, Delete(key)) == Pool(AfterAll(p.disk, Rewrite(0, e)), dir)
  {
    var dir := p.dir - {key};
    match EncodeDir(crc, dir)
    case None =>
      assert AfterAll(p.disk, []) + [] == p.disk;
    case Some(e) =>
      DeleteSteps(crc, p, key);
      var disk := AfterAll(p.disk, Rewrite(0, e));
      assert disk + [] == disk;
  }
}
