/** What any run of remembers keeps: provenance is never forged, re-ingesting a document replaces
    exactly that document, and a write is visible exactly when its expiry lies ahead. */
module RememberRuns {
  import opened Options
  import opened Lex
  import opened Vectors
  import opened ChunkIds
  import opened Remember

  // ---------- Provenance ----------

  /** Attributes that name a parent and an index belong to the id made from the two. */
  ghost predicate Traced(id: Text, attrs: Attrs) {
    ParentId in attrs || ChunkIndex in attrs ==>
      && ParentId in attrs && attrs[ParentId].Str?
      && ChunkIndex in attrs && attrs[ChunkIndex].Int? && attrs[ChunkIndex].n >= 0
      && id == ChunkId(attrs[ParentId].text, attrs[ChunkIndex].n)
  }

  ghost predicate WellTraced(store: Store) {
    forall id :: id in store ==> Traced(id, store[id].attrs)
  }

  lemma PreparedTraced(store: Store, w: Write, place: Option<Place>, hit: Option<Text>, now: int)
    requires WellTraced(store)
    requires hit.Some? ==> hit.value in store && place.None?
    requires place.Some? ==> w.id == ChunkId(place.value.parent, place.value.index)
    ensures Traced(Target(w, hit), Prepared(store, w, place, hit, now))
  {
  }

  /** Nothing a caller puts under a reserved name reaches the store. */
  lemma CallerCannotForge(store: Store, w: Write, forged: Attrs, place: Option<Place>,
                                             hit: Option<Text>, now: int)
    requires forall k :: k !in Reserved() ==> (k in w.attrs <==> k in forged)
    requires forall k :: k !in Reserved() && k in w.attrs ==> w.attrs[k] == forged[k]
    ensures Prepared(store, w, place, hit, now) == Prepared(store, w.(attrs := forged), place, hit, now)
  {
    assert w.attrs - Reserved() == forged - Reserved();
  }

  // ---------- The batch upsert ----------

  lemma {:induction false} UpsertedOther(store: Store, records: seq<(Text, Record)>, id: Text)
    requires forall k :: 0 <= k < |records| ==> records[k].0 != id
    ensures id in Upserted(store, records) <==> id in store
    ensures id in store ==> Upserted(store, records)[id] == store[id]
  {
    if records != [] {
      UpsertedOther(store, records[..|records| - 1], id);
    }
  }

  lemma {:induction false} UpsertedLast(store: Store, records: seq<(Text, Record)>, k: nat)
    requires k < |records| && forall j :: k < j < |records| ==> records[j].0 != records[k].0
    ensures records[k].0 in Upserted(store, records)
    ensures Upserted(store, records)[records[k].0] == records[k].1
  {
    if k < |records| - 1 {
      UpsertedLast(store, records[..|records| - 1], k);
    }
  }

  /** An id of the document: its parent with an index below `n`. */
  ghost predicate IsChunkOf(id: Text, parent: Text, n: nat) {
    exists i: nat :: i < n && id == ChunkId(parent, i)
  }

  lemma WrittenChunk(store: Store, doc: Document, i: nat)
    requires Complete(doc) && i < |doc.chunks|
    ensures var id, written := ChunkId(doc.parent, i), Upserted(store, ChunkRecords(store, doc));
            id in written && written[id] == ChunkRecord(store, doc, i).1
  {
    var records := ChunkRecords(store, doc);
    forall j | i < j < |records|
      ensures records[j].0 != records[i].0
    {
      ChunkIdInjective(doc.parent, i, doc.parent, j);
    }
    UpsertedLast(store, records, i);
  }

  lemma UnwrittenRecord(store: Store, doc: Document, id: Text)
    requires Complete(doc) && !IsChunkOf(id, doc.parent, |doc.chunks|)
    ensures var written := Upserted(store, ChunkRecords(store, doc));
            (id in written <==> id in store) && (id in store ==> written[id] == store[id])
  {
    UpsertedOther(store, ChunkRecords(store, doc), id);
  }

  // ---------- Replacing a document ----------

  lemma ChunkCarries(store: Store, doc: Document, i: nat)
    requires Complete(doc) && i < |doc.chunks|
    ensures var r := ChunkRecord(store, doc, i).1;
            && Carries(r, doc.parent) && !Stale(r, doc.parent, |doc.chunks|)
            && r.attrs[ParentId] == Str(doc.parent)
            && ChunkIndex in r.attrs && r.attrs[ChunkIndex] == Int(i)
            && TextKey in r.attrs && r.attrs[TextKey] == Str(doc.chunks[i].text)
  {
  }

  /** A record of the parent that was not written is stale. */
  lemma LeftoverIsStale(store: Store, parent: Text, n: nat, id: Text)
    requires WellTraced(store) && id in store && Carries(store[id], parent) && !IsChunkOf(id, parent, n)
    ensures Stale(store[id], parent, n)
  {
    var index := store[id].attrs[ChunkIndex].n;
    assert id == ChunkId(parent, index);
  }

  /** The records that carry the parent are afterwards exactly the chunks just written. */
  lemma DocumentReplaced(store: Store, doc: Document, id: Text)
    requires WellTraced(store) && Complete(doc) && doc.chunks != []
    ensures id in Ingested(store, doc) && Carries(Ingested(store, doc)[id], doc.parent)
       <==> IsChunkOf(id, doc.parent, |doc.chunks|)
  {
    var n := |doc.chunks|;
    if IsChunkOf(id, doc.parent, n) {
      var i: nat :| i < n && id == ChunkId(doc.parent, i);
      WrittenChunk(store, doc, i);
      ChunkCarries(store, doc, i);
    } else {
      UnwrittenRecord(store, doc, id);
      if id in store && Carries(store[id], doc.parent) {
        LeftoverIsStale(store, doc.parent, n, id);
      }
    }
  }

  /** Chunk `i` holds the new text under its own index; its birth date survives from the record it
      replaces, or is this write's. */
  lemma ChunkHoldsNewText(store: Store, doc: Document, i: nat)
    requires Complete(doc) && i < |doc.chunks|
    ensures var id, after := ChunkId(doc.parent, i), Ingested(store, doc);
            && id in after
            && TextKey in after[id].attrs && after[id].attrs[TextKey] == Str(doc.chunks[i].text)
            && ChunkIndex in after[id].attrs && after[id].attrs[ChunkIndex] == Int(i)
            && after[id].vector == doc.vectors[i] && after[id].title == doc.title
            && PriorCreated(after, id)
            == (if PriorCreated(store, id).Some? then PriorCreated(store, id) else Some(doc.nows[i]))
  {
    WrittenChunk(store, doc, i);
    ChunkCarries(store, doc, i);
  }

  /** Every other record, whether of another document or of none, is untouched. */
  lemma OthersUntouched(store: Store, doc: Document, id: Text)
    requires Complete(doc) && !IsChunkOf(id, doc.parent, |doc.chunks|)
    requires id in store ==> !Carries(store[id], doc.parent)
    ensures id in Ingested(store, doc) <==> id in store
    ensures id in store ==> Ingested(store, doc)[id] == store[id]
  {
    UnwrittenRecord(store, doc, id);
  }

  /** A record that carries another parent cannot have one of the document's ids. */
  lemma ForeignUntouched(store: Store, doc: Document, id: Text)
    requires WellTraced(store) && Complete(doc) && id in store
    requires ParentId in store[id].attrs && !Carries(store[id], doc.parent)
    ensures id in Ingested(store, doc) && Ingested(store, doc)[id] == store[id]
  {
    var attrs := store[id].attrs;
    assert Traced(id, attrs);
    if IsChunkOf(id, doc.parent, |doc.chunks|) {
      var i: nat :| i < |doc.chunks| && id == ChunkId(doc.parent, i);
      ChunkIdInjective(attrs[ParentId].text, attrs[ChunkIndex].n, doc.parent, i);
    }
    OthersUntouched(store, doc, id);
  }

  /** None of the chunks just written is stale, so the prune removes what was stale before. */
  lemma PrunedWereStale(store: Store, doc: Document)
    requires WellTraced(store) && Complete(doc)
    ensures StaleIds(Upserted(store, ChunkRecords(store, doc)), doc.parent, |doc.chunks|)
         == StaleIds(store, doc.parent, |doc.chunks|)
  {
    var n, written := |doc.chunks|, Upserted(store, ChunkRecords(store, doc));
    forall id
      ensures id in StaleIds(written, doc.parent, n) <==> id in StaleIds(store, doc.parent, n)
    {
      if IsChunkOf(id, doc.parent, n) {
        WrittenIsFresh(store, doc, id);
      } else {
        UnwrittenRecord(store, doc, id);
      }
    }
  }

  lemma WrittenIsFresh(store: Store, doc: Document, id: Text)
    requires WellTraced(store) && Complete(doc) && IsChunkOf(id, doc.parent, |doc.chunks|)
    ensures id !in StaleIds(Upserted(store, ChunkRecords(store, doc)), doc.parent, |doc.chunks|)
    ensures id !in StaleIds(store, doc.parent, |doc.chunks|)
  {
    var i: nat :| i < |doc.chunks| && id == ChunkId(doc.parent, i);
    WrittenChunk(store, doc, i);
    ChunkCarries(store, doc, i);
    if id in store && Carries(store[id], doc.parent) {
      assert Traced(id, store[id].attrs);
      ChunkIdInjective(doc.parent, store[id].attrs[ChunkIndex].n, doc.parent, i);
    }
  }

  lemma IngestKeepsTraces(store: Store, doc: Document)
    requires WellTraced(store) && Complete(doc)
    ensures WellTraced(Ingested(store, doc))
  {
    var after := Ingested(store, doc);
    forall id | id in after
      ensures Traced(id, after[id].attrs)
    {
      if IsChunkOf(id, doc.parent, |doc.chunks|) && doc.chunks != [] {
        var i: nat :| i < |doc.chunks| && id == ChunkId(doc.parent, i);
        WrittenChunk(store, doc, i);
        ChunkCarries(store, doc, i);
      } else if doc.chunks != [] {
        UnwrittenRecord(store, doc, id);
      }
    }
  }

  // ---------- Runs ----------

  /** One completed call: a single write with what its dedupe search found, or a whole document. */
  datatype Op =
    | One(w: Write, vector: Vec, hit: Option<Text>, searched: int, now: int)
    | Whole(doc: Document)

  ghost predicate Possible(store: Store, op: Op) {
    match op
    case One(w, _, hit, searched, _) => MayHit(store, w, hit, searched)
    case Whole(doc) => Complete(doc)
  }

  function Did(store: Store, op: Op): Store
    requires op.Whole? ==> |op.doc.chunks| == |op.doc.nows| == |op.doc.vectors|
  {
    match op
    case One(w, vector, hit, _, now) =>
      store[Target(w, hit) := Record(Prepared(store, w, None, hit, now), Some(vector), None)]
    case Whole(doc) => Ingested(store, doc)
  }

  ghost predicate Steps(before: Store, op: Op, after: Store) {
    Possible(before, op) && after == Did(before, op)
  }

  ghost predicate IsRun(stores: seq<Store>, ops: seq<Op>) {
    && |stores| == |ops| + 1
    && forall k, next :: 0 <= k < |ops| && next == k + 1 ==> Steps(stores[k], ops[k], stores[next])
  }

  lemma OpKeepsTraces(store: Store, op: Op)
    requires WellTraced(store) && Possible(store, op)
    ensures WellTraced(Did(store, op))
  {
    match op
    case One(w, vector, hit, _, now) => PreparedTraced(store, w, None, hit, now);
    case Whole(doc) => IngestKeepsTraces(store, doc);
  }

  /** After any run from an empty store, a record that names a parent and an index has the id made
      from the two. */
  lemma {:induction false} RunsKeepTraces(stores: seq<Store>, ops: seq<Op>, k: nat)
    requires IsRun(stores, ops) && stores[0] == map[] && k < |stores|
    ensures WellTraced(stores[k])
  {
    if k > 0 {
      RunsKeepTraces(stores, ops, k - 1);
      assert Steps(stores[k - 1], ops[k - 1], stores[k]);
      OpKeepsTraces(stores[k - 1], ops[k - 1]);
    }
  }

  /** In any run, whatever a document was made of before, ingesting it leaves exactly its chunks. */
  lemma RunsReplaceDocuments(stores: seq<Store>, ops: seq<Op>, k: nat, id: Text)
    requires IsRun(stores, ops) && stores[0] == map[] && k < |ops|
    requires ops[k].Whole? && ops[k].doc.chunks != []
    ensures id in stores[k + 1] && Carries(stores[k + 1][id], ops[k].doc.parent)
       <==> IsChunkOf(id, ops[k].doc.parent, |ops[k].doc.chunks|)
  {
    RunsKeepTraces(stores, ops, k);
    assert Steps(stores[k], ops[k], stores[k + 1]);
    DocumentReplaced(stores[k], ops[k].doc, id);
  }

  /** ... and leaves every record of another parent, and every record without provenance whose id it did
      not write, as it was. */
  lemma RunsLeaveOthers(stores: seq<Store>, ops: seq<Op>, k: nat, id: Text)
    requires IsRun(stores, ops) && stores[0] == map[] && k < |ops| && ops[k].Whole? && id in stores[k]
    requires if ParentId in stores[k][id].attrs then !Carries(stores[k][id], ops[k].doc.parent)
             else !IsChunkOf(id, ops[k].doc.parent, |ops[k].doc.chunks|)
    ensures id in stores[k + 1] && stores[k + 1][id] == stores[k][id]
  {
    RunsKeepTraces(stores, ops, k);
    assert Steps(stores[k], ops[k], stores[k + 1]);
    if ParentId in stores[k][id].attrs {
      ForeignUntouched(stores[k], ops[k].doc, id);
    } else {
      OthersUntouched(stores[k], ops[k].doc, id);
    }
  }

  // ---------- Visibility ----------

  /** A write is visible at the instant it is stamped exactly when a TTL it brings is positive and
      does not saturate onto that instant, and an expiry it inherits from a dedupe match has not
      passed since the search. */
  lemma VisibleIff(store: Store, w: Write, place: Option<Place>, hit: Option<Text>,
                                      searched: int, now: int)
    requires MayHit(store, w, hit, searched) && I64_MIN <= now <= I64_MAX
    ensures !Expired(Prepared(store, w, place, hit, now), now)
       <==> && (w.ttl.Some? ==> w.ttl.value > 0 && now < I64_MAX)
            && (w.ttl.None? && hit.Some? ==> !Expired(store[hit.value].attrs, now))
  {
  }
}
