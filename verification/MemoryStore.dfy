/** The memory object: one collection's records, written through by the remember calls. */
module MemoryStore {
  import opened Options
  import opened Lex
  import opened Vectors
  import opened ChunkIds
  import opened Remember
  import opened RememberRuns

  datatype Remembered = NotRemembered | Remembered(id: Text, deduped: bool)

  datatype Chunked = Refused | Chunked(ids: seq<Text>, pruned: nat)

  /** The ids written, in order, and how many records of the parent the call found beyond them; empty text
      prunes nothing. */
  ghost predicate Reports(done: Chunked, before: Store, parent: Text, n: nat) {
    && done.Chunked? && |done.ids| == n && (forall i :: 0 <= i < n ==> done.ids[i] == ChunkId(parent, i))
    && (n == 0 ==> done.pruned == 0)
    && (n > 0 && WellTraced(before) ==> done.pruned == |StaleIds(before, parent, n)|)
  }

  /** What a write leaves at `id`; a dedupe match merges into what stood there. */
  ghost predicate WriteStored(before: Store, after: Store, id: Text, w: Write, place: Option<Place>, merges: bool,
                              now: int, vector: Option<Vec>, title: Option<Vec>) {
    && id in after && after[id].vector == vector && after[id].title == title
    && Stores(w, place, if merges then AttrsAt(before, id) else None, AttrsAt(before, id), now, after[id].attrs)
  }

  /** Only the records named differ. */
  ghost predicate Reshaped(before: Store, after: Store, ids: set<Text>) {
    forall id :: id !in ids ==> (id in after <==> id in before) && (id in before ==> after[id] == before[id])
  }

  /** Chunk `i` of a document is stored with its text, its place, the caller's attributes, its vector and the
      document's title vector. */
  ghost predicate ChunkStored(before: Store, after: Store, parent: Text, c: Chunk, attrs: Attrs, ttl: Option<int>,
                              now: int, vector: Option<Vec>, title: Option<Vec>) {
    var id := ChunkId(parent, c.index);
    WriteStored(before, after, id, Write(id, c.text, attrs, ttl, false), Some(Place(parent, c.index, c.charStart)), false,
                now, vector, title)
  }

  lemma IngestedChunk(store: Store, doc: Document, i: nat)
    requires Complete(doc) && i < |doc.chunks|
    ensures ChunkStored(store, Ingested(store, doc), doc.parent, doc.chunks[i], doc.attrs, doc.ttl, doc.nows[i],
                        doc.vectors[i], doc.title)
  {
    ChunkHoldsNewText(store, doc, i);
    WrittenChunk(store, doc, i);
    ChunkCarries(store, doc, i);
    PreparedStores(store, ChunkWrite(doc, doc.chunks[i]),
                   Some(Place(doc.parent, doc.chunks[i].index, doc.chunks[i].charStart)), None, doc.nows[i]);
  }

  class Memory {
    var store: Store

    constructor ()
      ensures store == map[]
    {
      store := map[];
    }

    /** One write. `accepted` says whether the collection takes this embedder's vectors, `hit` is what
        the dedupe search returned. */
    method RememberOne(w: Write, vector: Vec, accepted: bool, hit: Option<Text>, searched: int, now: int)
      returns (done: Remembered)
      requires MayHit(store, w, hit, searched)
      modifies this
      ensures !accepted ==> done == NotRemembered && store == old(store)
      ensures accepted ==>
        && done == Remembered(if hit.Some? then hit.value else w.id, hit.Some?)
        && store == Did(old(store), One(w, vector, hit, searched, now))
      ensures accepted ==>
        && Reshaped(old(store), store, {if hit.Some? then hit.value else w.id})
        && WriteStored(old(store), store, if hit.Some? then hit.value else w.id, w, None, hit.Some?, now, Some(vector), None)
      ensures WellTraced(old(store)) ==> WellTraced(store)
    {
      if !accepted {
        return NotRemembered;
      }
      PreparedStores(store, w, None, hit, now);
      var p := PrepareRemember(store, w, Some(vector), None, hit, now);
      OpKeepsTracesIf(store, One(w, vector, hit, searched, now));
      store := Upsert(store, [(p.value.0, Record(p.value.1, Some(vector), None))]);
      return Remembered(p.value.0, hit.Some?);
    }

    /** Removes the stale tail of a document and counts it. */
    method PruneTail(parent: Text, n: nat) returns (pruned: nat)
      modifies this
      ensures store == Pruned(old(store), parent, n) && pruned == |StaleIds(old(store), parent, n)|
    {
      var stale := StaleIds(store, parent, n);
      store := store - stale;
      pruned := |stale|;
    }

    /** Writes every chunk in one batch, then prunes the document's stale tail. */
    method CommitDocument(doc: Document) returns (done: Chunked)
      requires Complete(doc) && doc.chunks != []
      modifies this
      ensures store == Ingested(old(store), doc)
      ensures Reports(done, old(store), doc.parent, |doc.chunks|)
    {
      if WellTraced(store) {
        PrunedWereStale(store, doc);
      }
      var records := PrepareChunks(store, doc);
      store := Upsert(store, records);
      var pruned := PruneTail(doc.parent, |doc.chunks|);
      return Chunked(seq(|records|, i requires 0 <= i < |records| => records[i].0), pruned);
    }

    /** Stores a document chunk by chunk under its parent's id. `chunking` is `None` when the text cannot
        be chunked as asked; the embedder's answer comes as one vector per chunk and, when the document
        has a title, one more at the end. */
    method RememberChunked(parent: Text, chunking: Option<seq<Chunk>>, summarize: bool, attrs: Attrs,
                           ttl: Option<int>, dedupe: bool, titled: bool, embedded: seq<Vec>, accepted: bool,
                           nows: seq<int>)
      returns (done: Chunked)
      requires chunking.Some? ==> Dense(chunking.value) && |nows| == |chunking.value|
      modifies this
      ensures done == Refused <==>
        summarize || dedupe || chunking.None?
        || (chunking.value != [] && (|embedded| != |chunking.value| + (if titled then 1 else 0) || !accepted))
      ensures done == Refused || chunking.value == [] ==> store == old(store)
      ensures done != Refused && chunking.value != [] ==>
        store == Ingested(old(store), DocumentOf(parent, chunking.value, embedded, titled, attrs, ttl, nows))
      ensures done != Refused ==> forall i :: 0 <= i < |chunking.value| ==>
        ChunkStored(old(store), store, parent, chunking.value[i], attrs, ttl, nows[i], Some(embedded[i]),
                    if titled then Some(embedded[|chunking.value|]) else None)
      ensures done != Refused ==> Reports(done, old(store), parent, |chunking.value|)
      ensures WellTraced(old(store)) ==> WellTraced(store)
    {
      if summarize || dedupe || chunking.None? {
        return Refused;
      }
      if chunking.value == [] {
        return Chunked([], 0);
      }
      if |embedded| != |chunking.value| + (if titled then 1 else 0) || !accepted {
        return Refused;
      }
      var doc := DocumentOf(parent, chunking.value, embedded, titled, attrs, ttl, nows);
      OpKeepsTracesIf(store, Whole(doc));
      forall i | 0 <= i < |doc.chunks|
        ensures ChunkStored(store, Ingested(store, doc), parent, doc.chunks[i], attrs, ttl, nows[i], doc.vectors[i], doc.title)
      {
        IngestedChunk(store, doc, i);
      }
      done := CommitDocument(doc);
    }

    /** The same write with no embedder: text-only records, no title vector. */
    method RememberChunkedTextOnly(parent: Text, chunking: Option<seq<Chunk>>, summarize: bool, attrs: Attrs,
                                   ttl: Option<int>, dedupe: bool, nows: seq<int>)
      returns (done: Chunked)
      requires chunking.Some? ==> Dense(chunking.value) && |nows| == |chunking.value|
      modifies this
      ensures done == Refused <==> summarize || dedupe || chunking.None?
      ensures done == Refused || chunking.value == [] ==> store == old(store)
      ensures done != Refused && chunking.value != [] ==>
        store == Ingested(old(store), TextDocument(parent, chunking.value, attrs, ttl, nows))
      ensures done != Refused ==> forall i :: 0 <= i < |chunking.value| ==>
        ChunkStored(old(store), store, parent, chunking.value[i], attrs, ttl, nows[i], None, None)
      ensures done != Refused ==> Reports(done, old(store), parent, |chunking.value|)
      ensures WellTraced(old(store)) ==> WellTraced(store)
    {
      if summarize || dedupe || chunking.None? {
        return Refused;
      }
      if chunking.value == [] {
        return Chunked([], 0);
      }
      var doc := TextDocument(parent, chunking.value, attrs, ttl, nows);
      OpKeepsTracesIf(store, Whole(doc));
      forall i | 0 <= i < |doc.chunks|
        ensures ChunkStored(store, Ingested(store, doc), parent, doc.chunks[i], attrs, ttl, nows[i], None, None)
      {
        IngestedChunk(store, doc, i);
      }
      done := CommitDocument(doc);
    }
  }

  function DocumentOf(parent: Text, chunks: seq<Chunk>, embedded: seq<Vec>, titled: bool, attrs: Attrs,
                      ttl: Option<int>, nows: seq<int>): (doc: Document)
    requires |embedded| == |chunks| + (if titled then 1 else 0)
    ensures |doc.vectors| == |chunks| && (Dense(chunks) && |nows| == |chunks| ==> Complete(doc))
  {
    Document(parent, chunks, seq(|chunks|, i requires 0 <= i < |chunks| => Some(embedded[i])),
             if titled then Some(embedded[|chunks|]) else None, attrs, ttl, nows)
  }

  function TextDocument(parent: Text, chunks: seq<Chunk>, attrs: Attrs, ttl: Option<int>, nows: seq<int>): (doc: Document)
    ensures Dense(chunks) && |nows| == |chunks| ==> Complete(doc)
  {
    Document(parent, chunks, seq(|chunks|, i => None), None, attrs, ttl, nows)
  }

  lemma OpKeepsTracesIf(store: Store, op: Op)
    requires Possible(store, op)
    ensures WellTraced(store) ==> WellTraced(Did(store, op))
  {
    if WellTraced(store) {
      OpKeepsTraces(store, op);
    }
  }
}
