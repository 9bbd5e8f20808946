/** Remembering text and whole chunked documents over a store that maps record ids to attributes:
    reserved-attribute stamping, dedupe, and write-then-prune of a document's chunks. */
module Remember {
  import opened Options
  import opened Lex
  import opened Vectors
  import opened ChunkIds

  const I64_MAX: int := 0x7FFF_FFFF_FFFF_FFFF
  const I64_MIN: int := -0x8000_0000_0000_0000

  function Saturate(n: int): int {
    if n > I64_MAX then I64_MAX else if n < I64_MIN then I64_MIN else n
  }

  datatype Value = Null | Str(text: Text) | Int(n: int) | Bool(b: bool) | List(items: seq<Text>)
                 | Float(f: real) | DateTime(ms: int)

  /** The reserved attribute names, and every other name. */
  datatype Key = TextKey | ParentId | ChunkIndex | CharStart | CreatedAt | UpdatedAt | ExpiresAt
               | AccessCount | LastAccessed | Custom(name: Text)

  type Attrs = map<Key, Value>

  /** `title` is the named vector a chunked document's heading embeds under. */
  datatype Record = Record(attrs: Attrs, vector: Option<Vec>, title: Option<Vec>)

  type Store = map<Text, Record>

  const RECENCY: seq<Key> := [CreatedAt, UpdatedAt, ExpiresAt, AccessCount, LastAccessed]
  const PROVENANCE: seq<Key> := [ParentId, ChunkIndex, CharStart]

  function Reserved(): set<Key> {
    {CreatedAt, UpdatedAt, ExpiresAt, AccessCount, LastAccessed, ParentId, ChunkIndex, CharStart}
  }

  // ---------- Attributes ----------

  method StripReserved(attrs: Attrs, keys: seq<Key>) returns (left: Attrs)
    ensures left == attrs - (set k | k in keys)
  {
    left := attrs;
    var i := 0;
    while i < |keys|
      invariant 0 <= i <= |keys|
      invariant left == attrs - (set k | k in keys[..i])
    {
      left := left - {keys[i]};
      assert keys[..i + 1] == keys[..i] + [keys[i]];
      i := i + 1;
    }
    assert keys[..i] == keys;
  }

  /** A TTL is in seconds and instants are in milliseconds; out of range the nearest instant stands in. */
  function ExpiryOf(now: int, ttl: int): (at: int)
    ensures -0x8000_0000_0000_0000 <= at < 0x8000_0000_0000_0000
    ensures (-0x8000_0000_0000_0000 <= 1000 * ttl < 0x8000_0000_0000_0000
             && -0x8000_0000_0000_0000 <= now + 1000 * ttl < 0x8000_0000_0000_0000) ==> at == now + 1000 * ttl
    ensures now >= 0 && now + 1000 * ttl >= 0x8000_0000_0000_0000 ==> at == 0x7FFF_FFFF_FFFF_FFFF
    ensures now <= 0 && now + 1000 * ttl < -0x8000_0000_0000_0000 ==> at == -0x8000_0000_0000_0000
  {
    Saturate(now + Saturate(ttl * 1000))
  }

  function Stamped(attrs: Attrs, now: int, prior: Option<int>, ttl: Option<int>): Attrs {
    var created := if prior.Some? then prior.value else now;
    var stamped := attrs[CreatedAt := DateTime(created)][UpdatedAt := DateTime(now)];
    if ttl.Some? then stamped[ExpiresAt := DateTime(ExpiryOf(now, ttl.value))] else stamped
  }

  method StampRecency(attrs: Attrs, now: int, prior: Option<int>, ttl: Option<int>) returns (out: Attrs)
    ensures CreatedAt in out && out[CreatedAt] == DateTime(if prior.Some? then prior.value else now)
    ensures UpdatedAt in out && out[UpdatedAt] == DateTime(now)
    ensures ttl.Some? ==> ExpiresAt in out && out[ExpiresAt] == DateTime(ExpiryOf(now, ttl.value))
    ensures var stamps := {CreatedAt, UpdatedAt} + (if ttl.Some? then {ExpiresAt} else {});
            out - stamps == attrs - stamps
    ensures out == Stamped(attrs, now, prior, ttl)
  {
    out := attrs;
    out := out[CreatedAt := DateTime(if prior.Some? then prior.value else now)];
    out := out[UpdatedAt := DateTime(now)];
    if ttl.Some? {
      out := out[ExpiresAt := DateTime(ExpiryOf(now, ttl.value))];
    }
  }

  /** Expiry at or before `now`; an entry without one never expires. */
  predicate Expired(attrs: Attrs, now: int) {
    ExpiresAt in attrs && attrs[ExpiresAt].DateTime? && attrs[ExpiresAt].ms <= now
  }

  // ---------- One write ----------

  datatype Write = Write(id: Text, text: Text, attrs: Attrs, ttl: Option<int>, dedupe: bool)

  /** A chunk's place in its document. */
  datatype Place = Place(parent: Text, index: nat, charStart: nat)

  /** The attributes a write brings itself: the caller's without the reserved ones, the chunk
      provenance if there is any, and the text. */
  function Own(w: Write, place: Option<Place>): Attrs {
    var kept := w.attrs - Reserved();
    var placed := if place.None? then kept
                  else kept[ParentId := Str(place.value.parent)][ChunkIndex := Int(place.value.index)]
                           [CharStart := Int(place.value.charStart)];
    placed[TextKey := Str(w.text)]
  }

  function Target(w: Write, hit: Option<Text>): Text {
    if hit.Some? then hit.value else w.id
  }

  function PriorCreated(store: Store, id: Text): Option<int> {
    if id in store && CreatedAt in store[id].attrs && store[id].attrs[CreatedAt].DateTime?
    then Some(store[id].attrs[CreatedAt].ms) else None
  }

  /** A dedupe match keeps the matched entry's other attributes; the write's own win. */
  function Prepared(store: Store, w: Write, place: Option<Place>, hit: Option<Text>, now: int): Attrs {
    var id := Target(w, hit);
    var own := Own(w, place);
    var merged := if hit.Some? && id in store then store[id].attrs + own else own;
    Stamped(merged, now, PriorCreated(store, id), w.ttl)
  }

  // ---------- What a write stores ----------

  /** The attributes a write decides itself. */
  predicate Sets(w: Write, place: Option<Place>, k: Key) {
    match k
    case TextKey => true
    case CreatedAt => true
    case UpdatedAt => true
    case ExpiresAt => w.ttl.Some?
    case ParentId => place.Some?
    case ChunkIndex => place.Some?
    case CharStart => place.Some?
    case Custom(_) => k in w.attrs
    case _ => false
  }

  /** `out` is what write `w` leaves at an id where `prior` stood: its text, its own attributes and its place,
      stamped; from `matched`, the entry a dedupe search found, whatever the write does not decide; and
      nothing else. */
  ghost predicate Stores(w: Write, place: Option<Place>, matched: Option<Attrs>, prior: Option<Attrs>, now: int, out: Attrs) {
    && TextKey in out && out[TextKey] == Str(w.text)
    && (forall name :: Custom(name) in w.attrs ==> Custom(name) in out && out[Custom(name)] == w.attrs[Custom(name)])
    && (place.Some? ==>
          && ParentId in out && out[ParentId] == Str(place.value.parent)
          && ChunkIndex in out && out[ChunkIndex] == Int(place.value.index)
          && CharStart in out && out[CharStart] == Int(place.value.charStart))
    && UpdatedAt in out && out[UpdatedAt] == DateTime(now) && CreatedAt in out
    && out[CreatedAt] == (if prior.Some? && CreatedAt in prior.value && prior.value[CreatedAt].DateTime?
                          then prior.value[CreatedAt] else DateTime(now))
    && (w.ttl.Some? ==> ExpiresAt in out && out[ExpiresAt] == DateTime(ExpiryOf(now, w.ttl.value)))
    && (forall k :: k in out && !Sets(w, place, k) ==> matched.Some? && k in matched.value)
    && (matched.Some? ==> forall k :: k in matched.value && !Sets(w, place, k) ==> k in out && out[k] == matched.value[k])
  }

  function AttrsAt(store: Store, id: Text): Option<Attrs> {
    if id in store then Some(store[id].attrs) else None
  }

  lemma OwnSets(w: Write, place: Option<Place>)
    ensures var own := Own(w, place);
      && TextKey in own && own[TextKey] == Str(w.text)
      && (forall name :: Custom(name) in w.attrs ==> Custom(name) in own && own[Custom(name)] == w.attrs[Custom(name)])
      && (place.Some? ==>
            && ParentId in own && own[ParentId] == Str(place.value.parent)
            && ChunkIndex in own && own[ChunkIndex] == Int(place.value.index)
            && CharStart in own && own[CharStart] == Int(place.value.charStart))
      && (forall k :: k in own ==> Sets(w, place, k) && k != CreatedAt && k != UpdatedAt && k != ExpiresAt)
      && forall k :: Sets(w, place, k) ==> k in own || k == CreatedAt || k == UpdatedAt || k == ExpiresAt
  {
  }

  lemma StampsSet(attrs: Attrs, now: int, prior: Option<int>, ttl: Option<int>)
    ensures var out := Stamped(attrs, now, prior, ttl);
      && UpdatedAt in out && out[UpdatedAt] == DateTime(now)
      && CreatedAt in out && out[CreatedAt] == DateTime(if prior.Some? then prior.value else now)
      && (ttl.Some? ==> ExpiresAt in out && out[ExpiresAt] == DateTime(ExpiryOf(now, ttl.value)))
      && forall k :: k != CreatedAt && k != UpdatedAt && (k == ExpiresAt ==> ttl.None?) ==>
           (k in out <==> k in attrs) && (k in attrs ==> out[k] == attrs[k])
  {
  }

  lemma PreparedStores(store: Store, w: Write, place: Option<Place>, hit: Option<Text>, now: int)
    requires hit.Some? ==> hit.value in store
    ensures Stores(w, place, if hit.Some? then AttrsAt(store, hit.value) else None, AttrsAt(store, Target(w, hit)), now,
                   Prepared(store, w, place, hit, now))
  {
    hide Own, Stamped, ExpiryOf;
    var id := Target(w, hit);
    var own := Own(w, place);
    OwnSets(w, place);
    StampsSet(if hit.Some? && id in store then store[id].attrs + own else own, now, PriorCreated(store, id), w.ttl);
  }

  /** What the dedupe search may return: nothing, or a vector-bearing entry not expired when it ran. */
  ghost predicate MayHit(store: Store, w: Write, hit: Option<Text>, searched: int) {
    hit.Some? ==>
      && w.dedupe && hit.value in store && store[hit.value].vector.Some?
      && !Expired(store[hit.value].attrs, searched)
  }

  /** `None` refuses a dedupe threshold on a write that has no vector to search with. */
  method PrepareRemember(store: Store, w: Write, vector: Option<Vec>, place: Option<Place>, hit: Option<Text>, now: int)
    returns (prepared: Option<(Text, Attrs)>)
    requires hit.Some? ==> w.dedupe && hit.value in store
    ensures prepared == if w.dedupe && vector.None? then None
                        else Some((Target(w, hit), Prepared(store, w, place, hit, now)))
  {
    var attrs := StripReserved(w.attrs, RECENCY);
    attrs := StripReserved(attrs, PROVENANCE);
    assert attrs == w.attrs - Reserved();
    if place.Some? {
      attrs := attrs[ParentId := Str(place.value.parent)];
      attrs := attrs[ChunkIndex := Int(place.value.index)];
      attrs := attrs[CharStart := Int(place.value.charStart)];
    }
    attrs := attrs[TextKey := Str(w.text)];
    if w.dedupe && vector.None? {
      return None;
    }
    var id := w.id;
    if hit.Some? {
      id := hit.value;
      attrs := store[id].attrs + attrs;
    }
    attrs := StampRecency(attrs, now, PriorCreated(store, id), w.ttl);
    return Some((id, attrs));
  }

  // ---------- The store's upsert and delete ----------

  function Upserted(store: Store, records: seq<(Text, Record)>): Store {
    if records == [] then store
    else Upserted(store, records[..|records| - 1])[records[|records| - 1].0 := records[|records| - 1].1]
  }

  method Upsert(store: Store, records: seq<(Text, Record)>) returns (after: Store)
    ensures after == Upserted(store, records)
  {
    after := store;
    var i := 0;
    while i < |records|
      invariant 0 <= i <= |records|
      invariant after == Upserted(store, records[..i])
    {
      after := after[records[i].0 := records[i].1];
      assert records[..i + 1][..i] == records[..i];
      i := i + 1;
    }
    assert records[..i] == records;
  }

  predicate Carries(r: Record, parent: Text) {
    ParentId in r.attrs && r.attrs[ParentId] == Str(parent)
  }

  /** The stale tail of a document: its own chunks at index `n` and above. */
  predicate Stale(r: Record, parent: Text, n: nat) {
    Carries(r, parent) && ChunkIndex in r.attrs && r.attrs[ChunkIndex].Int? && r.attrs[ChunkIndex].n >= n
  }

  function StaleIds(store: Store, parent: Text, n: nat): set<Text> {
    set id | id in store && Stale(store[id], parent, n)
  }

  function Pruned(store: Store, parent: Text, n: nat): Store {
    store - StaleIds(store, parent, n)
  }

  // ---------- Whole documents ----------

  datatype Chunk = Chunk(text: Text, index: nat, charStart: nat)

  /** The chunker numbers its chunks densely from zero. */
  ghost predicate Dense(chunks: seq<Chunk>) {
    forall i :: 0 <= i < |chunks| ==> chunks[i].index == i
  }

  /** One document to store: `vectors` and `nows` give each chunk's embedding and its clock reading. */
  datatype Document = Document(parent: Text, chunks: seq<Chunk>, vectors: seq<Option<Vec>>, title: Option<Vec>,
                               attrs: Attrs, ttl: Option<int>, nows: seq<int>)

  ghost predicate Complete(doc: Document) {
    Dense(doc.chunks) && |doc.vectors| == |doc.nows| == |doc.chunks|
  }

  function ChunkWrite(doc: Document, c: Chunk): Write {
    Write(ChunkId(doc.parent, c.index), c.text, doc.attrs, doc.ttl, false)
  }

  function ChunkAttrs(store: Store, doc: Document, i: nat): Attrs
    requires i < |doc.chunks| == |doc.nows|
  {
    var c := doc.chunks[i];
    Prepared(store, ChunkWrite(doc, c), Some(Place(doc.parent, c.index, c.charStart)), None, doc.nows[i])
  }

  function ChunkRecord(store: Store, doc: Document, i: nat): (Text, Record)
    requires i < |doc.chunks| == |doc.nows| == |doc.vectors|
  {
    (ChunkId(doc.parent, doc.chunks[i].index), Record(ChunkAttrs(store, doc, i), doc.vectors[i], doc.title))
  }

  function ChunkRecords(store: Store, doc: Document): seq<(Text, Record)>
    requires |doc.chunks| == |doc.nows| == |doc.vectors|
  {
    seq(|doc.chunks|, i requires 0 <= i < |doc.chunks| => ChunkRecord(store, doc, i))
  }

  /** Every chunk is prepared against the store as it was before the document. */
  method PrepareChunks(store: Store, doc: Document) returns (records: seq<(Text, Record)>)
    requires |doc.chunks| == |doc.nows| == |doc.vectors|
    ensures records == ChunkRecords(store, doc)
  {
    records := [];
    while |records| < |doc.chunks|
      invariant |records| <= |doc.chunks|
      invariant records == ChunkRecords(store, doc)[..|records|]
    {
      var i := |records|;
      var c := doc.chunks[i];
      var place := Some(Place(doc.parent, c.index, c.charStart));
      var p := PrepareRemember(store, ChunkWrite(doc, c), doc.vectors[i], place, None, doc.nows[i]);
      records := records + [(p.value.0, Record(p.value.1, doc.vectors[i], doc.title))];
      assert ChunkRecords(store, doc)[i] == ChunkRecord(store, doc, i);
    }
  }

  /** The store after a document is written and its stale tail pruned; an empty one changes nothing. */
  function Ingested(store: Store, doc: Document): Store
    requires |doc.chunks| == |doc.nows| == |doc.vectors|
  {
    if doc.chunks == [] then store
    else Pruned(Upserted(store, ChunkRecords(store, doc)), doc.parent, |doc.chunks|)
  }
}
