/** The on-disk form of the approximate indexes: the keys that say when a cached index still applies,
    the snapshots stored in the cache, and saving and loading them. */
module AnnPersist {
  import opened Options
  import opened Lex
  import opened Bincode
  import opened OpfsDisk
  import opened IndexCache
  import opened Graphs
  import opened Vectors
  import KMeans
  import Ivf
  import Hnsw
  import HnswIndex

  // ---------- Validity keys ----------

  datatype Kind = GraphKind | ListsKind

  datatype Quant = Exact | Int8 | Binary

  type Word = n: nat | n < 0x1_0000_0000_0000_0000

  /** An index configuration. The last three fields tune queries only. */
  datatype Config = Config(kind: Kind, m: Word, efConstruction: Word, nLists: Word, seed: Word,
                           efSearch: Word, nProbe: Word, overscan: Word)

  function KindByte(k: Kind): Byte {
    match k case GraphKind => 0 case ListsKind => 1
  }

  function DistanceByte(d: KMeans.Distance): Byte {
    match d case Cosine => 0 case Euclidean => 1 case DotProduct => 2
  }

  function QuantByte(q: Quant): Byte {
    match q case Exact => 0 case Int8 => 1 case Binary => 2
  }

  /** Sizes are cut to 32 bits. */
  function ValidityKey(dim: Word, distance: KMeans.Distance, cfg: Config, quant: Quant): Text {
    [KindByte(cfg.kind), DistanceByte(distance), QuantByte(quant)]
    + (Le(dim, 4) + (Le(cfg.m, 4) + (Le(cfg.efConstruction, 4) + (Le(cfg.nLists, 4) + Le(cfg.seed, 8)))))
  }

  /** Which segment a cache belongs to: its name and its range of global rows. */
  datatype SegmentSlot = SegmentSlot(name: Text, base: Word, rows: Word)

  function SegmentKey(slot: SegmentSlot, dim: Word, distance: KMeans.Distance, cfg: Config): Text {
    [DistanceByte(distance)]
    + (Le(dim, 4) + (Le(cfg.nLists, 4) + (Le(cfg.seed, 8) + (Le(slot.base, 8) + (Le(slot.rows, 8) + slot.name)))))
  }

  lemma ConcatEqual(a: Text, b: Text, x: Text, y: Text)
    requires |a| == |b|
    ensures a + x == b + y <==> a == b && x == y
  {
    if a + x == b + y {
      assert a == (a + x)[..|a|] && b == (b + y)[..|b|];
      assert x == (a + x)[|a|..] && y == (b + y)[|b|..];
    }
  }

  lemma FieldEqual(a: nat, b: nat, width: nat, x: Text, y: Text)
    ensures Pow256(width) > 0
    ensures Le(a, width) + x == Le(b, width) + y <==> a % Pow256(width) == b % Pow256(width) && x == y
  {
    LeCollides(a, b, width);
    ConcatEqual(Le(a, width), Le(b, width), x, y);
  }

  lemma WordEqual(a: Word, b: Word)
    ensures Le(a, 8) == Le(b, 8) <==> a == b
  {
    Widths();
    LeRoundTrip(a, 8);
    LeRoundTrip(b, 8);
  }

  lemma SeedEqual(a: Word, b: Word, x: Text, y: Text)
    ensures Le(a, 8) + x == Le(b, 8) + y <==> a == b && x == y
  {
    WordEqual(a, b);
    ConcatEqual(Le(a, 8), Le(b, 8), x, y);
  }

  /** Two configurations share a cache exactly when kind, metric, quantization and seed agree and the
      sizes agree in their low 32 bits; query-time tunables play no part. */
  lemma ValidityKeysAgree(dimA: Word, distA: KMeans.Distance, a: Config, quantA: Quant,
                                             dimB: Word, distB: KMeans.Distance, b: Config, quantB: Quant)
    ensures ValidityKey(dimA, distA, a, quantA) == ValidityKey(dimB, distB, b, quantB)
       <==> a.kind == b.kind && distA == distB && quantA == quantB && a.seed == b.seed
            && dimA % U32 == dimB % U32 && a.m % U32 == b.m % U32
            && a.efConstruction % U32 == b.efConstruction % U32 && a.nLists % U32 == b.nLists % U32
  {
    Widths();
    var seedA, seedB := Le(a.seed, 8), Le(b.seed, 8);
    var listsA, listsB := Le(a.nLists, 4) + seedA, Le(b.nLists, 4) + seedB;
    var efA, efB := Le(a.efConstruction, 4) + listsA, Le(b.efConstruction, 4) + listsB;
    var mA, mB := Le(a.m, 4) + efA, Le(b.m, 4) + efB;
    ConcatEqual([KindByte(a.kind), DistanceByte(distA), QuantByte(quantA)],
                [KindByte(b.kind), DistanceByte(distB), QuantByte(quantB)], Le(dimA, 4) + mA, Le(dimB, 4) + mB);
    FieldEqual(dimA, dimB, 4, mA, mB);
    FieldEqual(a.m, b.m, 4, efA, efB);
    FieldEqual(a.efConstruction, b.efConstruction, 4, listsA, listsB);
    FieldEqual(a.nLists, b.nLists, 4, seedA, seedB);
    WordEqual(a.seed, b.seed);
    BytesAgree(a.kind, distA, quantA, b.kind, distB, quantB);
  }

  lemma BytesAgree(kindA: Kind, distA: KMeans.Distance, quantA: Quant,
                                      kindB: Kind, distB: KMeans.Distance, quantB: Quant)
    ensures [KindByte(kindA), DistanceByte(distA), QuantByte(quantA)]
         == [KindByte(kindB), DistanceByte(distB), QuantByte(quantB)]
       <==> kindA == kindB && distA == distB && quantA == quantB
  {
    var x := [KindByte(kindA), DistanceByte(distA), QuantByte(quantA)];
    var y := [KindByte(kindB), DistanceByte(distB), QuantByte(quantB)];
    assert x == y <==> x[0] == y[0] && x[1] == y[1] && x[2] == y[2];
  }

  /** Two segments share a cache exactly when name, row range, metric and seed agree, and the
      dimension and list count agree in their low 32 bits. */
  lemma SegmentKeysAgree(s: SegmentSlot, dimA: Word, distA: KMeans.Distance, a: Config,
                                            t: SegmentSlot, dimB: Word, distB: KMeans.Distance, b: Config)
    ensures SegmentKey(s, dimA, distA, a) == SegmentKey(t, dimB, distB, b)
       <==> s == t && distA == distB && a.seed == b.seed
            && dimA % U32 == dimB % U32 && a.nLists % U32 == b.nLists % U32
  {
    Widths();
    var rowsA, rowsB := Le(s.rows, 8) + s.name, Le(t.rows, 8) + t.name;
    var baseA, baseB := Le(s.base, 8) + rowsA, Le(t.base, 8) + rowsB;
    var seedA, seedB := Le(a.seed, 8) + baseA, Le(b.seed, 8) + baseB;
    var listsA, listsB := Le(a.nLists, 4) + seedA, Le(b.nLists, 4) + seedB;
    ConcatEqual([DistanceByte(distA)], [DistanceByte(distB)], Le(dimA, 4) + listsA, Le(dimB, 4) + listsB);
    FieldEqual(dimA, dimB, 4, listsA, listsB);
    FieldEqual(a.nLists, b.nLists, 4, seedA, seedB);
    SeedEqual(a.seed, b.seed, baseA, baseB);
    SeedEqual(s.base, t.base, rowsA, rowsB);
    SeedEqual(s.rows, t.rows, s.name, t.name);
    assert [DistanceByte(distA)] == [DistanceByte(distB)] <==> distA == distB by {
      assert [DistanceByte(distA)][0] == DistanceByte(distA);
    }
  }

  /** A key byte by byte. */
  lemma ValidityKeyLayout(dim: Word, distance: KMeans.Distance, cfg: Config, quant: Quant)
    ensures var b := ValidityKey(dim, distance, cfg, quant);
      && |b| == 27
      && b[0] == (if cfg.kind == GraphKind then 0 else 1)
      && b[1] == (if distance == KMeans.Cosine then 0 else if distance == KMeans.Euclidean then 1 else 2)
      && b[2] == (if quant == Exact then 0 else if quant == Int8 then 1 else 2)
      && LeValue(b[3..7]) == dim % 0x1_0000_0000 && LeValue(b[7..11]) == cfg.m % 0x1_0000_0000
      && LeValue(b[11..15]) == cfg.efConstruction % 0x1_0000_0000 && LeValue(b[15..19]) == cfg.nLists % 0x1_0000_0000
      && LeValue(b[19..27]) == cfg.seed
  {
    Widths();
    LeTruncates(dim, 4);
    LeTruncates(cfg.m, 4);
    LeTruncates(cfg.efConstruction, 4);
    LeTruncates(cfg.nLists, 4);
    LeRoundTrip(cfg.seed, 8);
    KeyFields([KindByte(cfg.kind), DistanceByte(distance), QuantByte(quant)], Le(dim, 4), Le(cfg.m, 4),
              Le(cfg.efConstruction, 4), Le(cfg.nLists, 4), Le(cfg.seed, 8));
  }

  lemma KeyFields(head: Text, dim: Text, m: Text, ef: Text, lists: Text, seed: Text)
    requires |head| == 3 && |dim| == |m| == |ef| == |lists| == 4 && |seed| == 8
    ensures var b := head + (dim + (m + (ef + (lists + seed))));
      && |b| == 27 && b[0] == head[0] && b[1] == head[1] && b[2] == head[2] && b[3..7] == dim && b[7..11] == m
      && b[11..15] == ef && b[15..19] == lists && b[19..27] == seed
  {
  }

  lemma SegmentKeyLayout(slot: SegmentSlot, dim: Word, distance: KMeans.Distance, cfg: Config)
    ensures var b := SegmentKey(slot, dim, distance, cfg);
      && |b| == 33 + |slot.name|
      && b[0] == (if distance == KMeans.Cosine then 0 else if distance == KMeans.Euclidean then 1 else 2)
      && LeValue(b[1..5]) == dim % 0x1_0000_0000 && LeValue(b[5..9]) == cfg.nLists % 0x1_0000_0000
      && LeValue(b[9..17]) == cfg.seed && LeValue(b[17..25]) == slot.base && LeValue(b[25..33]) == slot.rows
      && b[33..] == slot.name
  {
    Widths();
    LeTruncates(dim, 4);
    LeTruncates(cfg.nLists, 4);
    LeRoundTrip(cfg.seed, 8);
    LeRoundTrip(slot.base, 8);
    LeRoundTrip(slot.rows, 8);
    SegmentFields([DistanceByte(distance)], Le(dim, 4), Le(cfg.nLists, 4), Le(cfg.seed, 8), Le(slot.base, 8),
                  Le(slot.rows, 8), slot.name);
  }

  lemma SegmentFields(head: Text, dim: Text, lists: Text, seed: Text, base: Text, rows: Text, name: Text)
    requires |head| == 1 && |dim| == |lists| == 4 && |seed| == |base| == |rows| == 8
    ensures var b := head + (dim + (lists + (seed + (base + (rows + name)))));
      && |b| == 33 + |name| && b[0] == head[0] && b[1..5] == dim && b[5..9] == lists && b[9..17] == seed
      && b[17..25] == base && b[25..33] == rows && b[33..] == name
  {
  }

  // ---------- Snapshots ----------

  /** The durable state of an index. Centroid coordinates are 32-bit float patterns. */
  datatype Snapshot =
    | Graph(rows: seq<nat>, links: Links, entry: Option<nat>, maxLevel: nat)
    | InvertedLists(centroids: seq<nat>, lists: seq<seq<nat>>)

  function EncU32(n: nat): Text { Le(n, 4) }

  function DecU32(b: Text): Parsed<nat> { DecInt(4, b) }

  function EncU64(n: nat): Text { Le(n, 8) }

  function DecU64(b: Text): Parsed<nat> { DecInt(8, b) }

  function EncIds(xs: seq<nat>): Text { EncVec(EncU32, xs) }

  function DecIds(b: Text): Parsed<seq<nat>> { DecVec(DecU32, b) }

  function EncRows(xs: seq<nat>): Text { EncVec(EncU64, xs) }

  function DecRows(b: Text): Parsed<seq<nat>> { DecVec(DecU64, b) }

  function EncNode(xs: seq<seq<nat>>): Text { EncVec(EncIds, xs) }

  function DecNode(b: Text): Parsed<seq<seq<nat>>> { DecVec(DecIds, b) }

  function EncLinks(xs: Links): Text { EncVec(EncNode, xs) }

  function DecLinks(b: Text): Parsed<Links> { DecVec(DecNode, b) }

  function EncLists(xs: seq<seq<nat>>): Text { EncVec(EncRows, xs) }

  function DecLists(b: Text): Parsed<seq<seq<nat>>> { DecVec(DecRows, b) }

  function EncEntryPoint(e: Option<nat>): Text {
    match e
    case None => [0]
    case Some(n) => [1] + EncU32(n)
  }

  function DecEntryPoint(b: Text): Parsed<Option<nat>> {
    if b == [] then Fail
    else if b[0] == 0 then Ok(None, b[1..])
    else if b[0] != 1 then Fail
    else
      match DecU32(b[1..])
      case Fail => Fail
      case Ok(n, rest) => Ok(Some(n), rest)
  }

  /** A 32-bit variant number, then the variant's fields in order. */
  function EncSnapshot(s: Snapshot): Text {
    match s
    case Graph(rows, links, entry, maxLevel) =>
      Le(0, 4) + (EncRows(rows) + (EncLinks(links) + (EncEntryPoint(entry) + EncU64(maxLevel))))
    case InvertedLists(centroids, lists) =>
      Le(1, 4) + (EncIds(centroids) + EncLists(lists))
  }

  function DecGraph(b: Text): Parsed<Snapshot> {
    match DecRows(b) case Fail => Fail case Ok(rows, b1) =>
      match DecLinks(b1) case Fail => Fail case Ok(links, b2) =>
        match DecEntryPoint(b2) case Fail => Fail case Ok(entry, b3) =>
          match DecU64(b3) case Fail => Fail case Ok(maxLevel, b4) =>
            Ok(Graph(rows, links, entry, maxLevel), b4)
  }

  function DecInvertedLists(b: Text): Parsed<Snapshot> {
    match DecIds(b) case Fail => Fail case Ok(centroids, b1) =>
      match DecLists(b1) case Fail => Fail case Ok(lists, b2) =>
        Ok(InvertedLists(centroids, lists), b2)
  }

  function DecSnapshot(b: Text): Parsed<Snapshot> {
    match DecU32(b)
    case Fail => Fail
    case Ok(tag, rest) =>
      if tag == 0 then DecGraph(rest)
      else if tag == 1 then DecInvertedLists(rest)
      else Fail
  }

  ghost predicate Below(xs: seq<nat>, bound: nat) {
    |xs| < U64 && forall x :: x in xs ==> x < bound
  }

  ghost predicate NodeFits(xs: seq<seq<nat>>) {
    |xs| < U64 && forall x :: x in xs ==> Below(x, U32)
  }

  /** Every field is within its machine width. */
  ghost predicate FitsMachine(s: Snapshot) {
    match s
    case Graph(rows, links, entry, maxLevel) =>
      && Below(rows, U64) && |links| < U64 && (forall node :: node in links ==> NodeFits(node))
      && (entry.Some? ==> entry.value < U32) && maxLevel < U64
    case InvertedLists(centroids, lists) =>
      && Below(centroids, U32) && |lists| < U64 && forall l :: l in lists ==> Below(l, U64)
  }

  lemma IdsInvert(xs: seq<nat>)
    requires Below(xs, U32)
    ensures Inverts(EncIds, DecIds, xs)
  {
    Widths();
    forall x | x in xs
      ensures Inverts(EncU32, DecU32, x)
    {
      forall rest ensures DecU32(EncU32(x) + rest) == Ok(x, rest) { IntInverts(x, 4, rest); }
    }
    forall rest ensures DecIds(EncIds(xs) + rest) == Ok(xs, rest) { VecInverts(EncU32, DecU32, xs, rest); }
  }

  lemma RowsInvert(xs: seq<nat>)
    requires Below(xs, U64)
    ensures Inverts(EncRows, DecRows, xs)
  {
    Widths();
    forall x | x in xs
      ensures Inverts(EncU64, DecU64, x)
    {
      forall rest ensures DecU64(EncU64(x) + rest) == Ok(x, rest) { IntInverts(x, 8, rest); }
    }
    forall rest ensures DecRows(EncRows(xs) + rest) == Ok(xs, rest) { VecInverts(EncU64, DecU64, xs, rest); }
  }

  lemma NodeInverts(xs: seq<seq<nat>>)
    requires NodeFits(xs)
    ensures Inverts(EncNode, DecNode, xs)
  {
    Widths();
    forall x | x in xs
      ensures Inverts(EncIds, DecIds, x)
    {
      IdsInvert(x);
    }
    forall rest ensures DecNode(EncNode(xs) + rest) == Ok(xs, rest) { VecInverts(EncIds, DecIds, xs, rest); }
  }

  lemma LinksInvert(xs: Links, rest: Text)
    requires |xs| < U64 && forall x :: x in xs ==> NodeFits(x)
    ensures DecLinks(EncLinks(xs) + rest) == Ok(xs, rest)
  {
    Widths();
    forall x | x in xs
      ensures Inverts(EncNode, DecNode, x)
    {
      NodeInverts(x);
    }
    VecInverts(EncNode, DecNode, xs, rest);
  }

  lemma ListsInvert(xs: seq<seq<nat>>, rest: Text)
    requires |xs| < U64 && forall x :: x in xs ==> Below(x, U64)
    ensures DecLists(EncLists(xs) + rest) == Ok(xs, rest)
  {
    Widths();
    forall x | x in xs
      ensures Inverts(EncRows, DecRows, x)
    {
      RowsInvert(x);
    }
    VecInverts(EncRows, DecRows, xs, rest);
  }

  lemma EntryPointInverts(e: Option<nat>, rest: Text)
    requires e.Some? ==> e.value < U32
    ensures DecEntryPoint(EncEntryPoint(e) + rest) == Ok(e, rest)
  {
    var b := EncEntryPoint(e) + rest;
    if e.None? {
      assert b[1..] == rest;
    } else {
      Widths();
      assert b[1..] == EncU32(e.value) + rest;
      IntInverts(e.value, 4, rest);
    }
  }

  lemma GraphInverts(rows: seq<nat>, links: Links, entry: Option<nat>, maxLevel: nat)
    requires FitsMachine(Graph(rows, links, entry, maxLevel))
    ensures DecGraph(EncRows(rows) + (EncLinks(links) + (EncEntryPoint(entry) + EncU64(maxLevel))))
         == Ok(Graph(rows, links, entry, maxLevel), [])
  {
    Widths();
    var b3 := EncU64(maxLevel);
    var b2 := EncEntryPoint(entry) + b3;
    RowsInvert(rows);
    assert DecRows(EncRows(rows) + (EncLinks(links) + b2)) == Ok(rows, EncLinks(links) + b2);
    LinksInvert(links, b2);
    EntryPointInverts(entry, b3);
    IntInverts(maxLevel, 8, []);
    assert b3 + [] == b3;
  }

  lemma InvertedListsInvert(centroids: seq<nat>, lists: seq<seq<nat>>)
    requires FitsMachine(InvertedLists(centroids, lists))
    ensures DecInvertedLists(EncIds(centroids) + EncLists(lists)) == Ok(InvertedLists(centroids, lists), [])
  {
    IdsInvert(centroids);
    assert DecIds(EncIds(centroids) + EncLists(lists)) == Ok(centroids, EncLists(lists));
    ListsInvert(lists, []);
    assert EncLists(lists) + [] == EncLists(lists);
  }

  /** A snapshot is read back unchanged. */
  lemma SnapshotRoundTrip(s: Snapshot)
    requires FitsMachine(s)
    ensures DecSnapshot(EncSnapshot(s)) == Ok(s, [])
  {
    Widths();
    match s
    case Graph(rows, links, entry, maxLevel) =>
      IntInverts(0, 4, EncRows(rows) + (EncLinks(links) + (EncEntryPoint(entry) + EncU64(maxLevel))));
      GraphInverts(rows, links, entry, maxLevel);
    case InvertedLists(centroids, lists) =>
      IntInverts(1, 4, EncIds(centroids) + EncLists(lists));
      InvertedListsInvert(centroids, lists);
  }

  lemma {:induction false} ManyWidth<T>(enc: T -> Text, xs: seq<T>, width: nat)
    requires forall x :: |enc(x)| == width
    ensures |EncMany(enc, xs)| == width * |xs|
    ensures xs != [] ==> EncMany(enc, xs)[..width] == enc(xs[0])
  {
    if xs != [] {
      ManyWidth(enc, xs[1..], width);
    }
  }

  /** Where the first fields of a stored graph are, and its last ones, counted from the end. */
  lemma GraphLayout(rows: seq<nat>, links: Links, entry: Option<nat>, maxLevel: nat)
    requires FitsMachine(Graph(rows, links, entry, maxLevel))
    ensures var b := EncSnapshot(Graph(rows, links, entry, maxLevel));
      var k := 12 + 8 * |rows|;
      && |b| >= k + 17 && b[..4] == [0, 0, 0, 0] && LeValue(b[4..12]) == |rows|
      && (rows != [] ==> LeValue(b[12..20]) == rows[0])
      && LeValue(b[k..k + 8]) == |links| && LeValue(b[|b| - 8..]) == maxLevel
      && (entry.None? ==> b[|b| - 9] == 0)
      && (entry.Some? ==> |b| >= k + 21 && b[|b| - 13] == 1 && LeValue(b[|b| - 12..|b| - 8]) == entry.value)
  {
    hide *;
    ZeroTag();
    GraphPieces(rows, links, entry, maxLevel);
    GraphValues(rows, links, entry, maxLevel);
    GraphFields(Le(0, 4), Le(|rows|, 8), EncMany(EncU64, rows), Le(|links|, 8), EncMany(EncNode, links),
                EncEntryPoint(entry), Le(maxLevel, 8));
    var b := EncSnapshot(Graph(rows, links, entry, maxLevel));
    if entry.Some? {
      var e := b[|b| - 13..|b| - 8];
      assert e == [1] + Le(entry.value, 4);
      assert b[|b| - 12..|b| - 8] == e[1..] == Le(entry.value, 4);
    }
  }

  lemma GraphPieces(rows: seq<nat>, links: Links, entry: Option<nat>, maxLevel: nat)
    ensures EncSnapshot(Graph(rows, links, entry, maxLevel))
         == Le(0, 4) + ((Le(|rows|, 8) + EncMany(EncU64, rows))
                        + ((Le(|links|, 8) + EncMany(EncNode, links)) + (EncEntryPoint(entry) + Le(maxLevel, 8))))
    ensures |EncMany(EncU64, rows)| == 8 * |rows|
    ensures rows != [] ==> EncMany(EncU64, rows)[..8] == Le(rows[0], 8)
    ensures EncEntryPoint(entry) == match entry case None => [0] case Some(n) => [1] + Le(n, 4)
  {
    ManyWidth(EncU64, rows, 8);
  }

  lemma GraphValues(rows: seq<nat>, links: Links, entry: Option<nat>, maxLevel: nat)
    requires FitsMachine(Graph(rows, links, entry, maxLevel))
    ensures LeValue(Le(|rows|, 8)) == |rows| && LeValue(Le(|links|, 8)) == |links| && LeValue(Le(maxLevel, 8)) == maxLevel
    ensures rows != [] ==> LeValue(Le(rows[0], 8)) == rows[0]
    ensures entry.Some? ==> LeValue(Le(entry.value, 4)) == entry.value
  {
    hide Le, LeValue;
    Widths();
    LeRoundTrip(|rows|, 8);
    LeRoundTrip(|links|, 8);
    LeRoundTrip(maxLevel, 8);
    if rows != [] {
      assert rows[0] in rows;
      LeRoundTrip(rows[0], 8);
    }
    if entry.Some? {
      LeRoundTrip(entry.value, 4);
    }
  }

  lemma ZeroTag()
    ensures Le(0, 4) == [0, 0, 0, 0] && Le(1, 4) == [1, 0, 0, 0]
  {
    assert Le(0, 1) == [0];
    assert Le(0, 2) == [0, 0];
    assert Le(0, 3) == [0, 0, 0];
  }

  lemma GraphFields(tag: Text, n: Text, rows: Text, k: Text, links: Text, entry: Text, top: Text)
    requires |tag| == 4 && |n| == |k| == |top| == 8 && (|entry| == 1 || |entry| == 5)
    ensures var b := tag + ((n + rows) + ((k + links) + (entry + top)));
      && |b| == 28 + |rows| + |links| + |entry| && b[..4] == tag && b[4..12] == n && b[12..12 + |rows|] == rows
      && (|rows| >= 8 ==> b[12..20] == rows[..8])
      && b[12 + |rows|..20 + |rows|] == k && b[|b| - 8..] == top && b[|b| - 8 - |entry|..|b| - 8] == entry
  {
  }

  /** ... and of stored lists. */
  lemma ListsLayout(centroids: seq<nat>, lists: seq<seq<nat>>)
    requires FitsMachine(InvertedLists(centroids, lists))
    ensures var b := EncSnapshot(InvertedLists(centroids, lists));
      var k := 12 + 4 * |centroids|;
      && |b| >= k + 8 && b[..4] == [1, 0, 0, 0] && LeValue(b[4..12]) == |centroids|
      && (centroids != [] ==> LeValue(b[12..16]) == centroids[0])
      && LeValue(b[k..k + 8]) == |lists|
      && (lists != [] ==> |b| >= k + 16 && LeValue(b[k + 8..k + 16]) == |lists[0]|)
  {
    hide *;
    ZeroTag();
    ListsPieces(centroids, lists);
    ListsValues(centroids, lists);
    ListsFields(Le(1, 4), Le(|centroids|, 8), EncMany(EncU32, centroids), Le(|lists|, 8), EncMany(EncRows, lists));
  }

  lemma ListsPieces(centroids: seq<nat>, lists: seq<seq<nat>>)
    ensures EncSnapshot(InvertedLists(centroids, lists))
         == Le(1, 4) + ((Le(|centroids|, 8) + EncMany(EncU32, centroids)) + (Le(|lists|, 8) + EncMany(EncRows, lists)))
    ensures |EncMany(EncU32, centroids)| == 4 * |centroids|
    ensures centroids != [] ==> EncMany(EncU32, centroids)[..4] == Le(centroids[0], 4)
    ensures lists != [] ==> |EncMany(EncRows, lists)| >= 8 && EncMany(EncRows, lists)[..8] == Le(|lists[0]|, 8)
  {
    ManyWidth(EncU32, centroids, 4);
    if lists != [] {
      FirstCount(lists);
    }
  }

  lemma ListsValues(centroids: seq<nat>, lists: seq<seq<nat>>)
    requires FitsMachine(InvertedLists(centroids, lists))
    ensures LeValue(Le(|centroids|, 8)) == |centroids| && LeValue(Le(|lists|, 8)) == |lists|
    ensures centroids != [] ==> LeValue(Le(centroids[0], 4)) == centroids[0]
    ensures lists != [] ==> LeValue(Le(|lists[0]|, 8)) == |lists[0]|
  {
    hide Le, LeValue;
    Widths();
    LeRoundTrip(|centroids|, 8);
    LeRoundTrip(|lists|, 8);
    if centroids != [] {
      assert centroids[0] in centroids;
      LeRoundTrip(centroids[0], 4);
    }
    if lists != [] {
      assert lists[0] in lists;
      LeRoundTrip(|lists[0]|, 8);
    }
  }

  lemma FirstCount(lists: seq<seq<nat>>)
    requires lists != []
    ensures |EncMany(EncRows, lists)| >= 8 && EncMany(EncRows, lists)[..8] == Le(|lists[0]|, 8)
  {
  }

  lemma ListsFields(tag: Text, n: Text, cents: Text, k: Text, lists: Text)
    requires |tag| == 4 && |n| == |k| == 8
    ensures var b := tag + ((n + cents) + (k + lists));
      && |b| == 20 + |cents| + |lists| && b[..4] == tag && b[4..12] == n && b[12..12 + |cents|] == cents
      && b[12 + |cents|..20 + |cents|] == k && b[20 + |cents|..] == lists
      && (|cents| >= 4 ==> b[12..16] == cents[..4])
      && (|lists| >= 8 ==> b[20 + |cents|..28 + |cents|] == lists[..8])
  {
  }

  // ---------- Saving and loading ----------

  /** The backend's objects: saving replaces one whole, or fails and changes none. */
  function Save(crc: Text -> Crc, objects: map<Text, Text>, name: Text, key: Text, watermark: nat,
                s: Snapshot): Option<map<Text, Text>>
  {
    match Frame(crc, key, watermark, EncSnapshot(s))
    case None => None
    case Some(b) => Some(objects[name := b])
  }

  function Load(crc: Text -> Crc, objects: map<Text, Text>, name: Text, key: Text): Option<(Snapshot, nat)> {
    if name !in objects then None
    else
      match Unframe(crc, objects[name], key)
      case None => None
      case Some((payload, watermark)) =>
        match DecSnapshot(payload)
        case Fail => None
        case Ok(s, _) => Some((s, watermark))
  }

  /** What was saved is loaded whole by the same key and not at all by another. */
  lemma LoadAfterSave(crc: Text -> Crc, objects: map<Text, Text>, name: Text, made: Text,
                                         watermark: nat, s: Snapshot, asked: Text)
    requires watermark < U64 && |made| < U16 && FitsMachine(s)
    ensures var saved := Save(crc, objects, name, made, watermark, s);
            && saved.Some?
            && Load(crc, saved.value, name, asked) == (if made == asked then Some((s, watermark)) else None)
            && forall other :: other != name ==> Load(crc, saved.value, other, asked) == Load(crc, objects, other, asked)
  {
    FrameBinds(crc, made, watermark, EncSnapshot(s), asked);
    SnapshotRoundTrip(s);
  }

  const ANN_OBJECT: Text := [97, 110, 110]
  const IVF_SUFFIX: Text := [46, 105, 118, 102]

  function SegmentObject(name: Text): Text {
    name + IVF_SUFFIX
  }

  function SaveSegment(crc: Text -> Crc, objects: map<Text, Text>, slot: SegmentSlot, dim: Word,
                       distance: KMeans.Distance, cfg: Config, s: Snapshot): (saved: Option<map<Text, Text>>)
    ensures saved.Some? ==> saved.value.Keys == objects.Keys + {slot.name + [46, 105, 118, 102]}
  {
    Save(crc, objects, SegmentObject(slot.name), SegmentKey(slot, dim, distance, cfg), slot.rows, s)
  }

  /** A payload that is not a set of inverted lists is treated as no cache. */
  function LoadSegment(crc: Text -> Crc, objects: map<Text, Text>, slot: SegmentSlot, dim: Word,
                       distance: KMeans.Distance, cfg: Config): Option<Snapshot>
  {
    match Load(crc, objects, SegmentObject(slot.name), SegmentKey(slot, dim, distance, cfg))
    case None => None
    case Some((s, _)) => if s.InvertedLists? then Some(s) else None
  }

  lemma SegmentObjectsDistinct(a: Text, b: Text)
    requires SegmentObject(a) == SegmentObject(b)
    ensures a == b
  {
    assert a == SegmentObject(a)[..|SegmentObject(a)| - 4];
    assert b == SegmentObject(b)[..|SegmentObject(b)| - 4];
  }

  /** One segment's saved lists come back for exactly the row range, metric, seed and sizes they were
      built for, and never for another segment. */
  lemma SegmentBinding(crc: Text -> Crc, objects: map<Text, Text>, s: Snapshot,
                                          a: SegmentSlot, dimA: Word, distA: KMeans.Distance, cfgA: Config,
                                          b: SegmentSlot, dimB: Word, distB: KMeans.Distance, cfgB: Config)
    requires FitsMachine(s) && |SegmentKey(a, dimA, distA, cfgA)| < U16
    ensures var saved := SaveSegment(crc, objects, a, dimA, distA, cfgA, s);
            && saved.Some?
            && (a.name != b.name ==>
                  LoadSegment(crc, saved.value, b, dimB, distB, cfgB) == LoadSegment(crc, objects, b, dimB, distB, cfgB))
            && (a.name == b.name ==>
                  LoadSegment(crc, saved.value, b, dimB, distB, cfgB)
                  == (if s.InvertedLists? && a == b && distA == distB && cfgA.seed == cfgB.seed
                        && dimA % U32 == dimB % U32 && cfgA.nLists % U32 == cfgB.nLists % U32
                     then Some(s) else None))
  {
    hide Load, Save, SegmentKey, FitsMachine;
    LoadAfterSave(crc, objects, SegmentObject(a.name), SegmentKey(a, dimA, distA, cfgA), a.rows, s,
                  SegmentKey(b, dimB, distB, cfgB));
    SegmentKeysAgree(a, dimA, distA, cfgA, b, dimB, distB, cfgB);
    if a.name != b.name && SegmentObject(a.name) == SegmentObject(b.name) {
      SegmentObjectsDistinct(a.name, b.name);
    }
  }

  ghost function SnapshotOf(g: HnswIndex.HnswGraph): Snapshot
    reads g
  {
    Graph(g.rows, g.links, g.entry, g.maxLevel)
  }

  // ---------- Inverted lists ----------

  /** 32-bit floats as reals: the pattern of a number and the number of a pattern. */
  datatype Floats = Floats(pattern: real -> nat, value: nat -> real)

  /** The centroids one after the other, as the source keeps them. */
  function Flat(cents: seq<Vec>): seq<real> {
    if cents == [] then [] else cents[0] + Flat(cents[1..])
  }

  /** ... and cut apart again; a remainder is no centroid. */
  function Cut(flat: seq<real>, dim: nat): seq<Vec>
    decreases |flat|
  {
    var step := if dim >= 1 then dim else 1;
    if |flat| < step then [] else [flat[..dim]] + Cut(flat[step..], dim)
  }

  /** Without a dimension every number counts for a centroid of its own. */
  lemma {:induction false} CutWithoutDimension(flat: seq<real>)
    ensures |Cut(flat, 0)| == |flat|
  {
    if flat != [] {
      CutWithoutDimension(flat[1..]);
    }
  }

  lemma {:induction false} CutFlat(cents: seq<Vec>, dim: nat)
    requires (forall c :: 0 <= c < |cents| ==> |cents[c]| == dim) && (dim == 0 ==> cents == [])
    ensures Cut(Flat(cents), dim) == cents
  {
    if cents != [] {
      var flat := Flat(cents);
      assert flat[..dim] == cents[0] && flat[dim..] == Flat(cents[1..]);
      CutFlat(cents[1..], dim);
      assert cents == [cents[0]] + cents[1..];
    }
  }

  function Patterns(fl: Floats, xs: seq<real>): seq<nat> {
    if xs == [] then [] else [fl.pattern(xs[0])] + Patterns(fl, xs[1..])
  }

  function Values(fl: Floats, ps: seq<nat>): seq<real> {
    if ps == [] then [] else [fl.value(ps[0])] + Values(fl, ps[1..])
  }

  /** Every coordinate is a float: 32 bits hold it exactly. */
  ghost predicate Exactly(fl: Floats, xs: seq<real>) {
    forall x :: x in xs ==> fl.pattern(x) < U32 && fl.value(fl.pattern(x)) == x
  }

  lemma {:induction false} ValuesOfPatterns(fl: Floats, xs: seq<real>)
    requires Exactly(fl, xs)
    ensures Values(fl, Patterns(fl, xs)) == xs
  {
    if xs != [] {
      ValuesOfPatterns(fl, xs[1..]);
      assert xs[0] in xs && forall x :: x in xs[1..] ==> x in xs;
      var ps := Patterns(fl, xs);
      assert ps[1..] == Patterns(fl, xs[1..]) && ps[0] == fl.pattern(xs[0]);
      assert fl.value(ps[0]) == xs[0];
      assert Values(fl, ps) == [xs[0]] + xs[1..];
      assert xs == [xs[0]] + xs[1..];
    }
  }

  ghost function ListsSnapshot(fl: Floats, ix: Ivf.IvfIndex): Snapshot
    reads ix
  {
    InvertedLists(Patterns(fl, Flat(ix.centroids)), ix.lists)
  }

  // ---------- Whole indexes ----------

  /** Loads the cached index, if the object is there and opens under this configuration's key: a graph or
      inverted lists, whichever was stored. What it loads is as good as what was stored. */
  method LoadIndex(crc: Text -> Crc, objects: map<Text, Text>, fl: Floats, space: KMeans.Space, cfg: Config, quant: Quant)
    returns (graph: HnswIndex.HnswGraph?, lists: Ivf.IvfIndex?, covered: nat)
    requires space.Valid() && space.dim < 0x1_0000_0000_0000_0000
    ensures var found := Load(crc, objects, [97, 110, 110], ValidityKey(space.dim, space.distance, cfg, quant));
            && (found.None? ==> covered == 0)
            && (graph == null <==> found.None? || found.value.0.InvertedLists?)
            && (lists == null <==> found.None? || found.value.0.Graph?)
            && (graph != null ==>
                  && fresh(graph) && SnapshotOf(graph) == found.value.0 && covered == found.value.1
                  && graph.dim == space.dim && graph.efSearch == Hnsw.Max(cfg.efSearch, 1)
                  && graph.m == Hnsw.Max(cfg.m, 1) && graph.efConstruction == Hnsw.Max(cfg.efConstruction, 1)
                  && (graph.Valid() <==> HnswIndex.Navigable(graph.rows, graph.links, graph.entry, graph.maxLevel)))
            && (lists != null ==>
                  && fresh(lists) && covered == found.value.1 && lists.space == space && lists.nProbe == Hnsw.Max(cfg.nProbe, 1)
                  && lists.centroids == Cut(Values(fl, found.value.0.centroids), space.dim)
                  && lists.lists == found.value.0.lists && lists.listsConfigured == cfg.nLists && lists.seed == cfg.seed
                  && (lists.Valid() <==> KMeans.Fits(space, lists.centroids) && Ivf.Filed(space, lists.centroids, lists.lists)
                                         && (space.dim == 0 ==> lists.centroids == [])))
  {
    graph, lists, covered := null, null, 0;
    var found := Load(crc, objects, ANN_OBJECT, ValidityKey(space.dim, space.distance, cfg, quant));
    if found.None? {
      return;
    }
    var s := found.value.0;
    covered := found.value.1;
    if s.Graph? {
      graph := new HnswIndex.HnswGraph.FromParts(space.dim, cfg.m, cfg.efConstruction, cfg.efSearch,
                                                 s.rows, s.links, s.entry, s.maxLevel);
    } else {
      lists := new Ivf.IvfIndex.FromParts(space, cfg.nLists, cfg.nProbe, cfg.seed,
                                          Cut(Values(fl, s.centroids), space.dim), s.lists);
    }
  }

  /** A saved graph comes back under every configuration that shares its key, whatever its query
      tunables, and under no other: same rows, links, entry and levels, so every search contract reads
      the same on it. */
  method SaveAndReload(crc: Text -> Crc, objects: map<Text, Text>, fl: Floats, g: HnswIndex.HnswGraph, covered: Word,
                       space: KMeans.Space, saved: Config, asked: Config, quant: Quant)
    returns (loaded: HnswIndex.HnswGraph?, rows: nat)
    requires g.Valid() && FitsMachine(SnapshotOf(g)) && space.Valid() && space.dim < 0x1_0000_0000_0000_0000
    ensures loaded == null <==>
      ValidityKey(space.dim, space.distance, saved, quant) != ValidityKey(space.dim, space.distance, asked, quant)
    ensures loaded != null ==>
      && fresh(loaded) && loaded.Valid() && SnapshotOf(loaded) == SnapshotOf(g) && rows == covered
      && loaded.dim == space.dim && loaded.efSearch == Hnsw.Max(asked.efSearch, 1)
      && loaded.m == Hnsw.Max(asked.m, 1) && loaded.efConstruction == Hnsw.Max(asked.efConstruction, 1)
  {
    var made := ValidityKey(space.dim, space.distance, saved, quant);
    var key := ValidityKey(space.dim, space.distance, asked, quant);
    var snapshot := Graph(g.rows, g.links, g.entry, g.maxLevel);
    var after := Save(crc, objects, ANN_OBJECT, made, covered, snapshot);
    LoadAfterSave(crc, objects, ANN_OBJECT, made, covered, snapshot, key);
    var none;
    loaded, none, rows := LoadIndex(crc, after.value, fl, space, asked, quant);
  }

  /** So do saved inverted lists: same centroids and lists, so a query reads the same on them. */
  method SaveAndReloadLists(crc: Text -> Crc, objects: map<Text, Text>, fl: Floats, ix: Ivf.IvfIndex, covered: Word,
                            saved: Config, asked: Config, quant: Quant)
    returns (loaded: Ivf.IvfIndex?, rows: nat)
    requires ix.Valid() && FitsMachine(ListsSnapshot(fl, ix)) && Exactly(fl, Flat(ix.centroids))
    requires ix.space.dim < 0x1_0000_0000_0000_0000
    ensures loaded == null <==>
      ValidityKey(ix.space.dim, ix.space.distance, saved, quant) != ValidityKey(ix.space.dim, ix.space.distance, asked, quant)
    ensures loaded != null ==>
      && fresh(loaded) && loaded.Valid() && loaded.centroids == ix.centroids && loaded.lists == ix.lists
      && rows == covered && loaded.space == ix.space && loaded.nProbe == Hnsw.Max(asked.nProbe, 1)
      && loaded.listsConfigured == asked.nLists && loaded.seed == asked.seed
  {
    var made := ValidityKey(ix.space.dim, ix.space.distance, saved, quant);
    var key := ValidityKey(ix.space.dim, ix.space.distance, asked, quant);
    var snapshot := InvertedLists(Patterns(fl, Flat(ix.centroids)), ix.lists);
    var after := Save(crc, objects, ANN_OBJECT, made, covered, snapshot);
    LoadAfterSave(crc, objects, ANN_OBJECT, made, covered, snapshot, key);
    ValuesOfPatterns(fl, Flat(ix.centroids));
    CutFlat(ix.centroids, ix.space.dim);
    var none;
    none, loaded, rows := LoadIndex(crc, after.value, fl, ix.space, asked, quant);
  }
}
