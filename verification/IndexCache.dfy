/** The derived-cache frame: it binds a payload to a validity key and a watermark. */
module IndexCache {
  import opened Options
  import opened Lex
  import opened Bincode
  import opened OpfsDisk

  const U16: nat := 0x1_0000
  const U64: nat := 0x1_0000_0000_0000_0000
  const MAGIC: Text := [78, 73, 68, 85, 83, 0]
  const VERSION: nat := 1
  const FIXED: nat := 18

  // ---------- The frame ----------

  /** Magic, version, watermark, key length, key, payload, checksum. */
  function Frame(crc: Text -> Crc, key: Text, watermark: nat, payload: Text): Option<Text> {
    if |key| >= U16 then None
    else Some(MAGIC + Le(VERSION, 2) + Le(watermark, 8) + Le(|key|, 2) + key + payload + Le(crc(payload), 4))
  }

  /** The payload and watermark of a frame made for `key`; anything else reads as no cache. */
  function Unframe(crc: Text -> Crc, b: Text, key: Text): Option<(Text, nat)> {
    if |b| < FIXED then None
    else if b[..6] != MAGIC || b[6..8] != Le(VERSION, 2) then None
    else
      var watermark := LeValue(b[8..16]);
      var header := FIXED + LeValue(b[16..18]);
      if |b| < header + 4 then None
      else if b[FIXED..header] != key then None
      else
        var payload := b[header..|b| - 4];
        if crc(payload) != LeValue(b[|b| - 4..]) then None
        else Some((payload, watermark))
  }

  lemma Widths()
    ensures Pow256(2) == U16 && Pow256(4) == U32 && Pow256(8) == U64
  {
    U32IsFourBytes();
    assert Pow256(2) == 256 * (256 * Pow256(0));
  }

  /** The seven fields of a frame sit where the decoder looks for them. */
  lemma FrameFields(magic: Text, version: Text, mark: Text, len: Text, key: Text, payload: Text, sum: Text)
    requires |magic| == 6 && |version| == 2 && |mark| == 8 && |len| == 2 && |sum| == 4
    ensures var b := magic + version + mark + len + key + payload + sum;
            && |b| == 22 + |key| + |payload|
            && b[..6] == magic && b[6..8] == version && b[8..16] == mark && b[16..18] == len
            && b[18..18 + |key|] == key && b[18 + |key|..|b| - 4] == payload && b[|b| - 4..] == sum
  {
  }

  /** A frame byte by byte: the six bytes `NIDUS` and zero, version one, then the fields. */
  lemma FrameLayout(crc: Text -> Crc, key: Text, watermark: nat, payload: Text)
    requires |key| < 0x1_0000 && watermark < 0x1_0000_0000_0000_0000
    ensures Frame(crc, key, watermark, payload).Some?
    ensures var b := Frame(crc, key, watermark, payload).value;
      && |b| == 22 + |key| + |payload| && b[..8] == [78, 73, 68, 85, 83, 0, 1, 0]
      && LeValue(b[8..16]) == watermark && LeValue(b[16..18]) == |key| && b[18..18 + |key|] == key
      && b[18 + |key|..|b| - 4] == payload && LeValue(b[|b| - 4..]) == crc(payload)
  {
    FrameFields(MAGIC, Le(VERSION, 2), Le(watermark, 8), Le(|key|, 2), key, payload, Le(crc(payload), 4));
    Widths();
    LeRoundTrip(watermark, 8);
    LeRoundTrip(|key|, 2);
    LeRoundTrip(crc(payload), 4);
    assert Le(1, 2) == [1] + Le(0, 1);
    var b := Frame(crc, key, watermark, payload).value;
    assert b[..8] == b[..6] + b[6..8];
  }

  lemma FrameSplit(b: Text, n: nat)
    requires 22 + n <= |b|
    ensures b == b[..6] + b[6..8] + b[8..16] + b[16..18] + b[18..18 + n] + b[18 + n..|b| - 4] + b[|b| - 4..]
  {
  }

  /** A frame is opened by the key it was made for, and by no other. */
  lemma FrameBinds(crc: Text -> Crc, made: Text, watermark: nat, payload: Text, asked: Text)
    requires watermark < U64 && |made| < U16
    ensures Unframe(crc, Frame(crc, made, watermark, payload).value, asked)
         == if made == asked then Some((payload, watermark)) else None
  {
    FrameFields(MAGIC, Le(VERSION, 2), Le(watermark, 8), Le(|made|, 2), made, payload, Le(crc(payload), 4));
    Widths();
    LeRoundTrip(watermark, 8);
    LeRoundTrip(|made|, 2);
    LeRoundTrip(crc(payload), 4);
  }

  /** Nothing but a frame made for the key is ever opened by it. */
  lemma OnlyFramesOpen(crc: Text -> Crc, b: Text, key: Text, payload: Text, watermark: nat)
    requires watermark < U64
    ensures Unframe(crc, b, key) == Some((payload, watermark))
       <==> Frame(crc, key, watermark, payload) == Some(b)
  {
    Widths();
    if Unframe(crc, b, key) == Some((payload, watermark)) {
      LeRebuilds(b[16..18]);
      LeRebuilds(b[8..16]);
      LeRebuilds(b[|b| - 4..]);
      FrameSplit(b, |key|);
    }
    if Frame(crc, key, watermark, payload) == Some(b) {
      FrameBinds(crc, key, watermark, payload, key);
    }
  }

  /** Appends the fields one by one; what it builds is opened by this key and by no other. */
  method BuildFrame(crc: Text -> Crc, key: Text, watermark: nat, payload: Text) returns (frame: Option<Text>)
    ensures frame == Frame(crc, key, watermark, payload)
    ensures frame == None <==> |key| >= 0x1_0000
    ensures frame.Some? && watermark < U64 ==>
      forall asked :: Unframe(crc, frame.value, asked) == if asked == key then Some((payload, watermark)) else None
  {
    if |key| >= U16 {
      return None;
    }
    var out: Text := [];
    out := out + MAGIC;
    out := out + Le(VERSION, 2);
    out := out + Le(watermark, 8);
    out := out + Le(|key|, 2);
    out := out + key;
    out := out + payload;
    out := out + Le(crc(payload), 4);
    assert [] + MAGIC == MAGIC;
    if watermark < U64 {
      forall asked
        ensures Unframe(crc, out, asked) == if asked == key then Some((payload, watermark)) else None
      {
        FrameBinds(crc, key, watermark, payload, asked);
      }
    }
    return Some(out);
  }
}
