/** The durable side of the OPFS handle pool: slots written through a cache, what a crash can leave
    of them, and the directory stored in slot 0. */
module OpfsDisk {
  import opened Options
  import opened Lex
  import opened Bincode

  const U32: nat := 0x1_0000_0000

  type Crc = n: nat | n < 0x1_0000_0000

  // ---------- Slots ----------

  /** One call on a slot's handle. Writes always start at offset 0. */
  datatype Step = WriteAt(slot: nat, bytes: Text) | Truncate(slot: nat, size: nat) | Flush(slot: nat)

  function Apply(b: Text, st: Step): Text {
    match st
    case WriteAt(_, x) => if |x| < |b| then x + b[|x|..] else x
    case Truncate(_, n) => if n < |b| then b[..n] else b
    case Flush(_) => b
  }

  function ApplyAll(b: Text, steps: seq<Step>): Text
    decreases |steps|
  {
    if steps == [] then b else ApplyAll(Apply(b, steps[0]), steps[1..])
  }

  /** A slot: the bytes the last flush made durable, and the calls made since. */
  datatype Slot = Slot(durable: Text, pending: seq<Step>) {
    function Live(): Text {
      ApplyAll(durable, pending)
    }
  }

  function After(disk: seq<Slot>, st: Step): (d: seq<Slot>)
    ensures |d| == |disk|
  {
    if st.slot >= |disk| then disk
    else if st.Flush? then disk[st.slot := Slot(disk[st.slot].Live(), [])]
    else disk[st.slot := Slot(disk[st.slot].durable, disk[st.slot].pending + [st])]
  }

  function AfterAll(disk: seq<Slot>, steps: seq<Step>): (d: seq<Slot>)
    ensures |d| == |disk|
    decreases |steps|
  {
    if steps == [] then disk else AfterAll(After(disk, steps[0]), steps[1..])
  }

  lemma {:induction false} AfterConcat(disk: seq<Slot>, a: seq<Step>, b: seq<Step>)
    ensures AfterAll(disk, a + b) == AfterAll(AfterAll(disk, a), b)
    decreases |a|
  {
    if a == [] {
      assert a + b == b;
    } else {
      AfterConcat(After(disk, a[0]), a[1..], b);
      assert (a + b)[1..] == a[1..] + b;
    }
  }

  /** A crash keeps what was flushed and, of the later calls, the first few. */
  ghost predicate Survives(s: Slot, b: Text) {
    exists k :: 0 <= k <= |s.pending| && b == ApplyAll(s.durable, s.pending[..k])
  }

  ghost predicate Crash(disk: seq<Slot>, bytes: seq<Text>) {
    |bytes| == |disk| && forall i :: 0 <= i < |disk| ==> Survives(disk[i], bytes[i])
  }

  ghost predicate Quiet(disk: seq<Slot>) {
    forall i :: 0 <= i < |disk| ==> disk[i].pending == []
  }

  lemma QuietSurvives(s: Slot, b: Text)
    requires s.pending == []
    ensures Survives(s, b) <==> b == s.durable
  {
    assert s.pending[..0] == [];
    assert ApplyAll(s.durable, []) == s.durable;
  }

  // ---------- Rewriting a whole slot ----------

  function Rewrite(t: nat, b: Text): seq<Step> {
    [WriteAt(t, b), Truncate(t, |b|), Flush(t)]
  }

  /** The old bytes overwritten but not yet cut to the new length. */
  function Torn(prior: Text, b: Text): Text {
    if |b| < |prior| then b + prior[|b|..] else b
  }

  lemma RewriteApplies(t: nat, d: Text, b: Text)
    ensures ApplyAll(d, [WriteAt(t, b)]) == Torn(d, b)
    ensures ApplyAll(d, [WriteAt(t, b), Truncate(t, |b|)]) == b
  {
    var w, c := WriteAt(t, b), Truncate(t, |b|);
    assert [w][1..] == [] && [w, c][1..] == [c] && [c][1..] == [];
    assert ApplyAll(d, [w]) == Apply(d, w);
    assert ApplyAll(d, [w, c]) == ApplyAll(Apply(d, w), [c]) == Apply(Apply(d, w), c);
  }

  /** The disk after the first `i` calls of a rewrite of slot `t`. */
  function Rewritten(disk: seq<Slot>, t: nat, b: Text, i: nat): seq<Slot>
    requires t < |disk| && i <= 3
  {
    if i == 0 then disk
    else if i == 1 then disk[t := Slot(disk[t].durable, [WriteAt(t, b)])]
    else if i == 2 then disk[t := Slot(disk[t].durable, [WriteAt(t, b), Truncate(t, |b|)])]
    else disk[t := Slot(b, [])]
  }

  lemma RewriteStep(disk: seq<Slot>, t: nat, b: Text, i: nat)
    requires t < |disk| && disk[t].pending == [] && i < 3
    ensures After(Rewritten(disk, t, b, i), Rewrite(t, b)[i]) == Rewritten(disk, t, b, i + 1)
  {
    var w, c := WriteAt(t, b), Truncate(t, |b|);
    if i == 0 {
      assert [] + [w] == [w];
    } else if i == 1 {
      assert [w] + [c] == [w, c];
    } else {
      RewriteApplies(t, disk[t].durable, b);
    }
  }

  lemma {:induction false} RewriteSteps(disk: seq<Slot>, t: nat, b: Text, i: nat)
    requires t < |disk| && disk[t].pending == [] && i <= 3
    ensures AfterAll(disk, Rewrite(t, b)[..i]) == Rewritten(disk, t, b, i)
  {
    var steps := Rewrite(t, b);
    if i > 0 {
      RewriteSteps(disk, t, b, i - 1);
      RewriteStep(disk, t, b, i - 1);
      AfterOneMore(disk, steps, i - 1);
    }
  }

  lemma AfterOneMore(disk: seq<Slot>, steps: seq<Step>, i: nat)
    requires i < |steps|
    ensures AfterAll(disk, steps[..i + 1]) == After(AfterAll(disk, steps[..i]), steps[i])
  {
    assert steps[..i + 1] == steps[..i] + [steps[i]];
    AfterConcat(disk, steps[..i], [steps[i]]);
    OneStep(AfterAll(disk, steps[..i]), steps[i]);
  }

  lemma OneStep(disk: seq<Slot>, st: Step)
    ensures AfterAll(disk, [st]) == After(disk, st)
  {
    assert [st][1..] == [];
    assert AfterAll(After(disk, st), []) == After(disk, st);
  }

  /** Whatever a crash leaves of a slot under rewrite is the old bytes, the new bytes, or the torn
      overlap of the two; before the first call it is the old bytes, after the last the new. */
  lemma RewriteSurvivors(disk: seq<Slot>, t: nat, b: Text, i: nat, x: Text)
    requires t < |disk| && disk[t].pending == [] && i <= 3
    requires Survives(Rewritten(disk, t, b, i)[t], x)
    ensures x == disk[t].durable || x == Torn(disk[t].durable, b) || x == b
    ensures i == 0 ==> x == disk[t].durable
    ensures i == 3 ==> x == b
  {
    var s := Rewritten(disk, t, b, i)[t];
    var k :| 0 <= k <= |s.pending| && x == ApplyAll(s.durable, s.pending[..k]);
    RewriteApplies(t, disk[t].durable, b);
    if k == 0 {
      assert s.pending[..k] == [];
    } else if k == 1 {
      assert s.pending[..k] == [WriteAt(t, b)];
    } else {
      assert s.pending[..k] == [WriteAt(t, b), Truncate(t, |b|)];
    }
  }

  // ---------- The directory ----------

  /** Length, payload, checksum; a payload of 4 GiB or more has no encoding. */
  function EncodeDir(crc: Text -> Crc, dir: map<Text, nat>): Option<Text> {
    var payload := EncMap(dir);
    if |payload| >= U32 then None
    else Some(Le(|payload|, 4) + payload + Le(crc(payload), 4))
  }

  function DecodeDir(crc: Text -> Crc, b: Text): Option<map<Text, nat>> {
    if b == [] then Some(map[])
    else if |b| < 8 then None
    else if |b| != 8 + LeValue(b[..4]) then None
    else
      var payload := b[4..|b| - 4];
      if crc(payload) != LeValue(b[|b| - 4..]) then None
      else match DecMap(payload)
        case Fail => None
        case Ok(dir, _) => Some(dir)
  }

  lemma U32IsFourBytes()
    ensures Pow256(4) == U32 && Pow256(8) == U32 * U32
  {
    assert Pow256(2) == 256 * (256 * Pow256(0));
    assert Pow256(4) == 256 * (256 * Pow256(2));
    assert Pow256(6) == 256 * (256 * Pow256(4));
    assert Pow256(8) == 256 * (256 * Pow256(6));
  }

  ghost predicate SlotsFit(dir: map<Text, nat>) {
    forall k :: k in dir ==> dir[k] < U32
  }

  lemma SmallIsEncodable(dir: map<Text, nat>)
    requires SlotsFit(dir) && |EncMap(dir)| < U32
    ensures Encodable(dir)
  {
    MapBytes(dir);
    KeyBytesBounds(dir);
    U32IsFourBytes();
  }

  lemma Framing(head: Text, payload: Text, tail: Text)
    requires |head| == 4 && |tail| == 4
    ensures var b := head + payload + tail;
            |b| == 8 + |payload| && b[..4] == head && b[4..|b| - 4] == payload && b[|b| - 4..] == tail
  {
  }

  /** A directory that has an encoding is read back unchanged. */
  lemma DirRoundTrip(crc: Text -> Crc, dir: map<Text, nat>)
    requires SlotsFit(dir) && EncodeDir(crc, dir).Some?
    ensures DecodeDir(crc, EncodeDir(crc, dir).value) == Some(dir)
  {
    var payload := EncMap(dir);
    SmallIsEncodable(dir);
    U32IsFourBytes();
    LeRoundTrip(|payload|, 4);
    LeRoundTrip(crc(payload), 4);
    Framing(Le(|payload|, 4), payload, Le(crc(payload), 4));
    MapReadsBack(dir);
  }

  lemma MapReadsBack(dir: map<Text, nat>)
    requires Encodable(dir)
    ensures DecMap(EncMap(dir)) == Ok(dir, [])
  {
    MapInverts(dir, []);
    assert EncMap(dir) + [] == EncMap(dir);
  }

  /** `payload` framed by its length and checksum. */
  ghost predicate FramedAs(crc: Text -> Crc, b: Text, payload: Text) {
    |payload| < 0x1_0000_0000 && b == Le(|payload|, 4) + payload + Le(crc(payload), 4)
  }

  /** Exactly what reads as a directory: an empty slot as the empty one, and otherwise the length, the bytes of
      a map and their checksum. */
  lemma DecodeDirIff(crc: Text -> Crc, b: Text, dir: map<Text, nat>)
    ensures DecodeDir(crc, b) == Some(dir)
       <==> || (b == [] && dir == map[])
            || exists payload :: FramedAs(crc, b, payload) && DecMap(payload).Ok? && DecMap(payload).value == dir
  {
    hide DecMap, Le;
    if DecodeDir(crc, b) == Some(dir) && b != [] {
      DirectoryReadAs(crc, b);
      assert FramedAs(crc, b, b[4..|b| - 4]);
    }
    if payload :| FramedAs(crc, b, payload) && DecMap(payload).Ok? && DecMap(payload).value == dir {
      FramedDecodes(crc, b, payload);
    }
  }

  lemma DirectoryReadAs(crc: Text -> Crc, b: Text)
    requires b != [] && DecodeDir(crc, b).Some?
    ensures |b| >= 8 && FramedAs(crc, b, b[4..|b| - 4])
  {
    U32IsFourBytes();
    LeRebuilds(b[..4]);
    LeRebuilds(b[|b| - 4..]);
    assert b == b[..4] + b[4..|b| - 4] + b[|b| - 4..];
  }

  lemma FramedDecodes(crc: Text -> Crc, b: Text, payload: Text)
    requires FramedAs(crc, b, payload) && DecMap(payload).Ok?
    ensures b != [] && DecodeDir(crc, b) == Some(DecMap(payload).value)
  {
    U32IsFourBytes();
    LeRoundTrip(|payload|, 4);
    LeRoundTrip(crc(payload), 4);
    Framing(Le(|payload|, 4), payload, Le(crc(payload), 4));
  }

  /** A directory that was read from a slot can be written back. */
  lemma DecodedIsEncodable(crc: Text -> Crc, b: Text)
    requires DecodeDir(crc, b).Some?
    ensures SlotsFit(DecodeDir(crc, b).value) && EncodeDir(crc, DecodeDir(crc, b).value).Some?
  {
    U32IsFourBytes();
    if b == [] {
      MapBytes(map[]);
    } else {
      LeRebuilds(b[..4]);
      MapMeasured(b[4..|b| - 4]);
    }
  }

  /** An encoding with old bytes left behind it is never taken for a directory. */
  lemma TornIsDetected(crc: Text -> Crc, dir: map<Text, nat>, prior: Text)
    requires EncodeDir(crc, dir).Some? && |EncodeDir(crc, dir).value| < |prior|
    ensures DecodeDir(crc, Torn(prior, EncodeDir(crc, dir).value)) == None
  {
    var payload := EncMap(dir);
    var e := EncodeDir(crc, dir).value;
    var b := Torn(prior, e);
    U32IsFourBytes();
    LeRoundTrip(|payload|, 4);
    assert b[..4] == Le(|payload|, 4);
  }

  /** The encoding's length depends on the keys alone and grows with each. */
  lemma EncodingGrows(crc: Text -> Crc, dir: map<Text, nat>, key: Text, slot: nat)
    requires EncodeDir(crc, dir).Some? && EncodeDir(crc, dir[key := slot]).Some?
    ensures |EncodeDir(crc, dir[key := slot]).value|
         == |EncodeDir(crc, dir).value| + if key in dir then 0 else 12 + |key|
  {
    MapBytes(dir);
    MapBytes(dir[key := slot]);
    if key in dir {
      assert dir[key := slot].Keys == dir.Keys;
    } else {
      assert dir[key := slot].Keys - {key} == dir.Keys;
      KeyBytesWithout(dir[key := slot].Keys, key);
    }
  }

  lemma EncodingShrinks(crc: Text -> Crc, dir: map<Text, nat>, key: Text)
    requires key in dir && EncodeDir(crc, dir).Some?
    ensures EncodeDir(crc, dir - {key}).Some?
    ensures |EncodeDir(crc, dir).value| == |EncodeDir(crc, dir - {key}).value| + 12 + |key|
  {
    MapBytes(dir);
    MapBytes(dir - {key});
    assert (dir - {key}).Keys == dir.Keys - {key};
    KeyBytesWithout(dir.Keys, key);
  }
}
