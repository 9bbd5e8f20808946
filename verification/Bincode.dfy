/** Little-endian integers and the length-prefixed layout the durable formats are written in. */
module Bincode {
  import opened Division
  import opened Lex

  datatype Parsed<T> = Fail | Ok(value: T, rest: Text)

  function Pow256(n: nat): nat {
    if n == 0 then 1 else 256 * Pow256(n - 1)
  }

  /** The low `width` bytes of `n`, least significant first: wider values are truncated. */
  function Le(n: nat, width: nat): (b: Text)
    ensures |b| == width
  {
    if width == 0 then [] else [n % 256] + Le(n / 256, width - 1)
  }

  function LeValue(b: Text): nat {
    if b == [] then 0 else b[0] + 256 * LeValue(b[1..])
  }

  lemma {:induction false} LeTruncates(n: nat, width: nat)
    ensures Pow256(width) > 0 && LeValue(Le(n, width)) == n % Pow256(width)
  {
    if width > 0 {
      LeTruncates(n / 256, width - 1);
      assert Le(n, width)[1..] == Le(n / 256, width - 1);
      ModDigits(n, Pow256(width - 1));
    }
  }

  lemma ModDigits(n: nat, p: nat)
    requires p > 0
    ensures n % (256 * p) == n % 256 + 256 * (n / 256 % p)
  {
    var q, r := n / 256 / p, n / 256 % p;
    assert n / 256 == q * p + r;
    assert n == 256 * (q * p + r) + n % 256;
    assert n == q * (256 * p) + (256 * r + n % 256);
    DivisionUnique(n, 256 * p, q, 256 * r + n % 256);
  }

  /** An integer field round-trips exactly when it fits its width. */
  lemma LeRoundTrip(n: nat, width: nat)
    ensures LeValue(Le(n, width)) == n <==> n < Pow256(width)
  {
    LeTruncates(n, width);
    if n < Pow256(width) {
      DivisionUnique(n, Pow256(width), 0, n);
    }
  }

  /** Two integers share a field's bytes exactly when they agree modulo its range. */
  lemma LeCollides(a: nat, b: nat, width: nat)
    ensures Pow256(width) > 0
    ensures Le(a, width) == Le(b, width) <==> a % Pow256(width) == b % Pow256(width)
  {
    LeTruncates(a, width);
    LeTruncates(b, width);
    if a % Pow256(width) == b % Pow256(width) {
      LeValueInjective(Le(a, width), Le(b, width));
    }
  }

  lemma {:induction false} LeValueInjective(a: Text, b: Text)
    requires |a| == |b| && LeValue(a) == LeValue(b)
    ensures a == b
  {
    if a != [] {
      assert a[0] == b[0] && LeValue(a[1..]) == LeValue(b[1..]);
      LeValueInjective(a[1..], b[1..]);
      assert a == [a[0]] + a[1..] && b == [b[0]] + b[1..];
    }
  }

  lemma LowDigit(digit: nat, high: nat)
    requires digit < 256
    ensures (digit + 256 * high) % 256 == digit && (digit + 256 * high) / 256 == high
  {
  }

  lemma DigitBelow(digit: nat, high: nat, bound: nat)
    requires digit < 256 && high < bound
    ensures digit + 256 * high < 256 * bound
  {
  }

  /** Bytes are recovered from their value and their number. */
  lemma {:induction false} LeRebuilds(b: Text)
    ensures LeValue(b) < Pow256(|b|) && Le(LeValue(b), |b|) == b
  {
    if b != [] {
      var digit, high := b[0], LeValue(b[1..]);
      LeRebuilds(b[1..]);
      LowDigit(digit, high);
      DigitBelow(digit, high, Pow256(|b| - 1));
      assert b == [digit] + b[1..];
    }
  }

  // ---------- Fields and vectors ----------

  function DecInt(width: nat, b: Text): Parsed<nat> {
    if |b| < width then Fail else Ok(LeValue(b[..width]), b[width..])
  }

  lemma IntInverts(n: nat, width: nat, rest: Text)
    requires n < Pow256(width)
    ensures DecInt(width, Le(n, width) + rest) == Ok(n, rest)
  {
    LeRoundTrip(n, width);
    var b := Le(n, width) + rest;
    assert b[..width] == Le(n, width) && b[width..] == rest;
  }

  function EncMany<T>(enc: T -> Text, xs: seq<T>): Text {
    if xs == [] then [] else enc(xs[0]) + EncMany(enc, xs[1..])
  }

  function DecMany<T>(dec: Text -> Parsed<T>, n: nat, b: Text): Parsed<seq<T>> {
    if n == 0 then Ok([], b)
    else match dec(b)
      case Fail => Fail
      case Ok(x, rest) =>
        match DecMany(dec, n - 1, rest)
        case Fail => Fail
        case Ok(xs, end) => Ok([x] + xs, end)
  }

  /** `dec` reads back what `enc` wrote for `x`, whatever follows. */
  ghost predicate Inverts<T(!new)>(enc: T -> Text, dec: Text -> Parsed<T>, x: T) {
    forall rest :: dec(enc(x) + rest) == Ok(x, rest)
  }

  lemma {:induction false} ManyInverts<T(!new)>(enc: T -> Text, dec: Text -> Parsed<T>, xs: seq<T>, rest: Text)
    requires forall x :: x in xs ==> Inverts(enc, dec, x)
    ensures DecMany(dec, |xs|, EncMany(enc, xs) + rest) == Ok(xs, rest)
  {
    if xs == [] {
      assert EncMany(enc, xs) + rest == rest;
    } else {
      assert EncMany(enc, xs) + rest == enc(xs[0]) + (EncMany(enc, xs[1..]) + rest);
      assert Inverts(enc, dec, xs[0]);
      ManyInverts(enc, dec, xs[1..], rest);
      assert [xs[0]] + xs[1..] == xs;
    }
  }

  /** A 64-bit count, then the elements. */
  function EncVec<T>(enc: T -> Text, xs: seq<T>): Text {
    Le(|xs|, 8) + EncMany(enc, xs)
  }

  function DecVec<T>(dec: Text -> Parsed<T>, b: Text): Parsed<seq<T>> {
    match DecInt(8, b)
    case Fail => Fail
    case Ok(n, rest) => DecMany(dec, n, rest)
  }

  lemma VecInverts<T(!new)>(enc: T -> Text, dec: Text -> Parsed<T>, xs: seq<T>, rest: Text)
    requires |xs| < Pow256(8) && forall x :: x in xs ==> Inverts(enc, dec, x)
    ensures DecVec(dec, EncVec(enc, xs) + rest) == Ok(xs, rest)
  {
    assert EncVec(enc, xs) + rest == Le(|xs|, 8) + (EncMany(enc, xs) + rest);
    IntInverts(|xs|, 8, EncMany(enc, xs) + rest);
    ManyInverts(enc, dec, xs, rest);
  }

  // ---------- Text and ordered maps ----------

  function EncText(t: Text): Text {
    Le(|t|, 8) + t
  }

  function DecText(b: Text): Parsed<Text> {
    match DecInt(8, b)
    case Fail => Fail
    case Ok(n, rest) => if |rest| < n then Fail else Ok(rest[..n], rest[n..])
  }

  lemma TextInverts(t: Text, rest: Text)
    requires |t| < Pow256(8)
    ensures DecText(EncText(t) + rest) == Ok(t, rest)
  {
    assert EncText(t) + rest == Le(|t|, 8) + (t + rest);
    IntInverts(|t|, 8, t + rest);
    assert (t + rest)[..|t|] == t && (t + rest)[|t|..] == rest;
  }

  predicate IsLeast(k: Text, keys: set<Text>) {
    k in keys && forall j :: j in keys && j != k ==> Less(k, j)
  }

  lemma LeastExists(keys: set<Text>)
    requires keys != {}
    ensures exists k :: IsLeast(k, keys)
    decreases keys
  {
    var x :| x in keys;
    if keys == {x} {
      assert IsLeast(x, keys);
    } else {
      LeastExists(keys - {x});
      var y :| IsLeast(y, keys - {x});
      LessTotal(x, y);
      var k := if Less(x, y) then x else y;
      forall j | j in keys && j != k
        ensures Less(k, j)
      {
        if k == x && j != y {
          LessTransitive(x, y, j);
        }
      }
      assert IsLeast(k, keys);
    }
  }

  lemma LeastUnique(a: Text, b: Text, keys: set<Text>)
    requires IsLeast(a, keys) && IsLeast(b, keys)
    ensures a == b
  {
    if a != b {
      LessAsymmetric(a, b);
    }
  }

  function Least(keys: set<Text>): (k: Text)
    requires keys != {}
    ensures IsLeast(k, keys)
  {
    LeastExists(keys);
    assert forall a, b :: IsLeast(a, keys) && IsLeast(b, keys) ==> a == b by {
      forall a, b | IsLeast(a, keys) && IsLeast(b, keys)
        ensures a == b
      {
        LeastUnique(a, b, keys);
      }
    }
    var k :| k in keys && IsLeast(k, keys);
    k
  }

  lemma WithoutKey(m: map<Text, nat>, k: Text)
    requires k in m
    ensures |m - {k}| == |m| - 1
  {
    assert (m - {k}).Keys == m.Keys - {k};
  }

  lemma WithKey(m: map<Text, nat>, k: Text)
    requires k in m
    ensures map[k := m[k]] + (m - {k}) == m
  {
  }

  /** A map's entries in ascending key order. */
  function Entries(m: map<Text, nat>): (es: seq<(Text, nat)>)
    ensures |es| == |m|
    ensures forall e :: e in es ==> e.0 in m && m[e.0] == e.1
    decreases |m|
  {
    if m == map[] then []
    else
      var k := Least(m.Keys);
      WithoutKey(m, k);
      [(k, m[k])] + Entries(m - {k})
  }

  /** Inserting entries in order: the last entry of a key wins. */
  function FromEntries(es: seq<(Text, nat)>): map<Text, nat> {
    if es == [] then map[] else map[es[0].0 := es[0].1] + FromEntries(es[1..])
  }

  lemma FromEntriesCons(e: (Text, nat), es: seq<(Text, nat)>)
    ensures FromEntries([e] + es) == map[e.0 := e.1] + FromEntries(es)
  {
    assert ([e] + es)[1..] == es;
  }

  lemma {:induction false} EntriesRebuild(m: map<Text, nat>)
    ensures FromEntries(Entries(m)) == m
    decreases |m|
  {
    if m != map[] {
      var k := Least(m.Keys);
      WithoutKey(m, k);
      WithKey(m, k);
      EntriesRebuild(m - {k});
      FromEntriesCons((k, m[k]), Entries(m - {k}));
    }
  }

  function EncEntry(e: (Text, nat)): Text {
    EncText(e.0) + Le(e.1, 4)
  }

  function DecEntry(b: Text): Parsed<(Text, nat)> {
    match DecText(b)
    case Fail => Fail
    case Ok(k, rest) =>
      match DecInt(4, rest)
      case Fail => Fail
      case Ok(v, end) => Ok((k, v), end)
  }

  ghost predicate Encodable(m: map<Text, nat>) {
    |m| < Pow256(8) && forall k :: k in m ==> |k| < Pow256(8) && m[k] < Pow256(4)
  }

  lemma EntryInverts(e: (Text, nat))
    requires |e.0| < Pow256(8) && e.1 < Pow256(4)
    ensures Inverts(EncEntry, DecEntry, e)
  {
    forall rest
      ensures DecEntry(EncEntry(e) + rest) == Ok(e, rest)
    {
      assert EncEntry(e) + rest == EncText(e.0) + (Le(e.1, 4) + rest);
      TextInverts(e.0, Le(e.1, 4) + rest);
      IntInverts(e.1, 4, rest);
    }
  }

  function EncMap(m: map<Text, nat>): Text {
    EncVec(EncEntry, Entries(m))
  }

  /** Bytes after the last entry are ignored. */
  function DecMap(b: Text): Parsed<map<Text, nat>> {
    match DecVec(DecEntry, b)
    case Fail => Fail
    case Ok(es, rest) => Ok(FromEntries(es), rest)
  }

  lemma MapInverts(m: map<Text, nat>, rest: Text)
    requires Encodable(m)
    ensures DecMap(EncMap(m) + rest) == Ok(m, rest)
  {
    var es := Entries(m);
    forall e | e in es
      ensures Inverts(EncEntry, DecEntry, e)
    {
      EntryInverts(e);
    }
    VecInverts(EncEntry, DecEntry, es, rest);
    EntriesRebuild(m);
  }

  ghost predicate Ascending(es: seq<(Text, nat)>) {
    forall i, j :: 0 <= i < j < |es| ==> Less(es[i].0, es[j].0)
  }

  lemma AscendingCons(e: (Text, nat), es: seq<(Text, nat)>)
    requires Ascending(es) && forall x :: x in es ==> Less(e.0, x.0)
    ensures Ascending([e] + es)
  {
    var all := [e] + es;
    forall i, j | 0 <= i < j < |all|
      ensures Less(all[i].0, all[j].0)
    {
      assert all[j] == es[j - 1];
      if i > 0 {
        assert all[i] == es[i - 1];
      }
    }
  }

  /** Entries come out in strictly ascending key order. */
  lemma {:induction false} EntriesAscend(m: map<Text, nat>)
    ensures Ascending(Entries(m))
    decreases |m|
  {
    if m != map[] {
      var k := Least(m.Keys);
      WithoutKey(m, k);
      EntriesAscend(m - {k});
      forall e | e in Entries(m - {k})
        ensures Less(k, e.0)
      {
        assert e.0 in m.Keys && e.0 != k;
      }
      AscendingCons((k, m[k]), Entries(m - {k}));
    }
  }

  lemma {:induction false} EntriesCover(m: map<Text, nat>, key: Text)
    requires key in m
    ensures (key, m[key]) in Entries(m)
    decreases |m|
  {
    var k := Least(m.Keys);
    WithoutKey(m, k);
    if key != k {
      EntriesCover(m - {k}, key);
    }
  }

  // ---------- Encoded size ----------

  /** Bytes the entries of `keys` take: two length-tagged fields each. */
  ghost function KeyBytes(keys: set<Text>): nat {
    if keys == {} then 0
    else
      var k := Least(keys);
      12 + |k| + KeyBytes(keys - {k})
  }

  lemma {:induction false} KeyBytesWithout(keys: set<Text>, x: Text)
    requires x in keys
    ensures KeyBytes(keys) == 12 + |x| + KeyBytes(keys - {x})
  {
    var k := Least(keys);
    if x != k {
      KeyBytesWithout(keys - {k}, x);
      assert IsLeast(k, keys - {x});
      LeastUnique(k, Least(keys - {x}), keys - {x});
      assert keys - {k} - {x} == keys - {x} - {k};
    }
  }

  lemma {:induction false} ManyBytes(m: map<Text, nat>)
    ensures |EncMany(EncEntry, Entries(m))| == KeyBytes(m.Keys)
    decreases |m|
  {
    if m != map[] {
      var k := Least(m.Keys);
      WithoutKey(m, k);
      ManyBytes(m - {k});
      assert (m - {k}).Keys == m.Keys - {k};
      assert Entries(m)[1..] == Entries(m - {k});
    }
  }

  /** The encoding depends in length on the keys alone, and each key adds its own bytes to it. */
  lemma MapBytes(m: map<Text, nat>)
    ensures |EncMap(m)| == 8 + KeyBytes(m.Keys)
  {
    ManyBytes(m);
  }

  lemma {:induction false} KeyBytesBounds(m: map<Text, nat>)
    ensures |m| <= KeyBytes(m.Keys)
    ensures forall k :: k in m ==> |k| <= KeyBytes(m.Keys)
    decreases |m|
  {
    if m != map[] {
      var k := Least(m.Keys);
      WithoutKey(m, k);
      assert (m - {k}).Keys == m.Keys - {k};
      KeyBytesBounds(m - {k});
      forall j | j in m
        ensures |j| <= KeyBytes(m.Keys)
      {
        if j != k {
          assert j in m - {k};
        }
      }
    }
  }

  // ---------- What a decoded map can hold ----------

  /** Bytes a list of entries takes. */
  ghost function EntryBytes(es: seq<(Text, nat)>): nat {
    if es == [] then 0 else 12 + |es[0].0| + EntryBytes(es[1..])
  }

  lemma EntryMeasured(b: Text)
    requires DecEntry(b).Ok?
    ensures var e := DecEntry(b).value; e.1 < Pow256(4) && |b| == 12 + |e.0| + |DecEntry(b).rest|
  {
    var rest := DecText(b).rest;
    LeRebuilds(rest[..4]);
  }

  lemma {:induction false} ManyMeasured(n: nat, b: Text)
    requires DecMany(DecEntry, n, b).Ok?
    ensures var es := DecMany(DecEntry, n, b).value;
            && |b| == EntryBytes(es) + |DecMany(DecEntry, n, b).rest|
            && forall e :: e in es ==> e.1 < Pow256(4)
  {
    if n > 0 {
      EntryMeasured(b);
      var e, rest := DecEntry(b).value, DecEntry(b).rest;
      ManyMeasured(n - 1, rest);
      var es := DecMany(DecEntry, n - 1, rest).value;
      assert ([e] + es)[1..] == es;
    }
  }

  /** A repeated key is stored once, so the map takes no more bytes than its entries did. */
  lemma {:induction false} FromEntriesBytes(es: seq<(Text, nat)>)
    ensures KeyBytes(FromEntries(es).Keys) <= EntryBytes(es)
    ensures forall k :: k in FromEntries(es) ==> exists e :: e in es && e.1 == FromEntries(es)[k]
  {
    if es != [] {
      var k, tail := es[0].0, FromEntries(es[1..]);
      FromEntriesBytes(es[1..]);
      var all := FromEntries(es).Keys;
      assert all == tail.Keys + {k};
      if k in tail {
        assert all == tail.Keys;
      } else {
        KeyBytesWithout(all, k);
        assert all - {k} == tail.Keys;
      }
    }
  }

  /** Whatever bytes a map was decoded from, encoding it takes no more of them. */
  lemma MapMeasured(b: Text)
    requires DecMap(b).Ok?
    ensures |EncMap(DecMap(b).value)| <= |b|
    ensures forall k :: k in DecMap(b).value ==> DecMap(b).value[k] < Pow256(4)
  {
    var n, rest := DecInt(8, b).value, DecInt(8, b).rest;
    ManyMeasured(n, rest);
    var es := DecMany(DecEntry, n, rest).value;
    FromEntriesBytes(es);
    MapBytes(FromEntries(es));
  }

  // ---------- Exactly what is read ----------

  /** Least significant byte first. */
  lemma LittleEndian(a: Byte, b: Byte, c: Byte, d: Byte)
    ensures Le(a + 0x100 * b + 0x1_0000 * c + 0x100_0000 * d, 4) == [a, b, c, d]
  {
    var n := a + 0x100 * b + 0x1_0000 * c + 0x100_0000 * d;
    assert n / 256 == b + 0x100 * c + 0x1_0000 * d && n % 256 == a;
    assert n / 256 / 256 == c + 0x100 * d && n / 256 / 256 / 256 == d && n / 256 / 256 / 256 / 256 == 0;
    assert Le(n, 4) == [a] + Le(n / 256, 3);
    assert Le(n / 256, 3) == [b] + Le(n / 256 / 256, 2);
    assert Le(n / 256 / 256, 2) == [c] + Le(d, 1);
  }

  lemma IntExact(width: nat, b: Text, n: nat, rest: Text)
    ensures DecInt(width, b) == Ok(n, rest) <==> n < Pow256(width) && b == Le(n, width) + rest
  {
    if DecInt(width, b) == Ok(n, rest) {
      LeRebuilds(b[..width]);
      assert b == b[..width] + b[width..];
    } else if n < Pow256(width) && b == Le(n, width) + rest {
      IntInverts(n, width, rest);
    }
  }

  lemma TextReads(b: Text, t: Text, rest: Text)
    requires DecText(b) == Ok(t, rest)
    ensures |t| < Pow256(8) && b == EncText(t) + rest
  {
    hide Le, LeValue, Pow256;
    var n, more := DecInt(8, b).value, DecInt(8, b).rest;
    IntExact(8, b, n, more);
    assert more == t + rest && |t| == n;
    assert b == EncText(t) + rest;
  }

  ghost predicate EntryFits(e: (Text, nat)) {
    |e.0| < Pow256(8) && e.1 < Pow256(4)
  }

  lemma EntryReads(b: Text, e: (Text, nat), rest: Text)
    requires DecEntry(b) == Ok(e, rest)
    ensures EntryFits(e) && b == EncEntry(e) + rest
  {
    hide DecText, DecInt, EncText, Le, Pow256;
    var more := DecText(b).rest;
    TextReads(b, e.0, more);
    IntExact(4, more, e.1, rest);
    assert EncText(e.0) + (Le(e.1, 4) + rest) == EncEntry(e) + rest;
  }

  lemma {:induction false} EntriesRead(n: nat, b: Text, es: seq<(Text, nat)>, rest: Text)
    requires DecMany(DecEntry, n, b) == Ok(es, rest)
    ensures |es| == n && (forall e :: e in es ==> EntryFits(e)) && b == EncMany(EncEntry, es) + rest
  {
    hide EntryFits, EncEntry, DecEntry;
    if n > 0 {
      var e, more := DecEntry(b).value, DecEntry(b).rest;
      EntryReads(b, e, more);
      var tail := DecMany(DecEntry, n - 1, more).value;
      EntriesRead(n - 1, more, tail, rest);
      assert es == [e] + tail && es[1..] == tail;
      assert EncMany(EncEntry, es) == EncEntry(e) + EncMany(EncEntry, tail);
      assert EncEntry(e) + (EncMany(EncEntry, tail) + rest) == EncMany(EncEntry, es) + rest;
    } else {
      assert EncMany(EncEntry, es) + rest == rest;
    }
  }

  lemma EntriesWritten(es: seq<(Text, nat)>, rest: Text)
    requires forall e :: e in es ==> EntryFits(e)
    ensures DecMany(DecEntry, |es|, EncMany(EncEntry, es) + rest) == Ok(es, rest)
  {
    forall e | e in es
      ensures Inverts(EncEntry, DecEntry, e)
    {
      EntryInverts(e);
    }
    ManyInverts(EncEntry, DecEntry, es, rest);
  }

  /** `es` is what a map's bytes list, `rest` what follows them. */
  ghost predicate ListedAs(b: Text, es: seq<(Text, nat)>, rest: Text) {
    && |es| < Pow256(8) && (forall e :: e in es ==> EntryFits(e))
    && b == Le(|es|, 8) + (EncMany(EncEntry, es) + rest)
  }

  /** A map is read exactly from a count and that many entries, in any order and with repeats. */
  lemma MapExact(b: Text, m: map<Text, nat>, rest: Text)
    ensures DecMap(b) == Ok(m, rest) <==> exists es :: ListedAs(b, es, rest) && m == FromEntries(es)
  {
    hide DecInt, Le, Pow256, EncMany, DecMany;
    if DecMap(b) == Ok(m, rest) {
      var n, more := DecInt(8, b).value, DecInt(8, b).rest;
      var es := DecMany(DecEntry, n, more).value;
      IntExact(8, b, n, more);
      EntriesRead(n, more, es, rest);
      assert ListedAs(b, es, rest);
    }
    if es :| ListedAs(b, es, rest) && m == FromEntries(es) {
      IntExact(8, b, |es|, EncMany(EncEntry, es) + rest);
      EntriesWritten(es, rest);
    }
  }

  /** Of entries that repeat a key the last one counts. */
  lemma {:induction false} LastEntryCounts(es: seq<(Text, nat)>, i: nat)
    requires i < |es| && forall j :: i < j < |es| ==> es[j].0 != es[i].0
    ensures es[i].0 in FromEntries(es) && FromEntries(es)[es[i].0] == es[i].1
  {
    if i > 0 {
      LastEntryCounts(es[1..], i - 1);
    } else {
      NoSuchEntry(es[1..], es[0].0);
    }
  }

  lemma {:induction false} NoSuchEntry(es: seq<(Text, nat)>, k: Text)
    requires forall e :: e in es ==> e.0 != k
    ensures k !in FromEntries(es)
  {
    if es != [] {
      NoSuchEntry(es[1..], k);
    }
  }
}
