/** The deterministic PRNG behind level draws, centroid seeding and query sampling. */
module SplitMix {
  import opened Division

  const U64: nat := 0x1_0000_0000_0000_0000
  const GOLDEN: nat := 0x9E37_79B9_7F4A_7C15

  /** Bitwise exclusive or. */
  function Xor(a: nat, b: nat): nat {
    if a == 0 && b == 0 then 0 else 2 * Xor(a / 2, b / 2) + (a % 2 + b % 2) % 2
  }

  /** One stirring round: fold the high bits down, multiply within 64 bits. */
  function Stir(z: nat, shift: nat, factor: nat): nat
    requires shift > 0
  {
    Xor(z, z / shift) * factor % U64
  }

  function Mixed(s: nat): nat {
    var z := Stir(Stir(s, 0x4000_0000, 0xBF58_476D_1CE4_E5B9), 0x800_0000, 0x94D0_49BB_1331_11EB);
    Xor(z, z / 0x8000_0000)
  }

  function Advanced(s: nat): nat {
    (s + GOLDEN) % U64
  }

  function Reduce(z: nat, n: nat): (r: nat)
    requires n > 0
    ensures r < n && z == z / n * n + r
  {
    z % n
  }

  // ---------- The generator runs backwards ----------

  lemma {:induction false} XorZero(a: nat)
    ensures Xor(a, 0) == a && Xor(0, a) == a
  {
    if a > 0 {
      XorZero(a / 2);
    }
  }

  lemma {:induction false} XorSame(a: nat)
    ensures Xor(a, a) == 0
  {
    if a > 0 {
      XorSame(a / 2);
    }
  }

  lemma BitAndRest(n: nat, high: nat, low: nat)
    requires n == 2 * high + low && low < 2
    ensures n / 2 == high && n % 2 == low
  {
  }

  function BitXor(x: nat, y: nat): nat {
    (x + y) % 2
  }

  /** One bit and the rest. */
  lemma XorBits(a: nat, b: nat)
    ensures Xor(a, b) / 2 == Xor(a / 2, b / 2) && Xor(a, b) % 2 == BitXor(a % 2, b % 2)
  {
    var high, low := Xor(a / 2, b / 2), (a % 2 + b % 2) % 2;
    assert Xor(a, b) == 2 * high + low;
    BitAndRest(Xor(a, b), high, low);
  }

  lemma BitsAssociate(x: nat, y: nat, z: nat)
    requires x < 2 && y < 2 && z < 2
    ensures BitXor(BitXor(x, y), z) == BitXor(x, BitXor(y, z))
  {
  }

  lemma {:induction false} XorAssociates(a: nat, b: nat, c: nat)
    ensures Xor(Xor(a, b), c) == Xor(a, Xor(b, c))
    decreases a + b + c
  {
    if a + b + c > 0 {
      XorAssociates(a / 2, b / 2, c / 2);
      hide Xor, BitXor;
      XorBits(a, b);
      XorBits(b, c);
      XorBits(Xor(a, b), c);
      XorBits(a, Xor(b, c));
      BitsAssociate(a % 2, b % 2, c % 2);
      SameBits(Xor(Xor(a, b), c), Xor(a, Xor(b, c)));
    }
  }

  lemma SameBits(x: nat, y: nat)
    requires x / 2 == y / 2 && x % 2 == y % 2
    ensures x == y
  {
  }

  function Pow2(k: nat): (p: nat)
    ensures p >= 1
  {
    if k == 0 then 1 else 2 * Pow2(k - 1)
  }

  function Shifted(a: nat, k: nat): nat {
    if k == 0 then a else Shifted(a, k - 1) / 2
  }

  /** Exclusive or is taken bit by bit, so it shifts with its operands. */
  lemma {:induction false} XorShifts(a: nat, b: nat, k: nat)
    ensures Shifted(Xor(a, b), k) == Xor(Shifted(a, k), Shifted(b, k))
  {
    hide Xor;
    if k > 0 {
      XorShifts(a, b, k - 1);
      XorBits(Shifted(a, k - 1), Shifted(b, k - 1));
    }
  }

  /** Shifting right divides. */
  lemma {:induction false} ShiftDivides(a: nat, k: nat)
    ensures Shifted(a, k) == a / Pow2(k)
  {
    if k > 0 {
      ShiftDivides(a, k - 1);
      HalfLast(a, Pow2(k - 1));
    }
  }

  lemma {:induction false} XorBelow(a: nat, b: nat, k: nat)
    requires a < Pow2(k) && b < Pow2(k)
    ensures Xor(a, b) < Pow2(k)
  {
    if k > 0 {
      XorBelow(a / 2, b / 2, k - 1);
      XorBits(a, b);
    }
  }

  lemma {:induction false} ShiftsAdd(a: nat, j: nat, k: nat)
    ensures Shifted(Shifted(a, j), k) == Shifted(a, j + k)
  {
    if k > 0 {
      ShiftsAdd(a, j, k - 1);
    }
  }

  lemma HalfLast(a: nat, p: nat)
    requires p >= 1
    ensures a / (2 * p) == a / p / 2
  {
    var q, r := a / p / 2, a / p % 2;
    assert a / p == 2 * q + r;
    assert a == (2 * q + r) * p + a % p;
    assert (2 * q + r) * p == q * (2 * p) + r * p;
    assert r * p + a % p < 2 * p;
    DivisionUnique(a, 2 * p, q, r * p + a % p);
  }

  lemma ShiftedOut(a: nat, k: nat)
    requires a < Pow2(k)
    ensures Shifted(a, k) == 0
  {
    ShiftDivides(a, k);
    DivisionUnique(a, Pow2(k), 0, a);
  }

  lemma {:induction false} Pow2Grows(j: nat, k: nat)
    requires j <= k
    ensures Pow2(j) <= Pow2(k)
    decreases k
  {
    if j < k {
      Pow2Grows(j, k - 1);
    }
  }

  lemma Cancels(x: nat, a: nat, b: nat)
    ensures Xor(Xor(Xor(x, a), Xor(a, b)), b) == x
  {
    XorAssociates(Xor(x, a), Xor(a, b), b);
    XorAssociates(a, b, b);
    XorSame(b);
    XorZero(a);
    XorAssociates(x, a, a);
    XorSame(a);
    XorZero(x);
  }

  /** A word folded onto its own high bits is unfolded by two more folds, if three shifts empty it. */
  lemma Unfolds(x: nat, k: nat)
    requires x < Pow2(64) && 3 * k >= 64
    ensures var y := Xor(x, Shifted(x, k)); Xor(Xor(y, Shifted(y, k)), Shifted(y, 2 * k)) == x && y < Pow2(64)
  {
    hide Xor, Pow2, Shifted;
    var a, b := Shifted(x, k), Shifted(x, 2 * k);
    var y := Xor(x, a);
    XorShifts(x, a, k);
    ShiftsAdd(x, k, k);
    XorShifts(x, a, 2 * k);
    ShiftsAdd(x, k, 2 * k);
    Pow2Grows(64, 3 * k);
    ShiftedOut(x, 3 * k);
    XorZero(b);
    Cancels(x, a, b);
    ShiftShrinks(x, k);
    XorBelow(x, a, 64);
  }

  lemma {:induction false} ShiftShrinks(a: nat, k: nat)
    ensures Shifted(a, k) <= a
  {
    if k > 0 {
      ShiftShrinks(a, k - 1);
    }
  }

  /** Multiplying by an inverse undoes a multiplication. */
  lemma MultipliesBack(y: nat, factor: nat, inverse: nat)
    requires y < U64 && factor * inverse % U64 == 1
    ensures (y * factor % U64) * inverse % U64 == y
  {
    var q, r := y * factor / U64, y * factor % U64;
    var t := factor * inverse / U64;
    assert factor * inverse == t * U64 + 1;
    assert y * factor == q * U64 + r;
    assert r * inverse == (y * factor - q * U64) * inverse;
    assert (y * factor) * inverse == y * (factor * inverse) == y * t * U64 + y;
    assert (q * U64) * inverse == q * inverse * U64;
    DivisionUnique(r * inverse, U64, y * t - q * inverse, y);
  }

  /** Undoes one fold and, before it, one multiplication. */
  function Unstir(w: nat, shift: nat, twice: nat, inverse: nat): nat
    requires shift > 0 && twice > 0
  {
    var y := w * inverse % U64;
    Xor(Xor(y, y / shift), y / twice)
  }

  function Unmixed(z: nat): nat {
    var w := Xor(Xor(z, z / 0x8000_0000), z / 0x4000_0000_0000_0000);
    Unstir(Unstir(w, 0x800_0000, 0x40_0000_0000_0000, 0x3196_42B2_D24D_8EC3),
           0x4000_0000, 0x1000_0000_0000_0000, 0x96DE_1B17_3F11_9089)
  }

  lemma Powers()
    ensures Pow2(27) == 0x800_0000 && Pow2(30) == 0x4000_0000 && Pow2(31) == 0x8000_0000
    ensures Pow2(54) == 0x40_0000_0000_0000 && Pow2(60) == 0x1000_0000_0000_0000 && Pow2(62) == 0x4000_0000_0000_0000
    ensures Pow2(64) == U64
  {
    assert Pow2(10) == 0x400;
    assert Pow2(20) == 0x10_0000;
    assert Pow2(27) == 0x800_0000;
    assert Pow2(31) == 0x8000_0000;
    assert Pow2(41) == 0x200_0000_0000;
    assert Pow2(51) == 0x8_0000_0000_0000;
    assert Pow2(54) == 0x40_0000_0000_0000;
  }

  lemma StirUndone(z: nat, k: nat, factor: nat, inverse: nat)
    requires z < U64 && 3 * k >= 64 && Pow2(64) == U64 && factor * inverse % U64 == 1
    ensures Stir(z, Pow2(k), factor) < U64
    ensures Unstir(Stir(z, Pow2(k), factor), Pow2(k), Pow2(2 * k), inverse) == z
  {
    hide Xor, Pow2, Shifted;
    ShiftDivides(z, k);
    var y := Xor(z, Shifted(z, k));
    ShiftDivides(y, k);
    ShiftDivides(y, 2 * k);
    Unfolds(z, k);
    MultipliesBack(Xor(z, Shifted(z, k)), factor, inverse);
  }

  /** No two states give the same draw: the draw determines the state. */
  lemma DrawsAreDistinct(s: nat)
    requires s < 0x1_0000_0000_0000_0000
    ensures Unmixed(Mixed(s)) == s
  {
    Powers();
    hide Xor, Pow2, Unstir, Stir, Shifted;
    StirUndone(s, 30, 0xBF58_476D_1CE4_E5B9, 0x96DE_1B17_3F11_9089);
    var z := Stir(s, 0x4000_0000, 0xBF58_476D_1CE4_E5B9);
    StirUndone(z, 27, 0x94D0_49BB_1331_11EB, 0x3196_42B2_D24D_8EC3);
    var w := Stir(z, 0x800_0000, 0x94D0_49BB_1331_11EB);
    var y := Xor(w, Shifted(w, 31));
    ShiftDivides(w, 31);
    ShiftDivides(y, 31);
    ShiftDivides(y, 62);
    Unfolds(w, 31);
  }

  /** ... and no two states are followed by the same one. */
  lemma StatesGoBack(s: nat)
    requires s < 0x1_0000_0000_0000_0000
    ensures (Advanced(s) + 0x61C8_8646_80B5_83EB) % 0x1_0000_0000_0000_0000 == s
  {
  }

  class SplitMix64 {
    var state: nat

    constructor (seed: nat)
      ensures state == seed
    {
      state := seed;
    }

    method NextU64() returns (z: nat)
      modifies this
      ensures state == Advanced(old(state)) && z == Mixed(state)
    {
      state := Advanced(state);
      z := Stir(state, 0x4000_0000, 0xBF58_476D_1CE4_E5B9);
      z := Stir(z, 0x800_0000, 0x94D0_49BB_1331_11EB);
      z := Xor(z, z / 0x8000_0000);
    }

    method Below(n: nat) returns (r: nat)
      requires n > 0
      modifies this
      ensures r < n
      ensures state == Advanced(old(state)) && r == Reduce(Mixed(state), n)
    {
      var z := NextU64();
      r := Reduce(z, n);
    }
  }

  /** Fisher-Yates over positions `i` to `take`, drawing from generator state `s`. */
  function Shuffled<T>(xs: seq<T>, i: nat, take: nat, s: nat): (out: seq<T>)
    requires i <= take <= |xs|
    ensures |out| == |xs|
    decreases take - i
  {
    if i == take then xs
    else
      var j := i + Reduce(Mixed(Advanced(s)), |xs| - i);
      Shuffled(xs[i := xs[j]][j := xs[i]], i + 1, take, Advanced(s))
  }

  lemma SwapKeepsMembers<T>(xs: seq<T>, i: nat, j: nat)
    requires i < |xs| && j < |xs|
    ensures multiset(xs[i := xs[j]][j := xs[i]]) == multiset(xs)
  {
  }

  /** Whatever is drawn, a shuffle rearranges: its prefix holds distinct positions of the original. */
  lemma {:induction false} ShuffleRearranges<T>(xs: seq<T>, i: nat, take: nat, s: nat)
    requires i <= take <= |xs|
    ensures multiset(Shuffled(xs, i, take, s)) == multiset(xs)
    decreases take - i
  {
    if i < take {
      var j := i + Reduce(Mixed(Advanced(s)), |xs| - i);
      SwapKeepsMembers(xs, i, j);
      ShuffleRearranges(xs[i := xs[j]][j := xs[i]], i + 1, take, Advanced(s));
    }
  }

  /** Position `i` gets the entry one draw picks among those not placed yet; what was there takes its place, and
      the rest is shuffled on from the next state. */
  lemma {:induction false} ShufflePlaces<T>(xs: seq<T>, i: nat, take: nat, s: nat)
    requires i <= take <= |xs|
    ensures Shuffled(xs, i, take, s)[..i] == xs[..i]
    ensures i < take ==>
      var next := (s + 0x9E37_79B9_7F4A_7C15) % 0x1_0000_0000_0000_0000;
      var j := i + Mixed(next) % (|xs| - i);
      && j < |xs| && Shuffled(xs, i, take, s)[i] == xs[j]
      && Shuffled(xs, i, take, s) == Shuffled(xs[i := xs[j]][j := xs[i]], i + 1, take, next)
    decreases take - i
  {
    hide Mixed;
    if i < take {
      var j := i + Reduce(Mixed(Advanced(s)), |xs| - i);
      var ys := xs[i := xs[j]][j := xs[i]];
      ShufflePlaces(ys, i + 1, take, Advanced(s));
      assert ys[i] == xs[j];
      var out := Shuffled(ys, i + 1, take, Advanced(s));
      assert out[..i + 1][i] == ys[..i + 1][i];
      assert out[..i] == out[..i + 1][..i] == ys[..i + 1][..i] == ys[..i] == xs[..i];
    }
  }

  /** One draw, as the shuffle's definition has it. */
  method SwapDrawn<T>(a: array<T>, i: nat, rng: SplitMix64) returns (ghost j: nat)
    requires i < a.Length
    modifies a, rng
    ensures rng.state == Advanced(old(rng.state))
    ensures j == i + Reduce(Mixed(rng.state), a.Length - i) && j < a.Length
    ensures a[..] == old(a[..])[i := old(a[..])[j]][j := old(a[..])[i]]
  {
    var d := rng.Below(a.Length - i);
    var k := i + d;
    j := k;
    a[i], a[k] := a[k], a[i];
  }

  /** Shuffles the first `take` positions in place. */
  method ShufflePrefix<T>(a: array<T>, take: nat, rng: SplitMix64)
    requires take <= a.Length
    modifies a, rng
    ensures a[..] == Shuffled(old(a[..]), 0, take, old(rng.state))
    ensures multiset(a[..]) == old(multiset(a[..]))
  {
    hide Xor, Mixed, Advanced, Reduce;
    var i := 0;
    while i < take
      invariant 0 <= i <= take
      invariant Shuffled(a[..], i, take, rng.state) == Shuffled(old(a[..]), 0, take, old(rng.state))
    {
      ghost var j := SwapDrawn(a, i, rng);
      i := i + 1;
    }
    ShuffleRearranges(old(a[..]), 0, take, old(rng.state));
  }
}
