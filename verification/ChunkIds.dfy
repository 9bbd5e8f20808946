/** Chunk record ids, "{parent}#{index}": injective although a parent may itself contain '#'. */
module ChunkIds {
  import opened Lex

  const HASH: Byte := 35

  lemma {:induction false} DecimalInjective(a: nat, b: nat)
    requires Decimal(a) == Decimal(b)
    ensures a == b
  {
    var d, e := Decimal(a), Decimal(b);
    assert d[|d| - 1] == ZERO + a % 10 && e[|e| - 1] == ZERO + b % 10;
    if a >= 10 {
      assert d[..|d| - 1] == Decimal(a / 10) && e[..|e| - 1] == Decimal(b / 10);
      DecimalInjective(a / 10, b / 10);
    }
  }

  function ChunkId(parent: Text, index: nat): Text {
    parent + [HASH] + Decimal(index)
  }

  /** The parent, a hash sign (byte 35), and the index in decimal: its last digit is `index % 10`, and what comes
      before it is the id of `index / 10`. */
  lemma ChunkIdForm(parent: Text, index: nat)
    ensures var id := ChunkId(parent, index);
      && |id| >= |parent| + 2 && id[..|parent|] == parent && id[|parent|] == 35
      && id[|id| - 1] == 48 + index % 10
      && (index < 10 ==> |id| == |parent| + 2)
      && (index >= 10 ==> id[..|id| - 1] == ChunkId(parent, index / 10))
  {
    var d := Decimal(index);
    assert d[|d| - 1] == ZERO + index % 10;
    if index >= 10 {
      assert d[..|d| - 1] == Decimal(index / 10);
    }
  }

  /** The last '#' of an id is the separator. */
  lemma LastHash(p: Text, i: nat)
    ensures ChunkId(p, i)[|p|] == HASH
    ensures forall k :: |p| < k < |ChunkId(p, i)| ==> ChunkId(p, i)[k] != HASH
  {
    var id, digits := ChunkId(p, i), Decimal(i);
    forall k | |p| < k < |id|
      ensures id[k] != HASH
    {
      assert id[k] == digits[k - |p| - 1];
      assert digits[k - |p| - 1] in digits;
    }
  }

  /** The id form determines parent and index, whatever characters the parent holds. */
  lemma ChunkIdInjective(p: Text, i: nat, q: Text, j: nat)
    ensures ChunkId(p, i) == ChunkId(q, j) <==> p == q && i == j
  {
    if ChunkId(p, i) == ChunkId(q, j) {
      LastHash(p, i);
      LastHash(q, j);
      assert p == ChunkId(p, i)[..|p|] && q == ChunkId(q, j)[..|q|];
      assert Decimal(i) == ChunkId(p, i)[|p| + 1..] && Decimal(j) == ChunkId(q, j)[|q| + 1..];
      DecimalInjective(i, j);
    }
  }
}
