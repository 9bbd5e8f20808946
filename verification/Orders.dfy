/** Lists in strict order: how one entry is added, and why their members determine them. */
module Orders {
  import opened Counting
  import opened Lex

  ghost predicate StrictOrder<T(!new)>(before: (T, T) -> bool) {
    && (forall x, y :: before(x, y) ==> !before(y, x))
    && forall x, y, z :: before(x, y) && before(y, z) ==> before(x, z)
  }

  ghost predicate Ordered<T>(xs: seq<T>, before: (T, T) -> bool) {
    forall i, j :: 0 <= i < j < |xs| ==> before(xs[i], xs[j])
  }

  // ---------- Members determine the list ----------

  lemma HeadFirst<T(!new)>(a: seq<T>, x: T, before: (T, T) -> bool)
    requires Ordered(a, before) && x in a
    ensures x == a[0] || before(a[0], x)
  {
    var i :| 0 <= i < |a| && a[i] == x;
    assert i > 0 ==> before(a[0], a[i]);
  }

  lemma SameHead<T(!new)>(a: seq<T>, b: seq<T>, before: (T, T) -> bool)
    requires StrictOrder(before) && Ordered(a, before) && Ordered(b, before)
    requires a != [] && b != [] && a[0] in b && b[0] in a
    ensures a[0] == b[0]
  {
    HeadFirst(a, b[0], before);
    HeadFirst(b, a[0], before);
  }

  lemma TailMembers<T(!new)>(a: seq<T>, before: (T, T) -> bool)
    requires StrictOrder(before) && Ordered(a, before) && a != []
    ensures Ordered(a[1..], before)
    ensures forall x :: x in a[1..] <==> x in a && x != a[0]
  {
    var tail := a[1..];
    forall i | 0 <= i < |tail|
      ensures tail[i] != a[0]
    {
      assert before(a[0], a[i + 1]);
    }
    assert a == [a[0]] + tail;
  }

  lemma HasMember<T>(xs: seq<T>)
    requires xs != []
    ensures exists x :: x in xs
  {
    assert xs[0] in xs;
  }

  /** Two ordered lists of the same members are the same list. */
  lemma {:induction false} SameMembersSameOrder<T(!new)>(a: seq<T>, b: seq<T>, before: (T, T) -> bool)
    requires StrictOrder(before) && Ordered(a, before) && Ordered(b, before)
    requires forall x :: x in a <==> x in b
    ensures a == b
    decreases |a|
  {
    if a == [] {
      if b != [] {
        HasMember(b);
      }
    } else {
      assert a[0] in b;
      assert b[0] in a;
      SameHead(a, b, before);
      TailMembers(a, before);
      TailMembers(b, before);
      SameMembersSameOrder(a[1..], b[1..], before);
      assert a == [a[0]] + a[1..] && b == [b[0]] + b[1..];
    }
  }

  // ---------- Insertion ----------

  lemma OrderedJoin<T(!new)>(a: seq<T>, b: seq<T>, before: (T, T) -> bool)
    requires Ordered(a, before) && Ordered(b, before) && forall x, y :: x in a && y in b ==> before(x, y)
    ensures Ordered(a + b, before)
  {
  }

  lemma LaterFollow<T(!new)>(xs: seq<T>, i: nat, x: T, before: (T, T) -> bool)
    requires StrictOrder(before) && Ordered(xs, before) && i < |xs| && before(x, xs[i])
    ensures forall y :: y in xs[i..] ==> before(x, y)
  {
  }

  lemma InsertedAt<T(!new)>(xs: seq<T>, i: nat, x: T, before: (T, T) -> bool)
    requires StrictOrder(before) && Ordered(xs, before) && i <= |xs|
    requires (forall j :: 0 <= j < i ==> before(xs[j], x)) && (i < |xs| ==> before(x, xs[i]))
    ensures Ordered(xs[..i] + [x] + xs[i..], before)
  {
    OrderedJoin(xs[..i], [x], before);
    if i < |xs| {
      LaterFollow(xs, i, x, before);
      forall y, z | y in xs[..i] && z in xs[i..]
        ensures before(y, z)
      {
        assert before(y, x) && before(x, z);
      }
    }
    OrderedJoin(xs[..i] + [x], xs[i..], before);
  }

  ghost predicate ComparesWithAll<T>(xs: seq<T>, x: T, before: (T, T) -> bool) {
    forall y :: y in xs ==> before(x, y) || before(y, x)
  }

  /** Puts an entry before the first one that does not precede it. */
  method Insert<T(!new)>(xs: seq<T>, x: T, before: (T, T) -> bool) returns (more: seq<T>)
    ensures multiset(more) == multiset(xs) + multiset{x}
    ensures StrictOrder(before) && Ordered(xs, before) && ComparesWithAll(xs, x, before) ==> Ordered(more, before)
  {
    var i := 0;
    while i < |xs| && before(xs[i], x)
      invariant 0 <= i <= |xs|
      invariant forall j :: 0 <= j < i ==> before(xs[j], x)
    {
      i := i + 1;
    }
    more := xs[..i] + [x] + xs[i..];
    InsertedMultiset(xs, i, x);
    if StrictOrder(before) && Ordered(xs, before) && ComparesWithAll(xs, x, before) {
      InsertedAt(xs, i, x, before);
    }
  }

  // ---------- (collection, id) pairs ----------

  type Key = (Text, Text)

  predicate KeyLess(a: Key, b: Key) {
    Less(a.0, b.0) || (a.0 == b.0 && Less(a.1, b.1))
  }

  lemma KeyTransitive(a: Key, b: Key, c: Key)
    requires KeyLess(a, b) && KeyLess(b, c)
    ensures KeyLess(a, c)
  {
    if Less(a.0, b.0) && Less(b.0, c.0) {
      LessTransitive(a.0, b.0, c.0);
    }
    if Less(a.1, b.1) && Less(b.1, c.1) {
      LessTransitive(a.1, b.1, c.1);
    }
  }

  lemma KeyAsymmetric(a: Key, b: Key)
    requires KeyLess(a, b)
    ensures !KeyLess(b, a) && a != b
  {
    LessIrreflexive(a.0);
    if Less(a.0, b.0) {
      LessAsymmetric(a.0, b.0);
    } else {
      LessAsymmetric(a.1, b.1);
    }
  }

  lemma KeyTotal(a: Key, b: Key)
    ensures a == b || KeyLess(a, b) || KeyLess(b, a)
  {
    LessTotal(a.0, b.0);
    LessTotal(a.1, b.1);
  }
}
