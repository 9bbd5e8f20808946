/** Reciprocal rank fusion: ranked legs merged into one ranking that does not depend on the order a
    hash map hands its entries out. Scores are exact reals with the infinities that a division by zero
    brings in. */
module Fusion {
  import opened Counting
  import opened Options
  import opened Lex
  import opened Orders

  /** A ranked result; `A` is its metadata. */
  datatype Hit<A> = Hit(collection: Text, id: Text, score: real, attrs: A)

  datatype Leg<A> = Leg(hits: seq<Hit<A>>, weight: real)

  /** A fused document: what each leg said of it, as rank and score, in leg order. */
  datatype Fused<A> = Fused(key: Key, score: Score, attrs: A, legs: seq<Option<(nat, real)>>)

  function KeyOf<A>(h: Hit<A>): Key {
    (h.collection, h.id)
  }

  predicate Holds<A>(hits: seq<Hit<A>>, key: Key) {
    exists r :: 0 <= r < |hits| && KeyOf(hits[r]) == key
  }

  predicate HeldByAny<A>(legs: seq<Leg<A>>, key: Key) {
    exists l :: 0 <= l < |legs| && Holds(legs[l].hits, key)
  }

  // ---------- Scores ----------

  datatype Score = Number(v: real) | Above | Under | Undefined

  /** Opposite infinities have no sum. */
  function Sum(a: Score, b: Score): Score {
    if a.Undefined? || b.Undefined? then Undefined
    else if a.Number? && b.Number? then Number(a.v + b.v)
    else if a.Number? then b
    else if b.Number? || a == b then a
    else Undefined
  }

  function Scaled(w: real, s: Score): Score {
    match s
    case Number(v) => Number(w * v)
    case Undefined => Undefined
    case _ => if w == 0.0 then Undefined else if (w > 0.0) == s.Above? then Above else Under
  }

  /** No comparison holds of an undefined score. */
  predicate Higher(a: Score, b: Score) {
    match a
    case Number(v) => b.Under? || (b.Number? && v > b.v)
    case Above => b.Number? || b.Under?
    case _ => false
  }

  lemma SumAssociates(a: Score, b: Score, c: Score)
    ensures Sum(Sum(a, b), c) == Sum(a, Sum(b, c))
  {
  }

  function Denominator(k: real, r: nat): real {
    k + r as real + 1.0
  }

  /** What rank `r`, counted from zero, is worth. */
  function Recip(k: real, r: nat): Score {
    if Denominator(k, r) == 0.0 then Above else Number(1.0 / Denominator(k, r))
  }

  /** What the hits of one leg add to a document's score. */
  function LegScore<A>(hits: seq<Hit<A>>, weight: real, k: real, key: Key): Score
    decreases |hits|
  {
    if hits == [] then Number(0.0)
    else
      var r := |hits| - 1;
      var before := LegScore(hits[..r], weight, k, key);
      if KeyOf(hits[r]) == key then Sum(before, Scaled(weight, Recip(k, r))) else before
  }

  function TotalScore<A>(legs: seq<Leg<A>>, k: real, key: Key): Score
    decreases |legs|
  {
    if legs == [] then Number(0.0)
    else
      var last := |legs| - 1;
      Sum(TotalScore(legs[..last], k, key), LegScore(legs[last].hits, legs[last].weight, k, key))
  }

  /** A leg's last word on a document. */
  function LegDetail<A>(hits: seq<Hit<A>>, key: Key): Option<(nat, real)>
    decreases |hits|
  {
    if hits == [] then None
    else
      var r := |hits| - 1;
      if KeyOf(hits[r]) == key then Some((r, hits[r].score)) else LegDetail(hits[..r], key)
  }

  /** The metadata of the first hit that is the document. */
  function FirstIn<A>(hits: seq<Hit<A>>, key: Key): Option<A>
    decreases |hits|
  {
    if hits == [] then None
    else
      var r := |hits| - 1;
      var before := FirstIn(hits[..r], key);
      if before.Some? then before else if KeyOf(hits[r]) == key then Some(hits[r].attrs) else None
  }

  function FirstAttrs<A>(legs: seq<Leg<A>>, key: Key): Option<A>
    decreases |legs|
  {
    if legs == [] then None
    else
      var last := |legs| - 1;
      var before := FirstAttrs(legs[..last], key);
      if before.Some? then before else FirstIn(legs[last].hits, key)
  }

  /** The entry the legs call for. */
  ghost predicate Fuses<A>(legs: seq<Leg<A>>, k: real, f: Fused<A>)
  {
    && HeldByAny(legs, f.key)
    && f.score == TotalScore(legs, k, f.key)
    && Some(f.attrs) == FirstAttrs(legs, f.key)
    && |f.legs| == |legs|
    && forall l :: 0 <= l < |legs| ==> f.legs[l] == LegDetail(legs[l].hits, f.key)
  }

  /** Score descending, then collection, then id; nothing is said of undefined scores. */
  predicate Before<A>(a: Fused<A>, b: Fused<A>) {
    && !a.score.Undefined? && !b.score.Undefined?
    && (Higher(a.score, b.score) || (a.score == b.score && KeyLess(a.key, b.key)))
  }

  ghost predicate Lists<A>(out: seq<Fused<A>>, key: Key) {
    exists i :: 0 <= i < |out| && out[i].key == key
  }

  ghost predicate KeysDistinct<A>(out: seq<Fused<A>>) {
    forall i, j :: 0 <= i < j < |out| ==> out[i].key != out[j].key
  }

  ghost predicate AllDefined<A>(out: seq<Fused<A>>) {
    forall f :: f in out ==> !f.score.Undefined?
  }

  /** Each document of the union once, with what the legs call for, in order when every score is defined. */
  ghost predicate IsFusion<A>(legs: seq<Leg<A>>, k: real, out: seq<Fused<A>>) {
    && KeysDistinct(out) && (AllDefined(out) ==> Ordered(out, Before))
    && (forall f :: f in out ==> Fuses(legs, k, f))
    && (forall key :: HeldByAny(legs, key) ==> Lists(out, key))
  }

  // ---------- When scores are defined ----------

  /** No rank divides by zero: `k` is not a negative whole number. */
  ghost predicate NoZero(k: real) {
    forall r: nat :: Denominator(k, r) != 0.0
  }

  /** Every weight counts for its documents, or no rank divides by zero. */
  ghost predicate Sane<A>(legs: seq<Leg<A>>, k: real) {
    NoZero(k) || forall l :: 0 <= l < |legs| ==> legs[l].weight > 0.0
  }

  lemma {:induction false} LegScoreDefined<A>(hits: seq<Hit<A>>, weight: real, k: real, key: Key)
    requires weight > 0.0 || NoZero(k)
    ensures LegScore(hits, weight, k, key).Number? || (!NoZero(k) && LegScore(hits, weight, k, key).Above?)
    decreases |hits|
  {
    if hits != [] {
      LegScoreDefined(hits[..|hits| - 1], weight, k, key);
    }
  }

  lemma SumDefined(a: Score, b: Score)
    requires (a.Number? || a.Above?) && (b.Number? || b.Above?)
    ensures Sum(a, b).Number? || Sum(a, b).Above?
    ensures a.Number? && b.Number? ==> Sum(a, b).Number?
  {
  }

  /** Then every score is defined, and finite where no rank divides by zero. */
  lemma {:induction false} ScoresDefined<A>(legs: seq<Leg<A>>, k: real, key: Key)
    requires Sane(legs, k)
    ensures TotalScore(legs, k, key).Number? || TotalScore(legs, k, key).Above?
    ensures NoZero(k) ==> TotalScore(legs, k, key).Number?
    decreases |legs|
  {
    hide NoZero, LegScore, Sum;
    if legs != [] {
      var last := |legs| - 1;
      assert NoZero(k) || legs[last].weight > 0.0;
      ScoresDefined(legs[..last], k, key);
      LegScoreDefined(legs[last].hits, legs[last].weight, k, key);
      SumDefined(TotalScore(legs[..last], k, key), LegScore(legs[last].hits, legs[last].weight, k, key));
    }
  }

  // ---------- The result is unique ----------

  lemma BeforeIsStrict<A(!new)>()
    ensures StrictOrder<Fused<A>>(Before)
  {
    forall a: Fused<A>, b: Fused<A> | Before(a, b)
      ensures !Before(b, a)
    {
      if a.score == b.score {
        KeyAsymmetric(a.key, b.key);
      }
    }
    forall a: Fused<A>, b: Fused<A>, c: Fused<A> | Before(a, b) && Before(b, c)
      ensures Before(a, c)
    {
      if a.score == b.score == c.score {
        KeyTransitive(a.key, b.key, c.key);
      }
    }
  }

  lemma BeforeTotal<A>(a: Fused<A>, b: Fused<A>)
    requires a.key != b.key && !a.score.Undefined? && !b.score.Undefined?
    ensures Before(a, b) || Before(b, a)
  {
    KeyTotal(a.key, b.key);
  }

  lemma EntryDetermined<A>(legs: seq<Leg<A>>, k: real, a: Fused<A>, b: Fused<A>)
    requires Fuses(legs, k, a) && Fuses(legs, k, b) && a.key == b.key
    ensures a == b
  {
    assert a.legs == b.legs;
  }

  /** Two fusions of the same legs have the same entries; when their scores are defined they are the same list,
      so no iteration order can show through. */
  lemma FusionUnique<A(!new)>(legs: seq<Leg<A>>, k: real, a: seq<Fused<A>>, b: seq<Fused<A>>)
    requires IsFusion(legs, k, a) && IsFusion(legs, k, b)
    ensures forall f :: f in a <==> f in b
    ensures Sane(legs, k) ==> a == b
  {
    SharedMembers(legs, k, a, b);
    SharedMembers(legs, k, b, a);
    if Sane(legs, k) {
      BeforeIsStrict<A>();
      DefinedEntries(legs, k, a);
      DefinedEntries(legs, k, b);
      SameMembersSameOrder(a, b, Before);
    }
  }

  lemma DefinedEntries<A>(legs: seq<Leg<A>>, k: real, out: seq<Fused<A>>)
    requires Sane(legs, k) && forall f :: f in out ==> Fuses(legs, k, f)
    ensures AllDefined(out)
  {
    forall f | f in out
      ensures !f.score.Undefined?
    {
      ScoresDefined(legs, k, f.key);
      assert Fuses(legs, k, f);
    }
  }

  lemma SharedMembers<A(!new)>(legs: seq<Leg<A>>, k: real, a: seq<Fused<A>>, b: seq<Fused<A>>)
    requires IsFusion(legs, k, a) && IsFusion(legs, k, b)
    ensures forall f :: f in a ==> f in b
  {
    forall f | f in a
      ensures f in b
    {
      assert Fuses(legs, k, f);
      var i :| 0 <= i < |b| && b[i].key == f.key;
      EntryDetermined(legs, k, f, b[i]);
    }
  }

  // ---------- Legs without repeats ----------

  ghost predicate NoRepeats<A>(hits: seq<Hit<A>>) {
    forall i, j :: 0 <= i < j < |hits| ==> KeyOf(hits[i]) != KeyOf(hits[j])
  }

  lemma {:induction false} AbsentAddsNothing<A>(hits: seq<Hit<A>>, weight: real, k: real, key: Key)
    requires !Holds(hits, key)
    ensures LegScore(hits, weight, k, key) == Number(0.0) && LegDetail(hits, key) == None && FirstIn(hits, key) == None
    decreases |hits|
  {
    if hits != [] {
      var r := |hits| - 1;
      assert Holds(hits[..r], key) ==> Holds(hits, key);
      assert KeyOf(hits[r]) != key;
      AbsentAddsNothing(hits[..r], weight, k, key);
    }
  }

  /** In a leg that repeats no document, one at rank `r` gains `weight / (k + r + 1)` and is described by
      that rank and its score there. */
  lemma {:induction false} RankContribution<A>(hits: seq<Hit<A>>, weight: real, k: real, r: nat)
    requires NoRepeats(hits) && r < |hits|
    ensures LegScore(hits, weight, k, KeyOf(hits[r])) == Scaled(weight, Recip(k, r))
    ensures LegScore(hits, weight, k, KeyOf(hits[r])) ==
      if k + r as real + 1.0 != 0.0 then Number(weight / (k + r as real + 1.0))
      else if weight > 0.0 then Above else if weight < 0.0 then Under else Undefined
    ensures LegDetail(hits, KeyOf(hits[r])) == Some((r, hits[r].score))
    ensures FirstIn(hits, KeyOf(hits[r])) == Some(hits[r].attrs)
    decreases |hits|
  {
    var last := |hits| - 1;
    WeightedInverse(weight, k + r as real + 1.0);
    if r == last {
      assert !Holds(hits[..last], KeyOf(hits[r]));
      AbsentAddsNothing(hits[..last], weight, k, KeyOf(hits[r]));
    } else {
      RankContribution(hits[..last], weight, k, r);
      assert KeyOf(hits[r]) != KeyOf(hits[last]);
    }
  }

  lemma WeightedInverse(w: real, x: real)
    ensures x != 0.0 ==> w * (1.0 / x) == w / x
  {
  }

  /** The first leg that lists a document describes it, and one more leg adds its share of the rank there. */
  lemma OneMoreLeg<A>(legs: seq<Leg<A>>, leg: Leg<A>, k: real, r: nat)
    requires NoRepeats(leg.hits) && r < |leg.hits| && k + r as real + 1.0 != 0.0
    requires TotalScore(legs, k, KeyOf(leg.hits[r])).Number?
    ensures var key := KeyOf(leg.hits[r]);
      && TotalScore(legs + [leg], k, key)
           == Number(TotalScore(legs, k, key).v + leg.weight / (k + r as real + 1.0))
      && FirstAttrs(legs + [leg], key)
           == if HeldByAny(legs, key) then FirstAttrs(legs, key) else Some(leg.hits[r].attrs)
  {
    hide LegScore, LegDetail, FirstIn, Recip, Scaled;
    LegUnfolds(legs, leg, k, KeyOf(leg.hits[r]));
    RankContribution(leg.hits, leg.weight, k, r);
    FirstAttrsHeld(legs, KeyOf(leg.hits[r]));
  }

  /** Infinite shares absorb numbers and cancel each other. */
  lemma InfiniteSums(v: real)
    ensures Sum(Above, Number(v)) == Sum(Number(v), Above) == Sum(Above, Above) == Above
    ensures Sum(Under, Number(v)) == Sum(Number(v), Under) == Sum(Under, Under) == Under
    ensures Sum(Above, Under) == Sum(Under, Above) == Undefined
  {
  }

  /** Equal scores are listed by collection, then by id; a higher number comes first. */
  lemma FusedOrder<A>(legs: seq<Leg<A>>, k: real, out: seq<Fused<A>>, i: nat, j: nat)
    requires Sane(legs, k) && IsFusion(legs, k, out) && i < j < |out|
    ensures out[i].score.Number? && out[j].score.Number? ==> out[i].score.v >= out[j].score.v
    ensures out[j].score.Above? ==> out[i].score.Above?
    ensures out[i].score == out[j].score ==>
      Less(out[i].key.0, out[j].key.0) || (out[i].key.0 == out[j].key.0 && Less(out[i].key.1, out[j].key.1))
  {
    DefinedEntries(legs, k, out);
    assert Before(out[i], out[j]);
  }

  /** `a` ranks at least as well as `b` in a leg: wherever `b` is, `a` is no lower. */
  ghost predicate NoWorse<A>(hits: seq<Hit<A>>, a: Key, b: Key) {
    forall j :: 0 <= j < |hits| && KeyOf(hits[j]) == b ==> exists i :: 0 <= i <= j && KeyOf(hits[i]) == a
  }

  lemma InverseShrinks(p: real, q: real, x: real, y: real)
    requires 0.0 < p <= q && x * p == 1.0 && y * q == 1.0 && x > 0.0 && y > 0.0
    ensures x >= y
  {
    assert x * q >= x * p;
    assert (x - y) * q >= 0.0;
  }

  /** Above -1 every rank is worth a positive number, and a lower rank no more. */
  lemma Reciprocal(k: real, i: nat, j: nat)
    requires k > -1.0 && i <= j
    ensures Recip(k, i).Number? && Recip(k, j).Number? && Recip(k, i).v >= Recip(k, j).v > 0.0
  {
    var p, q := Denominator(k, i), Denominator(k, j);
    assert Recip(k, i).v * p == 1.0 && Recip(k, j).v * q == 1.0;
    InverseShrinks(p, q, Recip(k, i).v, Recip(k, j).v);
  }

  lemma ScaledGrows(w: real, x: real, y: real)
    requires w >= 0.0 && x >= y > 0.0
    ensures w * x >= w * y >= 0.0
  {
  }

  lemma LegScoreNotNegative<A>(leg: Leg<A>, k: real, a: Key)
    requires k > -1.0 && leg.weight >= 0.0 && NoRepeats(leg.hits)
    ensures LegScore(leg.hits, leg.weight, k, a).Number? && LegScore(leg.hits, leg.weight, k, a).v >= 0.0
  {
    if Holds(leg.hits, a) {
      var i: nat :| i < |leg.hits| && KeyOf(leg.hits[i]) == a;
      RankContribution(leg.hits, leg.weight, k, i);
      Reciprocal(k, i, i);
      ScaledGrows(leg.weight, Recip(k, i).v, Recip(k, i).v);
    } else {
      AbsentAddsNothing(leg.hits, leg.weight, k, a);
    }
  }

  /** `a` scores a number at least `b`'s. */
  predicate AtLeast(a: Score, b: Score) {
    a == b || Higher(a, b)
  }

  lemma HigherRankGainsMore<A>(leg: Leg<A>, k: real, i: nat, j: nat)
    requires k > -1.0 && leg.weight >= 0.0 && NoRepeats(leg.hits) && i <= j < |leg.hits|
    ensures var x, y := LegScore(leg.hits, leg.weight, k, KeyOf(leg.hits[i])), LegScore(leg.hits, leg.weight, k, KeyOf(leg.hits[j]));
      x.Number? && y.Number? && x.v >= y.v
  {
    hide LegScore, LegDetail, FirstIn, Recip;
    RankContribution(leg.hits, leg.weight, k, i);
    RankContribution(leg.hits, leg.weight, k, j);
    Reciprocal(k, i, j);
    ScaledGrows(leg.weight, Recip(k, i).v, Recip(k, j).v);
  }

  lemma NoWorseInLeg<A>(leg: Leg<A>, k: real, a: Key, b: Key)
    requires k > -1.0 && leg.weight >= 0.0 && NoRepeats(leg.hits) && NoWorse(leg.hits, a, b)
    ensures var x, y := LegScore(leg.hits, leg.weight, k, a), LegScore(leg.hits, leg.weight, k, b);
      x.Number? && y.Number? && x.v >= y.v
  {
    hide LegScore, LegDetail, FirstIn;
    if Holds(leg.hits, b) {
      var j: nat :| j < |leg.hits| && KeyOf(leg.hits[j]) == b;
      var i: nat :| i <= j && KeyOf(leg.hits[i]) == a;
      HigherRankGainsMore(leg, k, i, j);
    } else {
      AbsentAddsNothing(leg.hits, leg.weight, k, b);
      LegScoreNotNegative(leg, k, a);
    }
  }

  /** No leg counts against its documents, none repeats one, and `a` is no lower than `b` in any. */
  ghost predicate Favours<A>(legs: seq<Leg<A>>, a: Key, b: Key) {
    forall l :: 0 <= l < |legs| ==> legs[l].weight >= 0.0 && NoRepeats(legs[l].hits) && NoWorse(legs[l].hits, a, b)
  }

  lemma {:induction false} LegsRespected<A>(legs: seq<Leg<A>>, k: real, a: Key, b: Key)
    requires k > -1.0 && Favours(legs, a, b)
    ensures TotalScore(legs, k, a).Number? && TotalScore(legs, k, b).Number?
    ensures TotalScore(legs, k, a).v >= TotalScore(legs, k, b).v
    decreases |legs|
  {
    if legs != [] {
      var last := |legs| - 1;
      LegsRespected(legs[..last], k, a, b);
      NoWorseInLeg(legs[last], k, a, b);
    }
  }

  /** A document no leg ranks below another is not fused below it. */
  lemma FusionRespectsLegs<A>(legs: seq<Leg<A>>, k: real, a: Key, b: Key)
    requires k > -1.0 && Favours(legs, a, b)
    ensures AtLeast(TotalScore(legs, k, a), TotalScore(legs, k, b))
  {
    LegsRespected(legs, k, a, b);
  }

  /** A leg of `n` documents, told apart by the lengths of their ids. */
  function LongLeg<A>(n: nat, weight: real, attrs: A): Leg<A> {
    Leg(seq(n, i requires 0 <= i < n => Hit([], seq(i, _ => 0), 0.0, attrs)), weight)
  }

  lemma LongLegFavours<A>(n: nat, weight: real, attrs: A, j: nat)
    requires j < n && weight >= 0.0
    ensures var leg := LongLeg(n, weight, attrs);
      && NoRepeats(leg.hits) && HeldByAny([leg], KeyOf(leg.hits[j]))
      && Favours([leg], KeyOf(leg.hits[0]), KeyOf(leg.hits[j]))
  {
    var leg := LongLeg(n, weight, attrs);
    forall x, y | 0 <= x < y < n
      ensures KeyOf(leg.hits[x]) != KeyOf(leg.hits[y])
    {
      assert |leg.hits[x].id| == x && |leg.hits[y].id| == y;
    }
    assert Holds([leg][0].hits, KeyOf(leg.hits[j]));
  }

  lemma OneLegScore<A>(leg: Leg<A>, k: real, r: nat)
    requires NoRepeats(leg.hits) && r < |leg.hits|
    ensures TotalScore([leg], k, KeyOf(leg.hits[r])) == Scaled(leg.weight, Recip(k, r))
  {
    RankContribution(leg.hits, leg.weight, k, r);
    assert [leg][..0] == [];
  }

  lemma SignOfRecip(k: real, r: nat)
    requires Denominator(k, r) != 0.0
    ensures Recip(k, r).Number? && Recip(k, r).v != 0.0 && (Recip(k, r).v > 0.0 <==> Denominator(k, r) > 0.0)
  {
    assert Recip(k, r).v * Denominator(k, r) == 1.0;
  }

  /** Below -1 the first document of a long enough leg counts for less than the last; at -1 the first of a leg
      without weight has no score. */
  lemma FirstCanLose<A>(k: real, attrs: A) returns (leg: Leg<A>, a: Key, b: Key)
    requires k <= -1.0
    ensures Favours([leg], a, b) && HeldByAny([leg], b)
    ensures !AtLeast(TotalScore([leg], k, a), TotalScore([leg], k, b))
  {
    hide Favours, NoRepeats, HeldByAny;
    var j: nat := (-k).Floor + 1;
    var weight := if k == -1.0 then 0.0 else 1.0;
    leg := LongLeg(j + 1, weight, attrs);
    LongLegFavours(j + 1, weight, attrs, j);
    a, b := KeyOf(leg.hits[0]), KeyOf(leg.hits[j]);
    OneLegScore(leg, k, 0);
    OneLegScore(leg, k, j);
    SignOfRecip(k, j);
    if k < -1.0 {
      SignOfRecip(k, 0);
    }
  }

  /** Fusion respects every set of legs exactly for `k` above -1. */
  lemma RespectIff<A(!new)>(k: real, attrs: A)
    ensures (forall legs: seq<Leg<A>>, a, b :: Favours(legs, a, b) && HeldByAny(legs, b) ==>
               AtLeast(TotalScore(legs, k, a), TotalScore(legs, k, b)))
       <==> k > -1.0
  {
    if k > -1.0 {
      forall legs: seq<Leg<A>>, a, b | Favours(legs, a, b)
        ensures AtLeast(TotalScore(legs, k, a), TotalScore(legs, k, b))
      {
        FusionRespectsLegs(legs, k, a, b);
      }
    } else {
      var leg, a, b := FirstCanLose(k, attrs);
    }
  }

  // ---------- The fusing loops ----------

  datatype Acc<A> = Acc(score: Score, attrs: A, legs: seq<Option<(nat, real)>>)

  /** The score of what has been read: `done` whole legs and the hits `part` of the next. */
  function PartScore<A>(legs: seq<Leg<A>>, k: real, done: nat, part: seq<Hit<A>>, key: Key): Score
    requires done <= |legs|
  {
    Sum(TotalScore(legs[..done], k, key), if done < |legs| then LegScore(part, legs[done].weight, k, key) else Number(0.0))
  }

  lemma PartScoreGrows<A>(legs: seq<Leg<A>>, k: real, l: nat, part: seq<Hit<A>>, h: Hit<A>, key: Key)
    requires l < |legs|
    ensures PartScore(legs, k, l, part + [h], key)
         == if KeyOf(h) == key then Sum(PartScore(legs, k, l, part, key), Scaled(legs[l].weight, Recip(k, |part|)))
            else PartScore(legs, k, l, part, key)
  {
    HitUnfolds(part, h, legs[l].weight, k, key);
    SumAssociates(TotalScore(legs[..l], k, key), LegScore(part, legs[l].weight, k, key), Scaled(legs[l].weight, Recip(k, |part|)));
  }

  lemma PartScoreEnds<A>(legs: seq<Leg<A>>, k: real, l: nat, key: Key)
    requires l < |legs|
    ensures PartScore(legs, k, l + 1, [], key) == PartScore(legs, k, l, legs[l].hits, key)
  {
    assert legs[..l + 1] == legs[..l] + [legs[l]];
    LegUnfolds(legs[..l], legs[l], k, key);
  }

  /** What the accumulator of `key` must hold once `done` whole legs and the hits `part` of the next have
      been read. */
  ghost predicate AccOk<A>(legs: seq<Leg<A>>, k: real, done: nat, part: seq<Hit<A>>, key: Key, acc: Acc<A>)
    requires done <= |legs|
  {
    && acc.score == PartScore(legs, k, done, part, key)
    && Some(acc.attrs) == (if FirstAttrs(legs[..done], key).Some? then FirstAttrs(legs[..done], key) else FirstIn(part, key))
    && |acc.legs| == |legs|
    && (forall l :: 0 <= l < done ==> acc.legs[l] == LegDetail(legs[l].hits, key))
    && (done < |legs| ==> acc.legs[done] == LegDetail(part, key))
    && forall l :: done < l < |legs| ==> acc.legs[l] == None
  }

  ghost predicate Seen<A>(legs: seq<Leg<A>>, done: nat, part: seq<Hit<A>>, key: Key)
    requires done <= |legs|
  {
    HeldByAny(legs[..done], key) || Holds(part, key)
  }

  ghost predicate MapOk<A>(legs: seq<Leg<A>>, k: real, done: nat, part: seq<Hit<A>>, fused: map<Key, Acc<A>>)
    requires done <= |legs|
  {
    && (forall key :: key in fused <==> Seen(legs, done, part, key))
    && forall key :: key in fused ==> AccOk(legs, k, done, part, key, fused[key])
  }

  lemma HoldsMore<A>(hits: seq<Hit<A>>, h: Hit<A>, key: Key)
    ensures Holds(hits + [h], key) <==> Holds(hits, key) || KeyOf(h) == key
  {
    var more := hits + [h];
    if Holds(hits, key) {
      var r :| 0 <= r < |hits| && KeyOf(hits[r]) == key;
      assert more[r] == hits[r];
    }
    assert more[|hits|] == h;
  }

  lemma HeldMore<A>(legs: seq<Leg<A>>, leg: Leg<A>, key: Key)
    ensures HeldByAny(legs + [leg], key) <==> HeldByAny(legs, key) || Holds(leg.hits, key)
  {
    var more := legs + [leg];
    if HeldByAny(legs, key) {
      var l :| 0 <= l < |legs| && Holds(legs[l].hits, key);
      assert more[l] == legs[l];
    }
    assert more[|legs|] == leg;
  }

  /** One more hit read. */
  lemma HitUnfolds<A>(hits: seq<Hit<A>>, h: Hit<A>, weight: real, k: real, key: Key)
    ensures LegScore(hits + [h], weight, k, key)
         == if KeyOf(h) == key then Sum(LegScore(hits, weight, k, key), Scaled(weight, Recip(k, |hits|)))
            else LegScore(hits, weight, k, key)
    ensures LegDetail(hits + [h], key) == if KeyOf(h) == key then Some((|hits|, h.score)) else LegDetail(hits, key)
    ensures FirstIn(hits + [h], key)
         == if FirstIn(hits, key).Some? then FirstIn(hits, key) else if KeyOf(h) == key then Some(h.attrs) else None
  {
    assert (hits + [h])[..|hits|] == hits;
  }

  /** One more leg finished. */
  lemma LegUnfolds<A>(legs: seq<Leg<A>>, leg: Leg<A>, k: real, key: Key)
    ensures TotalScore(legs + [leg], k, key) == Sum(TotalScore(legs, k, key), LegScore(leg.hits, leg.weight, k, key))
    ensures FirstAttrs(legs + [leg], key)
         == if FirstAttrs(legs, key).Some? then FirstAttrs(legs, key) else FirstIn(leg.hits, key)
  {
    assert (legs + [leg])[..|legs|] == legs;
  }

  lemma {:induction false} FirstInHolds<A>(hits: seq<Hit<A>>, key: Key)
    ensures FirstIn(hits, key).Some? <==> Holds(hits, key)
    decreases |hits|
  {
    if hits != [] {
      var r := |hits| - 1;
      FirstInHolds(hits[..r], key);
      assert hits == hits[..r] + [hits[r]];
      HoldsMore(hits[..r], hits[r], key);
    }
  }

  lemma {:induction false} FirstAttrsHeld<A>(legs: seq<Leg<A>>, key: Key)
    ensures FirstAttrs(legs, key).Some? <==> HeldByAny(legs, key)
    decreases |legs|
  {
    if legs != [] {
      var last := |legs| - 1;
      FirstAttrsHeld(legs[..last], key);
      FirstInHolds(legs[last].hits, key);
      assert legs == legs[..last] + [legs[last]];
      HeldMore(legs[..last], legs[last], key);
    }
  }

  /** A document not seen yet starts from nothing. */
  lemma {:induction false} UnseenIsBlank<A>(legs: seq<Leg<A>>, k: real, key: Key)
    requires !HeldByAny(legs, key)
    ensures TotalScore(legs, k, key) == Number(0.0) && FirstAttrs(legs, key) == None
    ensures forall l :: 0 <= l < |legs| ==> LegDetail(legs[l].hits, key) == None
    decreases |legs|
  {
    if legs != [] {
      var last := |legs| - 1;
      assert legs == legs[..last] + [legs[last]];
      HeldMore(legs[..last], legs[last], key);
      UnseenIsBlank(legs[..last], k, key);
      AbsentAddsNothing(legs[last].hits, legs[last].weight, k, key);
      LegUnfolds(legs[..last], legs[last], k, key);
    }
  }

  /** The accumulator after one more hit of its document. */
  function Touched<A>(acc: Acc<A>, l: nat, r: nat, h: Hit<A>, weight: real, k: real): Acc<A>
    requires l < |acc.legs|
  {
    Acc(Sum(acc.score, Scaled(weight, Recip(k, r))), acc.attrs, acc.legs[l := Some((r, h.score))])
  }

  function Blank<A>(attrs: A, legs: nat): Acc<A> {
    Acc(Number(0.0), attrs, seq(legs, i => None))
  }

  lemma OtherKeyKept<A>(legs: seq<Leg<A>>, k: real, l: nat, part: seq<Hit<A>>, h: Hit<A>,
                                           key: Key, acc: Acc<A>)
    requires l < |legs| && KeyOf(h) != key && AccOk(legs, k, l, part, key, acc)
    ensures AccOk(legs, k, l, part + [h], key, acc)
  {
    PartScoreGrows(legs, k, l, part, h, key);
    HitUnfolds(part, h, legs[l].weight, k, key);
  }

  lemma KnownKeyTouched<A>(legs: seq<Leg<A>>, k: real, l: nat, part: seq<Hit<A>>, h: Hit<A>, acc: Acc<A>)
    requires l < |legs| && AccOk(legs, k, l, part, KeyOf(h), acc)
    ensures AccOk(legs, k, l, part + [h], KeyOf(h), Touched(acc, l, |part|, h, legs[l].weight, k))
  {
    PartScoreGrows(legs, k, l, part, h, KeyOf(h));
    HitUnfolds(part, h, legs[l].weight, k, KeyOf(h));
  }

  lemma NewKeyTouched<A>(legs: seq<Leg<A>>, k: real, l: nat, part: seq<Hit<A>>, h: Hit<A>)
    requires l < |legs| && !Seen(legs, l, part, KeyOf(h))
    ensures AccOk(legs, k, l, part + [h], KeyOf(h),
                  Touched(Blank(h.attrs, |legs|), l, |part|, h, legs[l].weight, k))
  {
    HitUnfolds(part, h, legs[l].weight, k, KeyOf(h));
    UnseenIsBlank(legs[..l], k, KeyOf(h));
    AbsentAddsNothing(part, legs[l].weight, k, KeyOf(h));
  }

  lemma SeenMore<A>(legs: seq<Leg<A>>, l: nat, part: seq<Hit<A>>, h: Hit<A>, key: Key)
    requires l <= |legs|
    ensures Seen(legs, l, part + [h], key) <==> Seen(legs, l, part, key) || KeyOf(h) == key
  {
    HoldsMore(part, h, key);
  }

  method AddHit<A>(legs: seq<Leg<A>>, k: real, l: nat, part: seq<Hit<A>>, h: Hit<A>, fused: map<Key, Acc<A>>)
    returns (out: map<Key, Acc<A>>)
    requires l < |legs| && MapOk(legs, k, l, part, fused)
    ensures MapOk(legs, k, l, part + [h], out)
  {
    var key := KeyOf(h);
    if key in fused {
      KnownKeyTouched(legs, k, l, part, h, fused[key]);
    } else {
      NewKeyTouched(legs, k, l, part, h);
    }
    var acc := if key in fused then fused[key] else Blank(h.attrs, |legs|);
    out := fused[key := Touched(acc, l, |part|, h, legs[l].weight, k)];
    forall other
      ensures other in out <==> Seen(legs, l, part + [h], other)
    {
      SeenMore(legs, l, part, h, other);
    }
    forall other | other in fused && other != key
      ensures AccOk(legs, k, l, part + [h], other, out[other])
    {
      OtherKeyKept(legs, k, l, part, h, other, fused[other]);
    }
  }

  lemma LegEnds<A>(legs: seq<Leg<A>>, k: real, l: nat, key: Key, acc: Acc<A>)
    requires l < |legs| && AccOk(legs, k, l, legs[l].hits, key, acc)
    ensures AccOk(legs, k, l + 1, [], key, acc)
  {
    assert legs[..l + 1] == legs[..l] + [legs[l]];
    PartScoreEnds(legs, k, l, key);
    LegUnfolds(legs[..l], legs[l], k, key);
  }

  lemma SeenLeg<A>(legs: seq<Leg<A>>, l: nat, key: Key)
    requires l < |legs|
    ensures Seen(legs, l + 1, [], key) <==> Seen(legs, l, legs[l].hits, key)
  {
    assert legs[..l + 1] == legs[..l] + [legs[l]];
    HeldMore(legs[..l], legs[l], key);
  }

  method AddLeg<A>(legs: seq<Leg<A>>, k: real, l: nat, fused: map<Key, Acc<A>>) returns (out: map<Key, Acc<A>>)
    requires l < |legs| && MapOk(legs, k, l, [], fused)
    ensures MapOk(legs, k, l + 1, [], out)
  {
    out := fused;
    var hits := legs[l].hits;
    var r := 0;
    assert hits[..r] == [];
    while r < |hits|
      invariant 0 <= r <= |hits|
      invariant MapOk(legs, k, l, hits[..r], out)
    {
      out := AddHit(legs, k, l, hits[..r], hits[r], out);
      assert hits[..r + 1] == hits[..r] + [hits[r]];
      r := r + 1;
    }
    assert hits[..r] == hits;
    forall key
      ensures key in out <==> Seen(legs, l + 1, [], key)
    {
      SeenLeg(legs, l, key);
    }
    forall key | key in out
      ensures AccOk(legs, k, l + 1, [], key, out[key])
    {
      LegEnds(legs, k, l, key, out[key]);
    }
  }

  lemma AllDone<A>(legs: seq<Leg<A>>, k: real, fused: map<Key, Acc<A>>, key: Key)
    requires MapOk(legs, k, |legs|, [], fused) && key in fused
    ensures Fuses(legs, k, Fused(key, fused[key].score, fused[key].attrs, fused[key].legs))
  {
    assert legs[..|legs|] == legs;
    assert AccOk(legs, k, |legs|, [], key, fused[key]);
    FirstAttrsHeld(legs, key);
    FirstInHolds<A>([], key);
  }

  lemma NothingRead<A>(legs: seq<Leg<A>>, k: real)
    ensures MapOk(legs, k, 0, [], map[])
  {
  }

  method Accumulate<A>(legs: seq<Leg<A>>, k: real) returns (fused: map<Key, Acc<A>>)
    ensures MapOk(legs, k, |legs|, [], fused)
  {
    hide MapOk;
    fused := map[];
    NothingRead(legs, k);
    var l := 0;
    while l < |legs|
      invariant 0 <= l <= |legs|
      invariant MapOk(legs, k, l, [], fused)
    {
      fused := AddLeg(legs, k, l, fused);
      l := l + 1;
    }
  }

  // ---------- The final sort ----------

  lemma ListsMember<A>(out: seq<Fused<A>>, f: Fused<A>)
    requires f in out
    ensures Lists(out, f.key)
  {
  }

  lemma StaysDistinct<A(!new)>(out: seq<Fused<A>>, f: Fused<A>, more: seq<Fused<A>>)
    requires KeysDistinct(out) && (forall g :: g in out ==> g.key != f.key)
    requires multiset(more) == multiset(out) + multiset{f}
    ensures KeysDistinct(more)
  {
    InsertedMembers(out, f, more);
    forall i, j | 0 <= i < j < |more|
      ensures more[i].key != more[j].key
    {
      TwoPlaces(more, i, j);
      OnePlace(out, more[i]);
      if more[i].key == more[j].key && more[i] != more[j] {
        SameKeySamePlace(out, f, more[i], more[j]);
      }
    }
  }

  lemma {:induction false} OnePlace<A(!new)>(out: seq<Fused<A>>, g: Fused<A>)
    requires KeysDistinct(out)
    ensures multiset(out)[g] <= 1
  {
    if out != [] {
      var last := |out| - 1;
      OnePlace(out[..last], g);
      assert out == out[..last] + [out[last]];
      assert out[last] !in out[..last];
      assert multiset(out) == multiset(out[..last]) + multiset{out[last]};
    }
  }

  lemma SameKeySamePlace<A(!new)>(out: seq<Fused<A>>, f: Fused<A>, g: Fused<A>, h: Fused<A>)
    requires KeysDistinct(out) && (forall x :: x in out ==> x.key != f.key)
    requires (g in out || g == f) && (h in out || h == f) && g.key == h.key
    ensures g == h
  {
    if g in out && h in out {
      var i :| 0 <= i < |out| && out[i] == g;
      var j :| 0 <= j < |out| && out[j] == h;
    }
  }

  /** Reads the map out key by key, in whatever order it yields them. */
  method Drain<A(!new)>(legs: seq<Leg<A>>, k: real, fused: map<Key, Acc<A>>) returns (out: seq<Fused<A>>)
    requires MapOk(legs, k, |legs|, [], fused)
    ensures KeysDistinct(out) && (AllDefined(out) ==> Ordered(out, Before)) && (forall f :: f in out ==> Fuses(legs, k, f))
    ensures forall key :: key in fused ==> Lists(out, key)
  {
    out := [];
    var left := fused.Keys;
    BeforeIsStrict<A>();
    while left != {}
      invariant left <= fused.Keys && KeysDistinct(out) && (AllDefined(out) ==> Ordered(out, Before))
      invariant forall f :: f in out ==> f.key !in left && Fuses(legs, k, f)
      invariant forall key :: key in fused && key !in left ==> Lists(out, key)
      decreases |left|
    {
      var key :| key in left;
      var f := Fused(key, fused[key].score, fused[key].attrs, fused[key].legs);
      AllDone(legs, k, fused, key);
      var more := Insert(out, f, Before);
      InsertedMembers(out, f, more);
      StaysDistinct(out, f, more);
      StaysOrdered(out, f, more);
      out := more;
      left := left - {key};
    }
  }

  lemma StaysOrdered<A(!new)>(out: seq<Fused<A>>, f: Fused<A>, more: seq<Fused<A>>)
    requires (AllDefined(out) ==> Ordered(out, Before)) && forall g :: g in out ==> g.key != f.key
    requires forall g :: g in more <==> g == f || g in out
    requires StrictOrder<Fused<A>>(Before)
    requires Ordered(out, Before) && ComparesWithAll(out, f, Before) ==> Ordered(more, Before)
    ensures AllDefined(more) ==> Ordered(more, Before)
  {
    if AllDefined(more) {
      assert f in more && AllDefined(out);
      forall g | g in out
        ensures Before(f, g) || Before(g, f)
      {
        BeforeTotal(f, g);
      }
    }
  }

  lemma InsertedMembers<A(!new)>(out: seq<Fused<A>>, f: Fused<A>, more: seq<Fused<A>>)
    requires multiset(more) == multiset(out) + multiset{f}
    ensures forall g :: g in more <==> g == f || g in out
    ensures Lists(more, f.key) && forall key :: Lists(out, key) ==> Lists(more, key)
  {
    assert forall g :: g in more <==> g in multiset(more);
    assert forall g :: g in out <==> g in multiset(out);
    ListsMember(more, f);
    forall key | Lists(out, key)
      ensures Lists(more, key)
    {
      var i :| 0 <= i < |out| && out[i].key == key;
      ListsMember(more, out[i]);
    }
  }

  /** Fuses the legs. */
  method RrfFuse<A(!new)>(legs: seq<Leg<A>>, k: real) returns (out: seq<Fused<A>>)
    ensures IsFusion(legs, k, out)
  {
    var fused := Accumulate(legs, k);
    out := Drain(legs, k, fused);
    assert legs[..|legs|] == legs;
    forall key | HeldByAny(legs, key)
      ensures Lists(out, key)
    {
      assert Seen(legs, |legs|, [], key);
    }
  }
}
