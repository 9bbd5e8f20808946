/** Quotients and remainders are determined by the equation they satisfy. */
module Division {
  lemma {:induction false} GapGrows(small: int, big: int, d: nat)
    requires small < big
    ensures big * d >= small * d + d
    decreases big - small
  {
    assert big * d == (big - 1) * d + d;
    if small < big - 1 {
      GapGrows(small, big - 1, d);
    }
  }

  lemma DivisionUnique(n: int, d: nat, q: int, r: nat)
    requires d > 0 && r < d && n == q * d + r
    ensures n / d == q && n % d == r
  {
    var q', r' := n / d, n % d;
    assert n == q' * d + r';
    if q < q' {
      GapGrows(q, q', d);
    } else if q' < q {
      GapGrows(q', q, d);
    }
  }
}
