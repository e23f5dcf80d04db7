// Powers of two, and division by them.
module Powers {

  function Pow2(n: nat): (p: nat)
    ensures p >= 1
  {
    if n == 0 then 1 else 2 * Pow2(n - 1)
  }

  lemma AtLeastOneMore(a: int, b: int, d: int)
    requires a > b && d >= 0
    ensures a * d >= b * d + d
  {
    assert a * d == b * d + d + (a - b - 1) * d;
  }

  lemma DivModUnique(v: int, d: int, q: int, r: int)
    requires 0 <= r < d && v == q * d + r
    ensures v / d == q && v % d == r
  {
    var q1, r1 := v / d, v % d;
    assert v == q1 * d + r1;
    if q > q1 {
      AtLeastOneMore(q, q1, d);
      assert false;
    } else if q < q1 {
      AtLeastOneMore(q1, q, d);
      assert false;
    }
  }

  lemma DivModDouble(v: nat, p: nat)
    requires p >= 1
    ensures v / (2 * p) == (v / 2) / p
    ensures v % (2 * p) == 2 * ((v / 2) % p) + v % 2
  {
    var q, r := (v / 2) / p, (v / 2) % p;
    assert v / 2 == q * p + r;
    assert v == q * (2 * p) + (2 * r + v % 2);
    DivModUnique(v, 2 * p, q, 2 * r + v % 2);
  }
}
