/** Types shared by every part of the model. */
module Common {

  type Byte = x: int | 0 <= x < 256

  datatype Option<+T> = None | Some(value: T)

  function Min(a: int, b: int): int {
    if a < b then a else b
  }

  function Max(a: int, b: int): int {
    if a < b then b else a
  }

  lemma {:induction false} Multiples(d: nat, e: nat, u: nat)
    requires d <= e
    ensures d * u <= e * u
  {
    if d < e {
      Multiples(d, e - 1, u);
      assert e * u == (e - 1) * u + u;
    }
  }

  lemma DivUnique(x: nat, u: nat, q: nat, r: nat)
    requires r < u && x == q * u + r
    ensures x / u == q
  {
    var q', r' := x / u, x % u;
    assert x == q' * u + r';
    if q > q' { NextMultiple(q', q, u); } else if q < q' { NextMultiple(q, q', u); }
  }

  lemma NextMultiple(d: nat, e: nat, u: nat)
    requires d < e
    ensures d * u + u <= e * u
  {
    Multiples(d + 1, e, u);
    assert (d + 1) * u == d * u + u;
  }
}
