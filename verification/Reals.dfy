/** Algebra of real products, one fact at a time. */
module Reals {

  ghost function AbsReal(x: real): real {
    if x < 0.0 then -x else x
  }

  lemma Assoc(a: real, b: real, c: real)
    ensures (a * b) * c == a * (b * c)
  {
  }

  lemma Shuffle(a: real, b: real, c: real, d: real)
    ensures (a * b) * (c * d) == (a * c) * (b * d)
  {
    calc {
      (a * b) * (c * d);
    ==  { Assoc(a, b, c * d); }
      a * (b * (c * d));
    ==  { Assoc(b, c, d); Assoc(c, b, d); }
      a * (c * (b * d));
    ==  { Assoc(a, c, b * d); }
      (a * c) * (b * d);
    }
  }

  lemma Distribute(a: real, b: real, c: real)
    ensures (a + b) * c == a * c + b * c
    ensures (a - b) * c == a * c - b * c
  {
  }

  lemma MulMono(a: real, b: real, s: real)
    requires a <= b && s >= 0.0
    ensures a * s <= b * s
  {
    Distribute(b, a, s);
    assert (b - a) * s >= 0.0;
  }

  lemma MulStrict(a: real, b: real, s: real)
    requires a < b && s > 0.0
    ensures a * s < b * s
  {
    Distribute(b, a, s);
    assert (b - a) * s > 0.0;
  }

  lemma AbsTimes(x: real, s: real)
    requires s >= 0.0
    ensures AbsReal(x * s) == AbsReal(x) * s
  {
    if x < 0.0 {
      MulMono(x, 0.0, s);
      Distribute(0.0, x, s);
    } else {
      MulMono(0.0, x, s);
    }
  }

  lemma Cancel(a: real, b: real, s: real)
    requires s > 0.0 && a * s <= b * s
    ensures a <= b
  {
    if a > b {
      MulStrict(b, a, s);
    }
  }

  lemma Between(x: real, f: real, most: real, product: real)
    requires 0.0 <= x && 0.0 <= f <= most && product == x * f
    ensures 0.0 <= product <= most * x
  {
    MulMono(0.0, f, x);
    MulMono(f, most, x);
  }

  lemma IntMul(a: int, b: int)
    ensures (a * b) as real == a as real * b as real
  {
  }
}
