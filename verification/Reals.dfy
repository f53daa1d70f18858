/** Names for products and a few facts about them.  A named product keeps a proof linear wherever the
    factors do not matter. */
module Reals {

  function Abs(x: real): real {
    if x < 0.0 then -x else x
  }

  function Times(a: real, b: real): real {
    a * b
  }

  function Square(a: real): (r: real)
    ensures r >= 0.0
    ensures a != 0.0 ==> r > 0.0
  {
    ProductSign(a, a, a * a);
    a * a
  }

  /** n times x. */
  function Multiple(n: nat, x: real): real {
    n as real * x
  }

  lemma MultipleStep(n: nat, x: real)
    ensures Multiple(0, x) == 0.0 && Multiple(1, x) == x && Multiple(n + 1, x) == Multiple(n, x) + x
  {
  }

  lemma MultiplesDiffer(a: nat, b: nat, x: real)
    requires a <= b
    ensures Multiple(b, x) - Multiple(a, x) == Multiple(b - a, x)
  {
  }

  lemma ProductSign(a: real, b: real, r: real)
    requires r == a * b
    ensures (a > 0.0 && b > 0.0) || (a < 0.0 && b < 0.0) ==> r > 0.0
    ensures a == 0.0 || b == 0.0 ==> r == 0.0
    ensures a >= 0.0 && b >= 0.0 ==> r >= 0.0
  {
  }

  lemma ProductMonotone(p: real, p': real, q: real, q': real)
    requires 0.0 <= p <= p' && 0.0 <= q <= q'
    ensures p * q <= p' * q'
  {
  }

  function Sum3(a: real, x: real, b: real, y: real, c: real, z: real): real {
    a * x + b * y + c * z
  }

  lemma Sum3Cycle(a: real, x: real, b: real, y: real, c: real, z: real)
    ensures Sum3(a, x, b, y, c, z) == Sum3(b, y, c, z, a, x) == Sum3(c, z, a, x, b, y)
  {
  }

  lemma Sum3Times(a: real, x: real, b: real, y: real, c: real, z: real)
    ensures Sum3(a, x, b, y, c, z) == Times(a, x) + Times(b, y) + Times(c, z)
  {
  }

  /** ceil(x / step). */
  function Steps(x: real, step: real): int
    requires step > 0.0
  {
    -((-(x / step)).Floor)
  }

  /** n steps cover x exactly when there are ceil(x / step) of them. */
  lemma StepsCover(x: real, step: real, n: nat)
    requires step > 0.0
    ensures Multiple(n, step) >= x <==> n >= Steps(x, step)
  {
    var q, c := x / step, Steps(x, step);
    assert q * step == x && c as real >= q > (c - 1) as real;
    if n >= c {
      ProductSign(n as real - q, step, Multiple(n, step) - x);
    } else {
      ProductSign(q - n as real, step, x - Multiple(n, step));
    }
  }
}
