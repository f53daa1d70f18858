/** Bitwise conjunction of natural numbers, for the queue's index mask. */
module Bits {

  function Pow2(k: nat): (r: nat)
    ensures r > 0
  {
    if k == 0 then 1 else 2 * Pow2(k - 1)
  }

  /** a & b, bit by bit. */
  function And(a: nat, b: nat): nat {
    if a == 0 || b == 0 then 0 else 2 * And(a / 2, b / 2) + (if a % 2 == 1 && b % 2 == 1 then 1 else 0)
  }

  /** Masking with 2^k - 1 is the remainder modulo 2^k. */
  lemma {:induction false} MaskIsMod(x: nat, k: nat)
    ensures And(x, Pow2(k) - 1) == x % Pow2(k)
  {
    if k > 0 {
      assert Pow2(k) == 2 * Pow2(k - 1);
      var h := Pow2(k - 1);
      MaskIsMod(x / 2, k - 1);
      hide And, Pow2;
      MaskStep(x, h);
      HalfMod(x, h);
    }
  }

  lemma MaskStep(x: nat, h: nat)
    requires h > 0
    ensures And(x, 2 * h - 1) == 2 * And(x / 2, h - 1) + x % 2
  {
  }

  lemma HalfMod(x: nat, h: nat)
    requires h > 0
    ensures x % (2 * h) == 2 * ((x / 2) % h) + x % 2
  {
    var q, r := (x / 2) / h, (x / 2) % h;
    assert x == q * (2 * h) + (2 * r + x % 2) by {
      assert x / 2 == q * h + r;
      assert q * (2 * h) == 2 * (q * h);
    }
    RemainderUnique(x, 2 * h, q, 2 * r + x % 2);
  }

  lemma RemainderUnique(x: nat, m: nat, q: nat, r: nat)
    requires m > 0 && x == q * m + r && r < m
    ensures x % m == r
  {
    var q', r' := x / m, x % m;
    assert x == q' * m + r';
    if q > q' {
      MulStep(q', q, m);
    } else if q < q' {
      MulStep(q, q', m);
    }
  }

  lemma {:induction false} MulStep(a: nat, b: nat, m: nat)
    requires a < b
    ensures a * m + m <= b * m
    decreases b
  {
    if a + 1 < b {
      MulStep(a, b - 1, m);
    }
  }

  lemma NextMultiple(q: nat, m: nat)
    ensures (q + 1) * m == q * m + m
  {
  }

  ghost predicate PowerOfTwo(c: nat) {
    exists k: nat {:trigger Pow2(k)} :: Pow2(k) == c
  }

  /** The compile-time test c & (c - 1) == 0 accepts exactly the powers of two, for c > 0. */
  lemma {:induction false} PowerOfTwoTest(c: nat)
    requires c > 0
    ensures And(c, c - 1) == 0 <==> PowerOfTwo(c)
  {
    if c == 1 {
      assert Pow2(0) == c;
    } else if c % 2 == 1 {
      assert And(c, c - 1) == 2 * And(c / 2, (c - 1) / 2) && c / 2 == (c - 1) / 2;
      AndSelf(c / 2);
      forall k: nat {:trigger Pow2(k)} ensures Pow2(k) != c {
        if k > 0 { assert Pow2(k) == 2 * Pow2(k - 1); }
      }
    } else {
      PowerOfTwoTest(c / 2);
      assert (c - 1) / 2 == c / 2 - 1;
      assert And(c, c - 1) == 2 * And(c / 2, c / 2 - 1);
      if k: nat :| Pow2(k) == c / 2 {
        assert Pow2(k + 1) == c;
      }
      if k: nat :| Pow2(k) == c {
        assert Pow2(k - 1) == c / 2;
      }
    }
  }

  lemma {:induction false} AndSelf(a: nat)
    ensures And(a, a) == a
  {
    if a > 0 { AndSelf(a / 2); }
  }
}
