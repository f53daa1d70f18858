/** Hamilton quaternions as the filter uses them. */
module Quaternions {
  import opened Reals
  import opened Vectors3

  datatype Quat = Quat(w: real, x: real, y: real, z: real) {

    function NormSq(): real {
      Norm4(w, x, y, z)
    }

    function Times(q: Quat): Quat {
      Quat(Dot4(w, q.w, -x, q.x, -y, q.y, -z, q.z),
           Dot4(x, q.w, w, q.x, y, q.z, -z, q.y),
           Dot4(y, q.w, -x, q.z, w, q.y, z, q.x),
           Dot4(z, q.w, x, q.y, -y, q.x, w, q.z))
    }

    function Plus(q: Quat): Quat {
      Quat(w + q.w, x + q.x, y + q.y, z + q.z)
    }

    function Scaled(a: real): Quat {
      Quat(a * w, a * x, a * y, a * z)
    }

    function Conjugate(): Quat {
      Quat(w, -x, -y, -z)
    }

    function Vector(): Vec3 {
      Vec3(x, y, z)
    }

    /** Conjugate over squared norm; the zero quaternion has the zero quaternion as inverse. */
    function Inverse(): Quat {
      var n := NormSq();
      if n > 0.0 then Conjugate().Scaled(1.0 / n) else Quat(0.0, 0.0, 0.0, 0.0)
    }

    /** Division by the norm; a zero quaternion is left alone. */
    function Normalized(sqrt: real -> real): Quat
      requires IsSqrt(sqrt)
    {
      if NormSq() > 0.0 then NormPositive(this, sqrt(NormSq())); Scaled(1.0 / sqrt(NormSq())) else this
    }

    predicate IsUnit() {
      NormSq() == 1.0
    }
  }

  const IDENTITY := Quat(1.0, 0.0, 0.0, 0.0)

  function Norm4(a: real, b: real, c: real, d: real): real {
    a * a + b * b + c * c + d * d
  }

  function Dot4(a: real, p: real, b: real, q: real, c: real, r: real, d: real, s: real): real {
    a * p + b * q + c * r + d * s
  }

  lemma NormPositive(q: Quat, n: real)
    requires n >= 0.0 && n * n == q.NormSq() > 0.0
    ensures n > 0.0
  {
  }

  /** The Euler step q + (1/2) (q * (0, omega)) dt of the attitude kinematics. */
  function EulerStep(q: Quat, omega: Vec3, dt: real): Quat {
    q.Plus(q.Times(Quat(0.0, omega.x, omega.y, omega.z)).Scaled(0.5).Scaled(dt))
  }

  /** The small rotation (1, theta / 2), before normalising. */
  function SmallRotation(theta: Vec3): Quat {
    Quat(1.0, theta.x * 0.5, theta.y * 0.5, theta.z * 0.5)
  }

  /** The quaternion product preserves norm. */
  lemma NormOfProduct(p: Quat, q: Quat)
    ensures p.Times(q).NormSq() == p.NormSq() * q.NormSq()
  {
    FourSquares(p.w, p.x, p.y, p.z, q.w, q.x, q.y, q.z);
  }

  lemma FourSquares(a: real, b: real, c: real, d: real, e: real, f: real, g: real, h: real)
    ensures Norm4(Dot4(a, e, -b, f, -c, g, -d, h), Dot4(b, e, a, f, c, h, -d, g),
                  Dot4(c, e, -b, h, a, g, d, f), Dot4(d, e, b, g, -c, f, a, h))
         == Norm4(a, b, c, d) * Norm4(e, f, g, h)
  {
    FourSquaresExpanded(a, b, c, d, e, f, g, h);
    assert Dot4(a, e, -b, f, -c, g, -d, h) == a * e - b * f - c * g - d * h;
    assert Dot4(b, e, a, f, c, h, -d, g) == b * e + a * f + c * h - d * g;
    assert Dot4(c, e, -b, h, a, g, d, f) == c * e - b * h + a * g + d * f;
    assert Dot4(d, e, b, g, -c, f, a, h) == d * e + b * g - c * f + a * h;
  }

  lemma FourSquaresExpanded(a: real, b: real, c: real, d: real, e: real, f: real, g: real, h: real)
    ensures Norm4(a * e - b * f - c * g - d * h, b * e + a * f + c * h - d * g,
                  c * e - b * h + a * g + d * f, d * e + b * g - c * f + a * h)
         == Norm4(a, b, c, d) * Norm4(e, f, g, h)
  {
  }

  /** (1, theta/2) has squared norm 1 + |theta|^2 / 4. */
  lemma NormOfSmallRotation(theta: Vec3)
    ensures SmallRotation(theta).NormSq() == 1.0 + theta.NormSq() / 4.0
  {
  }

  /** An Euler step is a rotation by (1, omega dt / 2), not yet normalised. */
  lemma EulerStepIsProduct(q: Quat, omega: Vec3, dt: real)
    ensures EulerStep(q, omega, dt) == q.Times(SmallRotation(omega.Scaled(dt)))
  {
    HalfStep(q.w, -q.x, omega.x, -q.y, omega.y, -q.z, omega.z, dt);
    HalfStep(q.x, q.w, omega.x, q.y, omega.z, -q.z, omega.y, dt);
    HalfStep(q.y, -q.x, omega.z, q.w, omega.y, q.z, omega.x, dt);
    HalfStep(q.z, q.x, omega.y, -q.y, omega.x, q.w, omega.z, dt);
  }

  lemma HalfStep(p: real, a: real, x: real, b: real, y: real, c: real, z: real, t: real)
    ensures p + t * (0.5 * Dot4(p, 0.0, a, x, b, y, c, z))
         == Dot4(p, 1.0, a, (t * x) * 0.5, b, (t * y) * 0.5, c, (t * z) * 0.5)
  {
  }

  lemma IdentityTimes(q: Quat)
    ensures IDENTITY.Times(q) == q
  {
  }

  /** The product is Hamilton's: of scalars s, t and vectors a, b it is (s t - a b, s b + t a + a x b). */
  lemma HamiltonProduct(p: Quat, q: Quat)
    ensures p.Times(q).w == p.w * q.w - p.Vector().Dot(q.Vector())
    ensures p.Times(q).Vector()
         == q.Vector().Scaled(p.w).Plus(p.Vector().Scaled(q.w)).Plus(p.Vector().Cross(q.Vector()))
  {
  }

  lemma NormOfScaledVector(v: Vec3, a: real)
    ensures v.Scaled(a).NormSq() == (a * a) * v.NormSq()
  {
  }

  /** The Euler step multiplies the squared norm by 1 + |omega|^2 dt^2 / 4. */
  lemma NormOfEulerStep(q: Quat, omega: Vec3, dt: real)
    ensures EulerStep(q, omega, dt).NormSq() == q.NormSq() * (1.0 + (dt * dt) * omega.NormSq() / 4.0)
    ensures q.IsUnit() ==> EulerStep(q, omega, dt).NormSq() >= 1.0
  {
    var s := SmallRotation(omega.Scaled(dt));
    EulerStepIsProduct(q, omega, dt);
    NormOfProduct(q, s);
    NormOfSmallRotation(omega.Scaled(dt));
    NormOfScaledVector(omega, dt);
    assert s.NormSq() >= 1.0;
  }

  /** Normalising gives a unit quaternion exactly when the quaternion is not zero ... */
  lemma NormalizedIsUnit(q: Quat, sqrt: real -> real)
    requires IsSqrt(sqrt)
    ensures q.Normalized(sqrt).IsUnit() <==> q.NormSq() > 0.0
  {
  }

  /** ... and leaves a unit one alone. */
  lemma NormalizedUnit(q: Quat, sqrt: real -> real)
    requires IsSqrt(sqrt) && q.IsUnit()
    ensures q.Normalized(sqrt) == q
  {
  }

  /** The divisor is at least 1 when the squared norm is. */
  lemma RootAtLeastOne(a: real, sqrt: real -> real)
    requires IsSqrt(sqrt) && a >= 1.0
    ensures sqrt(a) >= 1.0
  {
    SquareMonotone(1.0, sqrt(a));
  }

  lemma LeftScaled(k: real, a: real, p: real, b: real, q: real, c: real, r: real, d: real, s: real,
                   a': real, b': real, c': real, d': real)
    requires a' == k * a && b' == k * b && c' == k * c && d' == k * d
    ensures Dot4(a', p, b', q, c', r, d', s) == k * Dot4(a, p, b, q, c, r, d, s)
  {
    assert a' * p == k * (a * p) && b' * q == k * (b * q) && c' * r == k * (c * r) && d' * s == k * (d * s);
  }

  lemma RightScaled(k: real, a: real, p: real, b: real, q: real, c: real, r: real, d: real, s: real,
                    p': real, q': real, r': real, s': real)
    requires p' == k * p && q' == k * q && r' == k * r && s' == k * s
    ensures Dot4(a, p', b, q', c, r', d, s') == k * Dot4(a, p, b, q, c, r, d, s)
  {
    LeftScaled(k, p, a, q, b, r, c, s, d, p', q', r', s');
  }

  lemma NegatedProduct(k: real, a: real)
    ensures -(k * a) == k * -a
  {
  }

  lemma ScaledOnLeft(p: Quat, q: Quat, k: real)
    ensures p.Scaled(k).Times(q) == p.Times(q).Scaled(k)
  {
    hide Dot4;
    var r := p.Scaled(k);
    NegatedProduct(k, p.x);
    NegatedProduct(k, p.y);
    NegatedProduct(k, p.z);
    LeftScaled(k, p.w, q.w, -p.x, q.x, -p.y, q.y, -p.z, q.z, r.w, -r.x, -r.y, -r.z);
    LeftScaled(k, p.x, q.w, p.w, q.x, p.y, q.z, -p.z, q.y, r.x, r.w, r.y, -r.z);
    LeftScaled(k, p.y, q.w, -p.x, q.z, p.w, q.y, p.z, q.x, r.y, -r.x, r.w, r.z);
    LeftScaled(k, p.z, q.w, p.x, q.y, -p.y, q.x, p.w, q.z, r.z, r.x, -r.y, r.w);
  }

  lemma ScaledOnRight(p: Quat, q: Quat, k: real)
    ensures p.Times(q.Scaled(k)) == p.Times(q).Scaled(k)
  {
    hide Dot4;
    var t := q.Scaled(k);
    RightScaled(k, p.w, q.w, -p.x, q.x, -p.y, q.y, -p.z, q.z, t.w, t.x, t.y, t.z);
    RightScaled(k, p.x, q.w, p.w, q.x, p.y, q.z, -p.z, q.y, t.w, t.x, t.z, t.y);
    RightScaled(k, p.y, q.w, -p.x, q.z, p.w, q.y, p.z, q.x, t.w, t.z, t.y, t.x);
    RightScaled(k, p.z, q.w, p.x, q.y, -p.y, q.x, p.w, q.z, t.w, t.y, t.x, t.z);
  }

  lemma ScaledTimes(p: Quat, q: Quat, k: real)
    ensures p.Scaled(k).Times(q) == p.Times(q).Scaled(k)
    ensures p.Times(q.Scaled(k)) == p.Times(q).Scaled(k)
  {
    hide Quat.Times, Quat.Scaled;
    ScaledOnLeft(p, q, k);
    ScaledOnRight(p, q, k);
  }

  lemma TimesConjugate(q: Quat)
    ensures q.Times(q.Conjugate()) == Quat(q.NormSq(), 0.0, 0.0, 0.0) == q.Conjugate().Times(q)
  {
  }

  /** Inverse() is the multiplicative inverse of every nonzero quaternion. */
  lemma InverseIsInverse(q: Quat)
    requires q.NormSq() > 0.0
    ensures q.Times(q.Inverse()) == IDENTITY
    ensures q.Inverse().Times(q) == IDENTITY
  {
    hide Quat.Times, Quat.Conjugate, Quat.NormSq;
    var n := q.NormSq();
    TimesConjugate(q);
    ScaledTimes(q, q.Conjugate(), 1.0 / n);
    ScaledTimes(q.Conjugate(), q, 1.0 / n);
    assert (1.0 / n) * n == 1.0;
  }

  lemma AssociativeW(a: real, b: real, c: real, d: real, e: real, f: real, g: real, h: real,
                     i: real, j: real, k: real, l: real)
    ensures Dot4(Dot4(a, e, -b, f, -c, g, -d, h), i,
                 -Dot4(b, e, a, f, c, h, -d, g), j,
                 -Dot4(c, e, -b, h, a, g, d, f), k,
                 -Dot4(d, e, b, g, -c, f, a, h), l)
         == Dot4(a, Dot4(e, i, -f, j, -g, k, -h, l),
                 -b, Dot4(f, i, e, j, g, l, -h, k),
                 -c, Dot4(g, i, -f, l, e, k, h, j),
                 -d, Dot4(h, i, f, k, -g, j, e, l))
  {
  }

  lemma AssociativeX(a: real, b: real, c: real, d: real, e: real, f: real, g: real, h: real,
                     i: real, j: real, k: real, l: real)
    ensures Dot4(Dot4(b, e, a, f, c, h, -d, g), i,
                 Dot4(a, e, -b, f, -c, g, -d, h), j,
                 Dot4(c, e, -b, h, a, g, d, f), l,
                 -Dot4(d, e, b, g, -c, f, a, h), k)
         == Dot4(b, Dot4(e, i, -f, j, -g, k, -h, l),
                 a, Dot4(f, i, e, j, g, l, -h, k),
                 c, Dot4(h, i, f, k, -g, j, e, l),
                 -d, Dot4(g, i, -f, l, e, k, h, j))
  {
  }

  lemma AssociativeY(a: real, b: real, c: real, d: real, e: real, f: real, g: real, h: real,
                     i: real, j: real, k: real, l: real)
    ensures Dot4(Dot4(c, e, -b, h, a, g, d, f), i,
                 -Dot4(b, e, a, f, c, h, -d, g), l,
                 Dot4(a, e, -b, f, -c, g, -d, h), k,
                 Dot4(d, e, b, g, -c, f, a, h), j)
         == Dot4(c, Dot4(e, i, -f, j, -g, k, -h, l),
                 -b, Dot4(h, i, f, k, -g, j, e, l),
                 a, Dot4(g, i, -f, l, e, k, h, j),
                 d, Dot4(f, i, e, j, g, l, -h, k))
  {
  }

  lemma AssociativeZ(a: real, b: real, c: real, d: real, e: real, f: real, g: real, h: real,
                     i: real, j: real, k: real, l: real)
    ensures Dot4(Dot4(d, e, b, g, -c, f, a, h), i,
                 Dot4(b, e, a, f, c, h, -d, g), k,
                 -Dot4(c, e, -b, h, a, g, d, f), j,
                 Dot4(a, e, -b, f, -c, g, -d, h), l)
         == Dot4(d, Dot4(e, i, -f, j, -g, k, -h, l),
                 b, Dot4(g, i, -f, l, e, k, h, j),
                 -c, Dot4(f, i, e, j, g, l, -h, k),
                 a, Dot4(h, i, f, k, -g, j, e, l))
  {
  }

  /** The quaternion product is associative. */
  lemma TimesAssociative(p: Quat, q: Quat, r: Quat)
    ensures p.Times(q).Times(r) == p.Times(q.Times(r))
  {
    hide Dot4;
    AssociativeW(p.w, p.x, p.y, p.z, q.w, q.x, q.y, q.z, r.w, r.x, r.y, r.z);
    AssociativeX(p.w, p.x, p.y, p.z, q.w, q.x, q.y, q.z, r.w, r.x, r.y, r.z);
    AssociativeY(p.w, p.x, p.y, p.z, q.w, q.x, q.y, q.z, r.w, r.x, r.y, r.z);
    AssociativeZ(p.w, p.x, p.y, p.z, q.w, q.x, q.y, q.z, r.w, r.x, r.y, r.z);
  }

  lemma TimesIdentity(q: Quat)
    ensures q.Times(IDENTITY) == q
  {
  }

  // ---------- Inverses and products ----------

  lemma SameScalar(p: Quat, q: Quat)
    ensures p.Times(q).w == q.Times(p).w
  {
  }

  lemma DotAdds(a: real, p: real, b: real, q: real, c: real, r: real, d: real, s: real,
                p': real, q': real, r': real, s': real)
    ensures Dot4(a, p + p', b, q + q', c, r + r', d, s + s')
         == Dot4(a, p, b, q, c, r, d, s) + Dot4(a, p', b, q', c, r', d, s')
  {
  }

  lemma TimesPlus(p: Quat, q: Quat, r: Quat)
    ensures p.Times(q.Plus(r)) == p.Times(q).Plus(p.Times(r))
  {
    hide Dot4;
    DotAdds(p.w, q.w, -p.x, q.x, -p.y, q.y, -p.z, q.z, r.w, r.x, r.y, r.z);
    DotAdds(p.x, q.w, p.w, q.x, p.y, q.z, -p.z, q.y, r.w, r.x, r.z, r.y);
    DotAdds(p.y, q.w, -p.x, q.z, p.w, q.y, p.z, q.x, r.w, r.z, r.y, r.x);
    DotAdds(p.z, q.w, p.x, q.y, -p.y, q.x, p.w, q.z, r.w, r.y, r.x, r.z);
  }

  lemma DotAddsLeft(a: real, p: real, b: real, q: real, c: real, r: real, d: real, s: real,
                    a': real, b': real, c': real, d': real, x: real, y: real, z: real, w: real)
    requires x == a + a' && y == b + b' && z == c + c' && w == d + d'
    ensures Dot4(x, p, y, q, z, r, w, s) == Dot4(a, p, b, q, c, r, d, s) + Dot4(a', p, b', q, c', r, d', s)
  {
  }

  lemma PlusTimes(p: Quat, q: Quat, r: Quat)
    ensures p.Plus(q).Times(r) == p.Times(r).Plus(q.Times(r))
  {
    hide Dot4;
    var t := p.Plus(q);
    DotAddsLeft(p.w, r.w, -p.x, r.x, -p.y, r.y, -p.z, r.z, q.w, -q.x, -q.y, -q.z, t.w, -t.x, -t.y, -t.z);
    DotAddsLeft(p.x, r.w, p.w, r.x, p.y, r.z, -p.z, r.y, q.x, q.w, q.y, -q.z, t.x, t.w, t.y, -t.z);
    DotAddsLeft(p.y, r.w, -p.x, r.z, p.w, r.y, p.z, r.x, q.y, -q.x, q.w, q.z, t.y, -t.x, t.w, t.z);
    DotAddsLeft(p.z, r.w, p.x, r.y, -p.y, r.x, p.w, r.z, q.z, q.x, -q.y, q.w, t.z, t.x, -t.y, t.w);
  }

  lemma NormOfNonzeroProduct(p: Quat, q: Quat)
    requires p.NormSq() > 0.0 && q.NormSq() > 0.0
    ensures p.Times(q).NormSq() > 0.0
  {
    hide Norm4, Quat.Times;
    NormOfProduct(p, q);
    ProductSign(p.NormSq(), q.NormSq(), p.Times(q).NormSq());
  }

  lemma InverseOfProduct(p: Quat, q: Quat)
    requires p.NormSq() > 0.0 && q.NormSq() > 0.0
    ensures p.Times(q).Inverse() == q.Inverse().Times(p.Inverse())
  {
    hide Quat.Times, Quat.Inverse, Quat.NormSq;
    var x, y := p.Times(q).Inverse(), q.Inverse().Times(p.Inverse());
    NormOfNonzeroProduct(p, q);
    InverseIsInverse(p);
    InverseIsInverse(q);
    InverseIsInverse(p.Times(q));
    TimesAssociative(p, q, y);
    TimesAssociative(q, q.Inverse(), p.Inverse());
    IdentityTimes(p.Inverse());
    TimesAssociative(x, p.Times(q), y);
    IdentityTimes(y);
    TimesIdentity(x);
  }

  /** A common factor on the right leaves the quotient p q^-1 alone ... */
  lemma RightFactorCancels(p: Quat, q: Quat, v: Quat)
    requires q.NormSq() > 0.0 && v.NormSq() > 0.0
    ensures p.Times(v).Times(q.Times(v).Inverse()) == p.Times(q.Inverse())
  {
    hide Quat.Times, Quat.Inverse, Quat.NormSq;
    InverseOfProduct(q, v);
    TimesAssociative(p, v, v.Inverse().Times(q.Inverse()));
    TimesAssociative(v, v.Inverse(), q.Inverse());
    InverseIsInverse(v);
    IdentityTimes(q.Inverse());
  }

  /** ... and turns the quotient q^-1 p by its own inverse. */
  lemma RightFactorTurns(p: Quat, q: Quat, u: Quat, v: Quat)
    requires q.NormSq() > 0.0 && u.NormSq() > 0.0
    ensures q.Times(u).Inverse().Times(p.Times(v)) == u.Inverse().Times(q.Inverse().Times(p)).Times(v)
  {
    hide Quat.Times, Quat.Inverse, Quat.NormSq;
    InverseOfProduct(q, u);
    TimesAssociative(u.Inverse().Times(q.Inverse()), p, v);
    TimesAssociative(u.Inverse(), q.Inverse(), p);
  }

  lemma InverseScales(q: Quat)
    requires q.NormSq() > 0.0
    ensures q.Inverse() == q.Conjugate().Scaled(1.0 / q.NormSq()) && (1.0 / q.NormSq()) * q.NormSq() == 1.0
  {
  }
}
