/**
 * The per-term arithmetic of the harmonic improper potential: bond vectors,
 * the clamped cosine of the improper angle, the harmonic energy, the six
 * projection coefficients and the four atom forces of one improper term.
 *
 * The square root, the arc cosine and the periodic minimum-image correction
 * are library or foreign calls; they are passed in as arbitrary functions and
 * nothing here depends on what they return.
 */
module ImproperKernel {
  import opened Vectors

  /** Allowed overshoot of the cosine before the "Improper problem" warning. */
  const TOLERANCE: real := 0.05
  /** Floor applied to the sine terms before they are inverted or divided by. */
  const SMALL: real := 0.001

  /** One row of the improper list: four atom indices and the improper type. */
  datatype ImproperTerm = ImproperTerm(i1: nat, i2: nat, i3: nat, i4: nat, itype: nat)

  /** The calls the kernel makes into code outside it. */
  datatype Externals = Externals(
    sqrt: real -> real,
    acos: real -> real,
    minimumImage: Vec3 -> Vec3)

  datatype Bonds = Bonds(vb1: Vec3, vb2: Vec3, vb3: Vec3)

  /** The angle quantities of one term; `cRaw` is the cosine before clamping. */
  datatype Angle = Angle(
    ss1: real, ss2: real, ss3: real,
    r1: real, r2: real, r3: real,
    c0: real, c1: real, c2: real,
    s1: real, s2: real, s12: real,
    cRaw: real, problem: bool,
    c: real, s: real)

  /** The six coefficients projecting the force onto the three bond vectors. */
  datatype Coefficients = Coefficients(a11: real, a22: real, a33: real, a12: real, a13: real, a23: real)

  datatype Kernel = Kernel(energy: real, co: Coefficients)

  datatype Forces = Forces(f1: Vec3, f2: Vec3, f3: Vec3, f4: Vec3)

  datatype TermResult = TermResult(bonds: Bonds, angle: Angle, kernel: Kernel, forces: Forces)

  const NoCoefficients: Coefficients := Coefficients(0.0, 0.0, 0.0, 0.0, 0.0, 0.0)

  function Abs(v: real): real {
    if v < 0.0 then -v else v
  }

  predicate IndicesIn(t: ImproperTerm, n: nat) {
    t.i1 < n && t.i2 < n && t.i3 < n && t.i4 < n
  }

  /** The three minimum-imaged bond vectors i1-i2, i3-i2 and i4-i3. */
  function BondVectors(x: seq<Vec3>, t: ImproperTerm, ext: Externals): Bonds
    requires IndicesIn(t, |x|)
  {
    Bonds(ext.minimumImage(Sub(x[t.i1], x[t.i2])),
          ext.minimumImage(Sub(x[t.i3], x[t.i2])),
          ext.minimumImage(Sub(x[t.i4], x[t.i3])))
  }

  /** No bond vector has zero length, so the inverse squared lengths exist. */
  predicate NonDegenerate(b: Bonds) {
    NormSq(b.vb1) != 0.0 && NormSq(b.vb2) != 0.0 && NormSq(b.vb3) != 0.0
  }

  /**
   * 1/(1 - ci^2) with the denominator floored at SMALL: the exact inverse
   * while the denominator is at least SMALL, and the cap 1/SMALL otherwise.
   */
  function InvSinSq(ci: real): (r: real)
    ensures 1.0 <= r <= 1.0 / SMALL
    ensures 1.0 - ci * ci >= SMALL ==> r * (1.0 - ci * ci) == 1.0
    ensures 1.0 - ci * ci < SMALL ==> r == 1.0 / SMALL
  {
    var s := 1.0 - ci * ci;
    var s := if s < SMALL then SMALL else s;
    assert ci * ci >= 0.0;
    assert 1.0 / s >= 1.0 by {
      DivAtLeastOne(s);
    }
    assert 1.0 / s <= 1.0 / SMALL by {
      DivAntitone(SMALL, s);
    }
    1.0 / s
  }

  lemma DivAtLeastOne(s: real)
    requires 0.0 < s <= 1.0
    ensures 1.0 / s >= 1.0
  {
    assert (1.0 / s) * s == 1.0;
  }

  lemma DivAntitone(lo: real, s: real)
    requires 0.0 < lo <= s
    ensures 1.0 / s <= 1.0 / lo
  {
    assert (1.0 / s) * s == 1.0 && (1.0 / lo) * lo == 1.0;
  }

  /** The cosine forced into [-1, 1]: first capped at 1, then floored at -1. */
  function ClampCos(c: real): (r: real)
    ensures -1.0 <= r <= 1.0
    ensures -1.0 <= c <= 1.0 ==> r == c
    ensures c > 1.0 ==> r == 1.0
    ensures c < -1.0 ==> r == -1.0
  {
    var c := if c > 1.0 then 1.0 else c;
    if c < -1.0 then -1.0 else c
  }

  /** The sine sqrt(1 - c^2), floored at SMALL. */
  function ClampSin(c: real, sqrt: real -> real): (r: real)
    ensures r >= SMALL
    ensures r == SMALL || r == sqrt(1.0 - c * c)
    ensures sqrt(1.0 - c * c) >= SMALL ==> r == sqrt(1.0 - c * c)
  {
    var s := sqrt(1.0 - c * c);
    if s < SMALL then SMALL else s
  }

  /** The geometry is ill-conditioned: the cosine is off by more than TOLERANCE. */
  predicate ImproperProblem(c: real) {
    c > 1.0 + TOLERANCE || c < (-1.0 - TOLERANCE)
  }

  /** The bounds every angle leaves behind, whatever the geometry and sqrt. */
  predicate ValidAngle(g: Angle) {
    1.0 <= g.s1 <= 1.0 / SMALL && 1.0 <= g.s2 <= 1.0 / SMALL
    && -1.0 <= g.c <= 1.0 && g.s >= SMALL
  }

  /** Direction cosines, the clamped denominators and the improper cosine. */
  function AngleOf(b: Bonds, ext: Externals): (g: Angle)
    requires NonDegenerate(b)
    ensures ValidAngle(g)
    ensures g.problem <==> Abs(g.c - g.cRaw) > TOLERANCE
  {
    var ss1 := 1.0 / NormSq(b.vb1);
    var ss2 := 1.0 / NormSq(b.vb2);
    var ss3 := 1.0 / NormSq(b.vb3);
    var r1 := ext.sqrt(ss1);
    var r2 := ext.sqrt(ss2);
    var r3 := ext.sqrt(ss3);
    var c0 := Dot(b.vb1, b.vb3) * r1 * r3;
    var c1 := Dot(b.vb1, b.vb2) * r1 * r2;
    var c2 := -Dot(b.vb3, b.vb2) * r3 * r2;
    var s1 := InvSinSq(c1);
    var s2 := InvSinSq(c2);
    var s12 := ext.sqrt(s1 * s2);
    var cRaw := (c1 * c2 + c0) * s12;
    var c := ClampCos(cRaw);
    Angle(ss1, ss2, ss3, r1, r2, r3, c0, c1, c2, s1, s2, s12,
          cRaw, ImproperProblem(cRaw), c, ClampSin(c, ext.sqrt))
  }

  /**
   * Energy and coefficients for the improper angle theta = acos(c) (the
   * caller applies acos). `a` is rebound in the source's order:
   * a := k*domega gives the energy a*domega, then a := -2a/s is the factor
   * that rescales c and s12 before the coefficients are formed.
   */
  function ForceKernel(g: Angle, k: real, chi: real, theta: real): (r: Kernel)
    requires g.s >= SMALL
    ensures r.energy == HarmonicEnergy(k, theta - chi)
    ensures k >= 0.0 ==> r.energy >= 0.0
    ensures theta == chi ==> r.energy == 0.0 && r.co == NoCoefficients
  {
    var domega := theta - chi;
    var a := k * domega;
    var eimproper := a * domega;
    HarmonicNonNegative(k, domega);
    Kernel(eimproper, Rescaled(g, -a * 2.0 / g.s))
  }

  /** c := c*a and s12 := s12*a, then the six coefficients from the rebound values. */
  function Rescaled(g: Angle, a: real): Coefficients {
    var c := g.c * a;
    var s12 := g.s12 * a;
    Project(g, c, s12)
  }

  /** The harmonic improper energy K (theta - chi)^2 for domega = theta - chi. */
  function HarmonicEnergy(k: real, domega: real): real {
    k * (domega * domega)
  }

  lemma HarmonicNonNegative(k: real, d: real)
    ensures k * d * d == HarmonicEnergy(k, d)
    ensures k >= 0.0 ==> HarmonicEnergy(k, d) >= 0.0
  {
    assert d * d >= 0.0;
  }

  /**
   * The six coefficients from the angle quantities, with `c` and `s12` given
   * separately (the kernel passes the values rebound by a).
   */
  function Project(g: Angle, c: real, s12: real): Coefficients {
    Coefficients(
      c * g.ss1 * g.s1,
      -g.ss2 * (2.0 * g.c0 * s12 - c * (g.s1 + g.s2)),
      c * g.ss3 * g.s2,
      -g.r1 * g.r2 * (g.c1 * c * g.s1 + g.c2 * s12),
      -g.r1 * g.r3 * s12,
      g.r2 * g.r3 * (g.c2 * c * g.s2 + g.c1 * s12))
  }

  function ScaleCoefficients(a: real, co: Coefficients): Coefficients {
    Coefficients(a * co.a11, a * co.a22, a * co.a33, a * co.a12, a * co.a13, a * co.a23)
  }

  /** The coefficients are linear in (c, s12) jointly: scaling both by a scales all six by a. */
  lemma ProjectHomogeneous(g: Angle, c: real, s12: real, a: real)
    ensures Project(g, c * a, s12 * a) == ScaleCoefficients(a, Project(g, c, s12))
  {
    RescaleSum(-g.ss2, 2.0 * g.c0, s12, -c, g.s1 + g.s2, a);
    RescaleSum(-g.r1 * g.r2, g.c1 * c, g.s1, g.c2, s12, a);
    RescaleSum(g.r2 * g.r3, g.c2 * c, g.s2, g.c1, s12, a);
  }

  /** Rebinding c and s12 by the same factor a scales every coefficient by a. */
  lemma RescaledLinear(g: Angle, a: real)
    ensures Rescaled(g, a) == ScaleCoefficients(a, Project(g, g.c, g.s12))
  {
    ProjectHomogeneous(g, g.c, g.s12, a);
  }

  lemma RescaleSum(n: real, p: real, u: real, q: real, v: real, a: real)
    ensures n * (p * (u * a) + q * (v * a)) == a * (n * (p * u + q * v))
  {
    assert p * (u * a) + q * (v * a) == a * (p * u + q * v);
  }

  lemma KernelRescaled(g: Angle, k: real, chi: real, theta: real)
    requires g.s >= SMALL
    ensures ForceKernel(g, k, chi, theta).co == Rescaled(g, -(k * (theta - chi)) * 2.0 / g.s)
  {
  }

  /**
   * The coefficients the kernel produces are the geometric ones (c and s12
   * not rescaled) times the derivative factor -2 k (acos(c) - chi) / s:
   * the order of the rebinding does not change the closed form.
   */
  lemma RescalingFactorizes(g: Angle, k: real, chi: real, theta: real)
    requires g.s >= SMALL
    ensures ForceKernel(g, k, chi, theta).co
         == ScaleCoefficients(-(k * (theta - chi)) * 2.0 / g.s, Project(g, g.c, g.s12))
  {
    KernelRescaled(g, k, chi, theta);
    RescaledLinear(g, -(k * (theta - chi)) * 2.0 / g.s);
  }

  /** f1..f4 from the coefficients: they sum to zero whatever the coefficients. */
  function AssembleForces(co: Coefficients, b: Bonds): (r: Forces)
    ensures Add(Add(r.f1, r.f2), Add(r.f3, r.f4)) == Zero
  {
    var mid := Comb(co.a22, b.vb2, co.a23, b.vb3, co.a12, b.vb1);
    var f1 := Comb(co.a12, b.vb2, co.a13, b.vb3, co.a11, b.vb1);
    var f2 := Sub(Neg(mid), f1);
    var f4 := Comb(co.a23, b.vb2, co.a33, b.vb3, co.a13, b.vb1);
    var f3 := Sub(mid, f4);
    Forces(f1, f2, f3, f4)
  }

  /** Ranges the term's indices must lie in, and a non-degenerate geometry. */
  predicate TermOk(x: seq<Vec3>, t: ImproperTerm, ext: Externals) {
    IndicesIn(t, |x|) && NonDegenerate(BondVectors(x, t, ext))
  }

  /** The whole per-term computation of one loop iteration (before accumulation). */
  function EvalTerm(x: seq<Vec3>, t: ImproperTerm, k: real, chi: real, ext: Externals): (r: TermResult)
    requires TermOk(x, t, ext)
    ensures ValidAngle(r.angle)
    ensures r.angle.problem <==> Abs(r.angle.c - r.angle.cRaw) > TOLERANCE
    ensures r.kernel.energy == HarmonicEnergy(k, ext.acos(r.angle.c) - chi)
    ensures k >= 0.0 ==> r.kernel.energy >= 0.0
    ensures Add(Add(r.forces.f1, r.forces.f2), Add(r.forces.f3, r.forces.f4)) == Zero
    ensures ext.acos(r.angle.c) == chi ==>
      r.forces == Forces(Zero, Zero, Zero, Zero)
  {
    var b := BondVectors(x, t, ext);
    var g := AngleOf(b, ext);
    var theta := ext.acos(g.c);
    var ker := ForceKernel(g, k, chi, theta);
    TermResult(b, g, ker, AssembleForces(ker.co, b))
  }

  function Shift(x: seq<Vec3>, d: Vec3): (r: seq<Vec3>)
    ensures |r| == |x| && forall i :: 0 <= i < |x| ==> r[i] == Add(x[i], d)
  {
    seq(|x|, i requires 0 <= i < |x| => Add(x[i], d))
  }

  /** Translating every atom by d changes nothing in a term's result. */
  lemma TranslationInvariant(x: seq<Vec3>, d: Vec3, t: ImproperTerm, k: real, chi: real, ext: Externals)
    requires TermOk(x, t, ext)
    ensures TermOk(Shift(x, d), t, ext)
    ensures EvalTerm(Shift(x, d), t, k, chi, ext) == EvalTerm(x, t, k, chi, ext)
  {
    var y := Shift(x, d);
    assert Sub(y[t.i1], y[t.i2]) == Sub(x[t.i1], x[t.i2]);
    assert Sub(y[t.i3], y[t.i2]) == Sub(x[t.i3], x[t.i2]);
    assert Sub(y[t.i4], y[t.i3]) == Sub(x[t.i4], x[t.i3]);
    assert BondVectors(y, t, ext) == BondVectors(x, t, ext);
  }
}
