/** The least-squares affine fit behind the touch calibration, over exact reals. */
module Affine {
  import opened Options

  datatype Point = Point(x: int, y: int)

  /** A coefficient triple, or one column of the normal equations. */
  datatype Vec = Vec(p: real, q: real, r: real)

  datatype Mat = Mat(m00: real, m01: real, m02: real,
                     m10: real, m11: real, m12: real,
                     m20: real, m21: real, m22: real)

  /** One calibration sample as one axis sees it: the raw position and the wanted coordinate. */
  datatype Sample = Sample(x: real, y: real, b: real)

  datatype Transform = Transform(swapXy: bool, mirrorX: bool, mirrorY: bool, row1: Vec, row2: Vec)

  datatype SolveResult = InvalidArg | InvalidState | Solved(tf: Transform)

  const EPSILON: real := 0.000001

  const ZERO: Vec := Vec(0.0, 0.0, 0.0)

  const ZERO_MAT: Mat := Mat(0.0, 0.0, 0.0, 0.0, 0.0, 0.0, 0.0, 0.0, 0.0)

  function Abs(x: real): real {
    if x < 0.0 then -x else x
  }

  // ----- vectors, matrices and the 3x3 solver

  function Dot(u: Vec, v: Vec): real {
    u.p * v.p + u.q * v.q + u.r * v.r
  }

  function Sub(u: Vec, v: Vec): Vec {
    Vec(u.p - v.p, u.q - v.q, u.r - v.r)
  }

  function Scale(k: real, v: Vec): Vec {
    Vec(k * v.p, k * v.q, k * v.r)
  }

  function Mul(m: Mat, v: Vec): Vec {
    Vec(m.m00 * v.p + m.m01 * v.q + m.m02 * v.r,
        m.m10 * v.p + m.m11 * v.q + m.m12 * v.r,
        m.m20 * v.p + m.m21 * v.q + m.m22 * v.r)
  }

  function Det(m: Mat): real {
    m.m00 * (m.m11 * m.m22 - m.m12 * m.m21) - m.m01 * (m.m10 * m.m22 - m.m12 * m.m20)
    + m.m02 * (m.m10 * m.m21 - m.m11 * m.m20)
  }

  /** The adjugate of m times k times b. */
  function Cramer(m: Mat, k: real, b: Vec): Vec {
    Vec((m.m11 * m.m22 - m.m12 * m.m21) * k * b.p + (m.m02 * m.m21 - m.m01 * m.m22) * k * b.q
        + (m.m01 * m.m12 - m.m02 * m.m11) * k * b.r,
        (m.m12 * m.m20 - m.m10 * m.m22) * k * b.p + (m.m00 * m.m22 - m.m02 * m.m20) * k * b.q
        + (m.m02 * m.m10 - m.m00 * m.m12) * k * b.r,
        (m.m10 * m.m21 - m.m11 * m.m20) * k * b.p + (m.m01 * m.m20 - m.m00 * m.m21) * k * b.q
        + (m.m00 * m.m11 - m.m01 * m.m10) * k * b.r)
  }

  lemma Expand(a: real, b: real, c: real, d: real, e: real, f: real, g: real, h: real, i: real,
               k: real, x: real, y: real, z: real)
    ensures a * ((e * i - f * h) * k * x + (c * h - b * i) * k * y + (b * f - c * e) * k * z)
          + b * ((f * g - d * i) * k * x + (a * i - c * g) * k * y + (c * d - a * f) * k * z)
          + c * ((d * h - e * g) * k * x + (b * g - a * h) * k * y + (a * e - b * d) * k * z)
         == (k * (a * (e * i - f * h) - b * (d * i - f * g) + c * (d * h - e * g))) * x
  {
  }

  lemma RowSolves(a: real, b: real, c: real, d: real, e: real, f: real, g: real, h: real, i: real,
                  k: real, x: real, y: real, z: real, u: real, v: real, w: real)
    requires u == (e * i - f * h) * k * x + (c * h - b * i) * k * y + (b * f - c * e) * k * z
    requires v == (f * g - d * i) * k * x + (a * i - c * g) * k * y + (c * d - a * f) * k * z
    requires w == (d * h - e * g) * k * x + (b * g - a * h) * k * y + (a * e - b * d) * k * z
    ensures a * u + b * v + c * w
         == (k * (a * (e * i - f * h) - b * (d * i - f * g) + c * (d * h - e * g))) * x
  {
    assert a * u == a * ((e * i - f * h) * k * x + (c * h - b * i) * k * y + (b * f - c * e) * k * z);
    assert b * v == b * ((f * g - d * i) * k * x + (a * i - c * g) * k * y + (c * d - a * f) * k * z);
    assert c * w == c * ((d * h - e * g) * k * x + (b * g - a * h) * k * y + (a * e - b * d) * k * z);
    Expand(a, b, c, d, e, f, g, h, i, k, x, y, z);
  }

  /** Every entry of the adjugate of m, times k. */
  function Inverse(m: Mat, k: real): Mat {
    Mat((m.m11 * m.m22 - m.m12 * m.m21) * k, (m.m02 * m.m21 - m.m01 * m.m22) * k, (m.m01 * m.m12 - m.m02 * m.m11) * k,
        (m.m12 * m.m20 - m.m10 * m.m22) * k, (m.m00 * m.m22 - m.m02 * m.m20) * k, (m.m02 * m.m10 - m.m00 * m.m12) * k,
        (m.m10 * m.m21 - m.m11 * m.m20) * k, (m.m01 * m.m20 - m.m00 * m.m21) * k, (m.m00 * m.m11 - m.m01 * m.m10) * k)
  }

  lemma RowTimes(s: Vec, e: Vec, k: real, b: Vec)
    requires s.p == e.p * k && s.q == e.q * k && s.r == e.r * k
    ensures s.p * b.p + s.q * b.q + s.r * b.r == e.p * k * b.p + e.q * k * b.q + e.r * k * b.r
  {
    assert s.p * b.p == e.p * k * b.p;
    assert s.q * b.q == e.q * k * b.q;
    assert s.r * b.r == e.r * k * b.r;
  }

  lemma InverseFirstRow(m: Mat, k: real, b: Vec)
    ensures Mul(Inverse(m, k), b).p == Cramer(m, k, b).p
  {
    var s := Inverse(m, k);
    RowTimes(Vec(s.m00, s.m01, s.m02),
             Vec(m.m11 * m.m22 - m.m12 * m.m21, m.m02 * m.m21 - m.m01 * m.m22, m.m01 * m.m12 - m.m02 * m.m11), k, b);
  }

  lemma InverseSecondRow(m: Mat, k: real, b: Vec)
    ensures Mul(Inverse(m, k), b).q == Cramer(m, k, b).q
  {
    var s := Inverse(m, k);
    RowTimes(Vec(s.m10, s.m11, s.m12),
             Vec(m.m12 * m.m20 - m.m10 * m.m22, m.m00 * m.m22 - m.m02 * m.m20, m.m02 * m.m10 - m.m00 * m.m12), k, b);
  }

  lemma InverseThirdRow(m: Mat, k: real, b: Vec)
    ensures Mul(Inverse(m, k), b).r == Cramer(m, k, b).r
  {
    var s := Inverse(m, k);
    RowTimes(Vec(s.m20, s.m21, s.m22),
             Vec(m.m10 * m.m21 - m.m11 * m.m20, m.m01 * m.m20 - m.m00 * m.m21, m.m00 * m.m11 - m.m01 * m.m10), k, b);
  }

  /** A rotation of the three equations, which leaves the determinant and the solution alone. */
  function Turn(m: Mat): Mat {
    Mat(m.m10, m.m11, m.m12, m.m20, m.m21, m.m22, m.m00, m.m01, m.m02)
  }

  lemma TurnKeeps(m: Mat, k: real, b: Vec)
    ensures Det(Turn(m)) == Det(m)
    ensures Cramer(Turn(m), k, Vec(b.q, b.r, b.p)) == Cramer(m, k, b)
  {
  }

  lemma CramerFirstRow(m: Mat, k: real, b: Vec)
    ensures Mul(m, Cramer(m, k, b)).p == (k * Det(m)) * b.p
  {
    var w := Cramer(m, k, b);
    RowSolves(m.m00, m.m01, m.m02, m.m10, m.m11, m.m12, m.m20, m.m21, m.m22, k, b.p, b.q, b.r, w.p, w.q, w.r);
  }

  lemma CramerScales(m: Mat, k: real, b: Vec)
    ensures Mul(m, Cramer(m, k, b)) == Scale(k * Det(m), b)
  {
    var n, c := Turn(m), Vec(b.q, b.r, b.p);
    CramerFirstRow(m, k, b);
    CramerFirstRow(n, k, c);
    CramerFirstRow(Turn(n), k, Vec(c.q, c.r, c.p));
    TurnKeeps(m, k, b);
    TurnKeeps(n, k, c);
    hide Cramer, Det;
  }

  lemma CramerInverts(m: Mat, k: real, v: Vec)
    requires k * Det(m) == 1.0
    ensures Cramer(m, k, Mul(m, v)) == v
  {
  }

  method SolveNormalEquations(m: Mat, b: Vec) returns (r: Option<Vec>)
    ensures r.Some? <==> Abs(Det(m)) >= EPSILON
    ensures r.Some? ==> Mul(m, r.value) == b
    ensures r.Some? ==> forall v :: Mul(m, v) == b ==> v == r.value
  {
    var det := Det(m);
    if Abs(det) < EPSILON {
      return None;
    }
    var invDet := 1.0 / det;
    var x := Mul(Inverse(m, invDet), b);
    hide Mul, Inverse, Cramer, Det;
    InverseFirstRow(m, invDet, b);
    InverseSecondRow(m, invDet, b);
    InverseThirdRow(m, invDet, b);
    CramerSolves(m, invDet, b);
    r := Some(x);
  }

  lemma CramerSolves(m: Mat, k: real, b: Vec)
    requires k * Det(m) == 1.0
    ensures Mul(m, Cramer(m, k, b)) == b
    ensures forall v :: Mul(m, v) == b ==> v == Cramer(m, k, b)
  {
    CramerScales(m, k, b);
    hide Mul, Cramer, Det;
    forall v | Mul(m, v) == b
      ensures v == Cramer(m, k, b)
    {
      CramerInverts(m, k, v);
    }
  }

  // ----- residuals and the normal equations

  function Lin(t: Sample, c: Vec): real {
    c.p * t.x + c.q * t.y + c.r
  }

  /** A product under a name of its own, so that a linear step need not look inside. */
  function Times(x: real, y: real): real {
    x * y
  }

  function Square(x: real): real {
    Times(x, x)
  }

  /** The sum of squared residuals of coefficients c. */
  function Residuals(s: seq<Sample>, c: Vec): real {
    if s == [] then 0.0 else Residuals(s[..|s| - 1], c) + Square(Lin(s[|s| - 1], c) - s[|s| - 1].b)
  }

  /** The squared norm of a coefficient difference, as the samples see it. */
  function Energy(s: seq<Sample>, d: Vec): real {
    if s == [] then 0.0 else Energy(s[..|s| - 1], d) + Square(Lin(s[|s| - 1], d))
  }

  function Cross(s: seq<Sample>, c: Vec, d: Vec): real {
    if s == [] then 0.0
    else Cross(s[..|s| - 1], c, d) + Overlap(s[|s| - 1], c, d)
  }

  function Overlap(t: Sample, c: Vec, d: Vec): real {
    Times(Lin(t, d), Lin(t, c) - t.b)
  }

  function AddSample(m: Mat, t: Sample): Mat {
    Mat(m.m00 + Times(t.x, t.x), m.m01 + Times(t.x, t.y), m.m02 + Times(t.x, 1.0),
        m.m10 + Times(t.y, t.x), m.m11 + Times(t.y, t.y), m.m12 + Times(t.y, 1.0),
        m.m20 + Times(1.0, t.x), m.m21 + Times(1.0, t.y), m.m22 + Times(1.0, 1.0))
  }

  function AddTarget(v: Vec, t: Sample): Vec {
    Vec(v.p + Times(t.x, t.b), v.q + Times(t.y, t.b), v.r + Times(1.0, t.b))
  }

  function Gram(s: seq<Sample>): Mat {
    if s == [] then ZERO_MAT else AddSample(Gram(s[..|s| - 1]), s[|s| - 1])
  }

  function Rhs(s: seq<Sample>): Vec {
    if s == [] then ZERO else AddTarget(Rhs(s[..|s| - 1]), s[|s| - 1])
  }

  function Plus(u: Vec, v: Vec): Vec {
    Vec(u.p + v.p, u.q + v.q, u.r + v.r)
  }

  /** The row of a sample scaled by l. */
  function Along(t: Sample, l: real): Vec {
    Vec(Times(t.x, l), Times(t.y, l), l)
  }

  lemma RowPoly(a: real, b: real, c: real, k: real, x: real, y: real, p: real, q: real, r: real)
    ensures (a + k * x) * p + (b + k * y) * q + (c + k * 1.0) * r == a * p + b * q + c * r + k * (p * x + q * y + r)
  {
  }

  function RowAdd(u: Vec, k: real, t: Sample): Vec {
    Vec(u.p + Times(k, t.x), u.q + Times(k, t.y), u.r + Times(k, 1.0))
  }

  lemma RowAddDot(u: Vec, k: real, t: Sample, c: Vec)
    ensures Dot(RowAdd(u, k, t), c) == Dot(u, c) + Times(k, Lin(t, c))
  {
    RowPoly(u.p, u.q, u.r, k, t.x, t.y, c.p, c.q, c.r);
  }

  function Rows(m: Mat): (Vec, Vec, Vec) {
    (Vec(m.m00, m.m01, m.m02), Vec(m.m10, m.m11, m.m12), Vec(m.m20, m.m21, m.m22))
  }

  lemma MulIsDots(m: Mat, c: Vec)
    ensures Mul(m, c) == Vec(Dot(Rows(m).0, c), Dot(Rows(m).1, c), Dot(Rows(m).2, c))
  {
  }

  lemma AddSampleRows(m: Mat, t: Sample)
    ensures Rows(AddSample(m, t)).0 == RowAdd(Rows(m).0, t.x, t)
    ensures Rows(AddSample(m, t)).1 == RowAdd(Rows(m).1, t.y, t)
    ensures Rows(AddSample(m, t)).2 == RowAdd(Rows(m).2, 1.0, t)
  {
    hide Times;
  }

  lemma TimesOne(l: real)
    ensures Times(1.0, l) == l
  {
  }

  lemma MulAdd(m: Mat, t: Sample, c: Vec)
    ensures Mul(AddSample(m, t), c) == Plus(Mul(m, c), Along(t, Lin(t, c)))
  {
    hide Mul, AddSample, Lin, Times, Dot, Rows, RowAdd;
    MulIsDots(m, c);
    MulIsDots(AddSample(m, t), c);
    AddSampleRows(m, t);
    RowAddDot(Rows(m).0, t.x, t, c);
    RowAddDot(Rows(m).1, t.y, t, c);
    RowAddDot(Rows(m).2, 1.0, t, c);
    TimesOne(Lin(t, c));
  }

  lemma TargetAdd(v: Vec, t: Sample)
    ensures AddTarget(v, t) == Plus(v, Along(t, t.b))
  {
    TimesOne(t.b);
    hide Times;
  }

  lemma AlongMinus(t: Sample, l: real, b: real)
    ensures Along(t, l - b) == Sub(Along(t, l), Along(t, b))
    ensures l == 0.0 ==> Along(t, l) == ZERO
  {
  }

  lemma DotPlus(d: Vec, u: Vec, v: Vec)
    ensures Dot(d, Plus(u, v)) == Dot(d, u) + Dot(d, v)
  {
  }

  lemma DotAlong(d: Vec, t: Sample, l: real)
    ensures Dot(d, Along(t, l)) == Times(Lin(t, d), l)
  {
    var p, q, r := d.p, d.q, d.r;
    assert (p * t.x + q * t.y + r) * l == p * (t.x * l) + q * (t.y * l) + r * l;
  }

  lemma CrossStep(m: Mat, v: Vec, t: Sample, c: Vec, d: Vec)
    ensures Dot(d, Sub(Mul(AddSample(m, t), c), AddTarget(v, t)))
         == Dot(d, Sub(Mul(m, c), v)) + Overlap(t, c, d)
  {
    var l := Lin(t, c);
    MulAdd(m, t, c);
    TargetAdd(v, t);
    AlongMinus(t, l, t.b);
    hide Mul, AddSample, AddTarget, Along, Lin;
    assert Sub(Plus(Mul(m, c), Along(t, l)), Plus(v, Along(t, t.b))) == Plus(Sub(Mul(m, c), v), Along(t, l - t.b));
    hide Sub, Plus, Dot, Times;
    DotPlus(d, Sub(Mul(m, c), v), Along(t, l - t.b));
    DotAlong(d, t, l - t.b);
  }

  lemma CrossNone(c: Vec, d: Vec)
    ensures Dot(d, Sub(Mul(ZERO_MAT, c), ZERO)) == 0.0
  {
  }

  lemma {:induction false} CrossIsNormal(s: seq<Sample>, c: Vec, d: Vec)
    ensures Cross(s, c, d) == Dot(d, Sub(Mul(Gram(s), c), Rhs(s)))
  {
    hide Dot, Sub, Mul, Overlap, AddSample, AddTarget;
    if s == [] {
      CrossNone(c, d);
    } else {
      CrossIsNormal(s[..|s| - 1], c, d);
      CrossStep(Gram(s[..|s| - 1]), Rhs(s[..|s| - 1]), s[|s| - 1], c, d);
    }
  }

  lemma ResidualStep(t: Sample, c: Vec, e: Vec)
    ensures Square(Lin(t, e) - t.b)
         == Square(Lin(t, c) - t.b) + 2.0 * Overlap(t, c, Sub(e, c)) + Square(Lin(t, Sub(e, c)))
  {
    assert Lin(t, Sub(e, c)) == Lin(t, e) - Lin(t, c);
    hide Lin;
    SquareSum(Lin(t, c) - t.b, Lin(t, Sub(e, c)));
    hide Square;
  }

  lemma SquareSum(u: real, v: real)
    ensures Square(u + v) == Square(u) + 2.0 * (v * u) + Square(v)
  {
  }

  lemma {:induction false} ResidualsExpand(s: seq<Sample>, c: Vec, e: Vec)
    ensures Residuals(s, e) == Residuals(s, c) + 2.0 * Cross(s, c, Sub(e, c)) + Energy(s, Sub(e, c))
  {
    hide Square, Sub, Lin, Overlap;
    if s != [] {
      ResidualsExpand(s[..|s| - 1], c, e);
      ResidualStep(s[|s| - 1], c, e);
    }
  }

  /** Pythagoras for the fit: a solution of the normal equations beats any other triple by exactly
      the energy of their difference. */
  lemma NormalIsOptimal(s: seq<Sample>, c: Vec, e: Vec)
    requires Mul(Gram(s), c) == Rhs(s)
    ensures Residuals(s, e) == Residuals(s, c) + Energy(s, Sub(e, c))
  {
    ResidualsExpand(s, c, e);
    CrossIsNormal(s, c, Sub(e, c));
    assert Sub(Mul(Gram(s), c), Rhs(s)) == ZERO;
    assert Dot(Sub(e, c), ZERO) == 0.0;
  }

  lemma TimesSign(x: real, y: real)
    ensures (x > 0.0 && y > 0.0) || (x < 0.0 && y < 0.0) ==> Times(x, y) > 0.0
    ensures x == 0.0 ==> Times(x, y) == 0.0
  {
    if (x > 0.0 && y > 0.0) || (x < 0.0 && y < 0.0) {
      assert x * y > 0.0;
    }
  }

  lemma SquareSign(x: real)
    ensures Square(x) >= 0.0
    ensures Square(x) == 0.0 <==> x == 0.0
  {
    hide Times;
    TimesSign(x, x);
  }

  lemma {:induction false} EnergyNonNegative(s: seq<Sample>, d: Vec)
    ensures Energy(s, d) >= 0.0
  {
    hide Lin, Square;
    if s != [] {
      EnergyNonNegative(s[..|s| - 1], d);
      SquareSign(Lin(s[|s| - 1], d));
    }
  }

  lemma {:induction false} ResidualsNonNegative(s: seq<Sample>, c: Vec)
    ensures Residuals(s, c) >= 0.0
  {
    hide Lin, Square;
    if s != [] {
      ResidualsNonNegative(s[..|s| - 1], c);
      SquareSign(Lin(s[|s| - 1], c) - s[|s| - 1].b);
    }
  }

  // ----- collinear samples are exactly those the normal equations cannot resolve

  ghost predicate OnLine(s: seq<Sample>, d: Vec) {
    forall i :: 0 <= i < |s| ==> Lin(s[i], d) == 0.0
  }

  ghost predicate Collinear(s: seq<Sample>) {
    exists d: Vec :: (d.p != 0.0 || d.q != 0.0) && OnLine(s, d)
  }

  lemma {:induction false} EnergyZero(s: seq<Sample>, d: Vec)
    ensures Energy(s, d) == 0.0 <==> OnLine(s, d)
  {
    if s != [] {
      var t := s[|s| - 1];
      hide Lin, Square;
      EnergyZero(s[..|s| - 1], d);
      EnergyNonNegative(s[..|s| - 1], d);
      SquareSign(Lin(t, d));
      if OnLine(s[..|s| - 1], d) && Lin(t, d) == 0.0 {
        assert forall i :: 0 <= i < |s| ==> s[i] == (if i < |s| - 1 then s[..|s| - 1][i] else t);
        assert OnLine(s, d);
      }
      if OnLine(s, d) {
        assert forall i :: 0 <= i < |s| - 1 ==> s[..|s| - 1][i] == s[i];
        assert OnLine(s[..|s| - 1], d);
      }
    }
  }

  lemma FormStep(m: Mat, t: Sample, d: Vec)
    ensures Dot(d, Mul(AddSample(m, t), d)) == Dot(d, Mul(m, d)) + Square(Lin(t, d))
  {
    hide Dot, Mul, AddSample, Lin, Along, Plus, Times;
    MulAdd(m, t, d);
    DotPlus(d, Mul(m, d), Along(t, Lin(t, d)));
    DotAlong(d, t, Lin(t, d));
  }

  lemma KernelStep(m: Mat, t: Sample, d: Vec)
    requires Lin(t, d) == 0.0 && Mul(m, d) == ZERO
    ensures Mul(AddSample(m, t), d) == ZERO
  {
    MulAdd(m, t, d);
    AlongMinus(t, 0.0, 0.0);
    hide Mul, AddSample, Lin, Along;
  }

  lemma {:induction false} EnergyIsForm(s: seq<Sample>, d: Vec)
    ensures Energy(s, d) == Dot(d, Mul(Gram(s), d))
  {
    hide Dot, Mul, Square, AddSample;
    if s == [] {
      FormNone(d);
    } else {
      EnergyIsForm(s[..|s| - 1], d);
      FormStep(Gram(s[..|s| - 1]), s[|s| - 1], d);
    }
  }

  lemma FormNone(d: Vec)
    ensures Dot(d, Mul(ZERO_MAT, d)) == 0.0
    ensures Mul(ZERO_MAT, d) == ZERO
  {
  }

  lemma {:induction false} LineInKernel(s: seq<Sample>, d: Vec)
    requires OnLine(s, d)
    ensures Mul(Gram(s), d) == ZERO
  {
    if s == [] {
      FormNone(d);
    } else {
      var t := s[|s| - 1];
      assert Lin(t, d) == 0.0;
      assert forall i :: 0 <= i < |s| - 1 ==> s[..|s| - 1][i] == s[i];
      hide Mul, AddSample, Lin;
      LineInKernel(s[..|s| - 1], d);
      KernelStep(Gram(s[..|s| - 1]), t, d);
    }
  }

  // A nonzero vector that the Gram matrix of a singular system sends to zero.
  lemma KernelOfSingular(m: Mat) returns (d: Vec)
    requires Det(m) == 0.0 && m.m22 > 0.0
    requires m.m01 == m.m10 && m.m02 == m.m20 && m.m12 == m.m21
    ensures Mul(m, d) == ZERO && d != ZERO
  {
    var e0, e1, e2 := Vec(1.0, 0.0, 0.0), Vec(0.0, 1.0, 0.0), Vec(0.0, 0.0, 1.0);
    ColumnInKernel(m, e0);
    ColumnInKernel(m, e1);
    ColumnInKernel(m, e2);
    if Cramer(m, 1.0, e0) != ZERO {
      d := Cramer(m, 1.0, e0);
    } else if Cramer(m, 1.0, e1) != ZERO {
      d := Cramer(m, 1.0, e1);
    } else if Cramer(m, 1.0, e2) != ZERO {
      d := Cramer(m, 1.0, e2);
    } else {
      d := Vec(m.m22, 0.0, -m.m20);
      RankOne(m, d);
    }
  }

  lemma ColumnInKernel(m: Mat, e: Vec)
    requires Det(m) == 0.0
    ensures Mul(m, Cramer(m, 1.0, e)) == ZERO
  {
    hide Mul, Cramer, Det;
    CramerScales(m, 1.0, e);
  }

  lemma RankOne(m: Mat, d: Vec)
    requires m.m01 == m.m10 && m.m02 == m.m20 && m.m12 == m.m21
    requires Cramer(m, 1.0, Vec(0.0, 1.0, 0.0)) == ZERO
    requires d == Vec(m.m22, 0.0, -m.m20)
    ensures Mul(m, d) == ZERO
  {
    var c := Cramer(m, 1.0, Vec(0.0, 1.0, 0.0));
    assert c.p == m.m02 * m.m21 - m.m01 * m.m22;
    assert c.q == m.m00 * m.m22 - m.m02 * m.m20;
    assert m.m10 * d.p + m.m11 * d.q + m.m12 * d.r == m.m01 * m.m22 - m.m21 * m.m02;
    assert m.m00 * d.p + m.m01 * d.q + m.m02 * d.r == m.m00 * m.m22 - m.m02 * m.m20;
    assert m.m20 * d.p + m.m21 * d.q + m.m22 * d.r == m.m20 * m.m22 - m.m22 * m.m20;
  }

  lemma {:induction false} GramShape(s: seq<Sample>)
    ensures var m := Gram(s);
      m.m01 == m.m10 && m.m02 == m.m20 && m.m12 == m.m21 && m.m22 == |s| as real
  {
    if s != [] {
      GramShape(s[..|s| - 1]);
    }
  }

  /** The normal equations are singular exactly when all raw points lie on one line. */
  lemma SingularIffCollinear(s: seq<Sample>)
    requires s != []
    ensures Det(Gram(s)) == 0.0 <==> Collinear(s)
  {
    if Collinear(s) {
      var d: Vec :| (d.p != 0.0 || d.q != 0.0) && OnLine(s, d);
      LineInKernel(s, d);
      if Det(Gram(s)) != 0.0 {
        KernelTrivial(Gram(s), d);
      }
    }
    if Det(Gram(s)) == 0.0 {
      GramShape(s);
      var d := KernelOfSingular(Gram(s));
      EnergyIsForm(s, d);
      assert Energy(s, d) == 0.0 by { DotZero(d); }
      EnergyZero(s, d);
      assert d.p * s[0].x + d.q * s[0].y + d.r == Lin(s[0], d) == 0.0;
    }
  }

  lemma DotZero(d: Vec)
    ensures Dot(d, ZERO) == 0.0
  {
  }

  lemma KernelTrivial(m: Mat, d: Vec)
    requires Det(m) != 0.0 && Mul(m, d) == ZERO
    ensures d == ZERO
  {
    var k := 1.0 / Det(m);
    assert Cramer(m, k, ZERO) == ZERO;
    hide Cramer, Mul, Det;
    CramerInverts(m, k, d);
  }

  // ----- calibration points are integers, so the threshold on the determinant is exact

  function Real(i: int): real {
    i as real
  }

  function At(raw: Point, b: int): Sample {
    Sample(Real(raw.x), Real(raw.y), Real(b))
  }

  function XCoordinates(target: seq<Point>): (b: seq<int>)
    ensures |b| == |target| && forall i :: 0 <= i < |b| ==> b[i] == target[i].x
  {
    seq(|target|, i requires 0 <= i < |target| => target[i].x)
  }

  function YCoordinates(target: seq<Point>): (b: seq<int>)
    ensures |b| == |target| && forall i :: 0 <= i < |b| ==> b[i] == target[i].y
  {
    seq(|target|, i requires 0 <= i < |target| => target[i].y)
  }

  /** The samples of one axis: raw points against wanted coordinates b. */
  function Axis(raw: seq<Point>, b: seq<int>): (s: seq<Sample>)
    requires |raw| == |b|
    ensures |s| == |raw| && forall i :: 0 <= i < |s| ==> s[i] == At(raw[i], b[i])
  {
    seq(|raw|, i requires 0 <= i < |raw| => At(raw[i], b[i]))
  }

  datatype IntMat = IntMat(m00: int, m01: int, m02: int,
                           m10: int, m11: int, m12: int,
                           m20: int, m21: int, m22: int)

  function IntDet(m: IntMat): int {
    m.m00 * (m.m11 * m.m22 - m.m12 * m.m21) - m.m01 * (m.m10 * m.m22 - m.m12 * m.m20)
    + m.m02 * (m.m10 * m.m21 - m.m11 * m.m20)
  }

  function IntAdd(m: IntMat, p: Point): IntMat {
    IntMat(m.m00 + p.x * p.x, m.m01 + p.x * p.y, m.m02 + p.x * 1,
           m.m10 + p.y * p.x, m.m11 + p.y * p.y, m.m12 + p.y * 1,
           m.m20 + 1 * p.x, m.m21 + 1 * p.y, m.m22 + 1 * 1)
  }

  function IntGram(raw: seq<Point>): IntMat {
    if raw == [] then IntMat(0, 0, 0, 0, 0, 0, 0, 0, 0) else IntAdd(IntGram(raw[..|raw| - 1]), raw[|raw| - 1])
  }

  function RealMat(m: IntMat): Mat {
    Mat(Real(m.m00), Real(m.m01), Real(m.m02),
        Real(m.m10), Real(m.m11), Real(m.m12),
        Real(m.m20), Real(m.m21), Real(m.m22))
  }

  lemma RealSum(a: int, x: int, y: int)
    ensures Real(a + x * y) == Real(a) + Times(Real(x), Real(y))
    ensures Real(1) == 1.0
  {
  }

  lemma RealStep(m: IntMat, p: Point, b: int)
    ensures RealMat(IntAdd(m, p)) == AddSample(RealMat(m), At(p, b))
  {
    hide Real, Times;
    RealSum(m.m00, p.x, p.x);
    RealSum(m.m01, p.x, p.y);
    RealSum(m.m02, p.x, 1);
    RealSum(m.m10, p.y, p.x);
    RealSum(m.m11, p.y, p.y);
    RealSum(m.m12, p.y, 1);
    RealSum(m.m20, 1, p.x);
    RealSum(m.m21, 1, p.y);
    RealSum(m.m22, 1, 1);
  }

  lemma RealDet(m: IntMat)
    ensures Det(RealMat(m)) == Real(IntDet(m))
  {
    var k := RealMat(m);
    assert k == Mat(m.m00 as real, m.m01 as real, m.m02 as real, m.m10 as real, m.m11 as real, m.m12 as real,
                    m.m20 as real, m.m21 as real, m.m22 as real);
  }

  lemma RealSmall(i: int)
    ensures Abs(Real(i)) < EPSILON <==> Real(i) == 0.0
  {
  }

  lemma {:induction false} GramIsWhole(raw: seq<Point>, b: seq<int>)
    requires |raw| == |b|
    ensures Gram(Axis(raw, b)) == RealMat(IntGram(raw))
    decreases |raw|
  {
    hide At, AddSample, IntAdd;
    if raw == [] {
      assert RealMat(IntGram([])) == ZERO_MAT;
    } else {
      var n := |raw| - 1;
      assert Axis(raw, b)[..n] == Axis(raw[..n], b[..n]);
      GramIsWhole(raw[..n], b[..n]);
      RealStep(IntGram(raw[..n]), raw[n], b[n]);
    }
  }

  ghost predicate PointsCollinear(raw: seq<Point>) {
    exists d: Vec :: (d.p != 0.0 || d.q != 0.0) && forall i :: 0 <= i < |raw| ==> Lin(At(raw[i], 0), d) == 0.0
  }

  lemma SameLine(raw: seq<Point>, b: seq<int>)
    requires |raw| == |b|
    ensures Collinear(Axis(raw, b)) <==> PointsCollinear(raw)
  {
    forall d: Vec
      ensures OnLine(Axis(raw, b), d) <==> forall i :: 0 <= i < |raw| ==> Lin(At(raw[i], 0), d) == 0.0
    {
      assert forall i :: 0 <= i < |raw| ==> Lin(At(raw[i], 0), d) == Lin(Axis(raw, b)[i], d);
    }
  }

  /** On integer points the solver's near-zero test on the determinant is exact: it fires for
      collinear points and for no others. */
  lemma ThresholdIsExact(raw: seq<Point>, b: seq<int>)
    requires |raw| == |b| > 0
    ensures Abs(Det(Gram(Axis(raw, b)))) < EPSILON <==> PointsCollinear(raw)
    ensures Collinear(Axis(raw, b)) <==> PointsCollinear(raw)
  {
    hide *;
    SameLine(raw, b);
    SingularIffCollinear(Axis(raw, b));
    GramIsWhole(raw, b);
    RealDet(IntGram(raw));
    RealSmall(IntDet(IntGram(raw)));
  }

  // ----- the solver

  predicate ValidRows(u: Vec, v: Vec) {
    && Abs(u.p) <= 100.0 && Abs(v.q) <= 100.0
    && Abs(u.q) <= 100.0 && Abs(v.p) <= 100.0
    && Abs(u.r) <= 10000.0 && Abs(v.r) <= 10000.0
    && Abs(Times(u.p, v.q) - Times(u.q, v.p)) >= EPSILON
  }

  predicate Validate(tf: Transform) {
    ValidRows(tf.row1, tf.row2)
  }

  datatype Spot = Spot(x: real, y: real)

  function Row(u: Vec, x: real, y: real): real {
    u.p * x + u.q * y + u.r
  }

  /** Where a transform without orientation flags puts a point. */
  function Image(tf: Transform, p: Point): Spot {
    Spot(Row(tf.row1, Real(p.x), Real(p.y)), Row(tf.row2, Real(p.x), Real(p.y)))
  }

  predicate Within(x: real, bound: real) {
    -bound <= x <= bound
  }

  /** A transform is valid, seen from the plane it maps: the origin lands within 10000 of the origin on each
      axis, unit steps move the image by at most 100 on each axis, and the parallelogram that the images
      of the two unit steps span has an area of at least a millionth. */
  lemma ValidMeans(tf: Transform)
    ensures var o, e, f := Image(tf, Point(0, 0)), Image(tf, Point(1, 0)), Image(tf, Point(0, 1));
      Validate(tf) <==>
        && Within(o.x, 10000.0) && Within(o.y, 10000.0)
        && Within(e.x - o.x, 100.0) && Within(e.y - o.y, 100.0)
        && Within(f.x - o.x, 100.0) && Within(f.y - o.y, 100.0)
        && !(-0.000001 < Times(e.x - o.x, f.y - o.y) - Times(f.x - o.x, e.y - o.y) < 0.000001)
  {
    var u, v := tf.row1, tf.row2;
    UnitSteps(u);
    UnitSteps(v);
    RowsMean(u, v);
    UnitReals();
    hide Row, ValidRows, Times, Real, Within;
  }

  lemma RowsMean(u: Vec, v: Vec)
    ensures ValidRows(u, v) <==>
      && Within(u.r, 10000.0) && Within(v.r, 10000.0)
      && Within(u.p, 100.0) && Within(v.p, 100.0) && Within(u.q, 100.0) && Within(v.q, 100.0)
      && !(-0.000001 < Times(u.p, v.q) - Times(u.q, v.p) < 0.000001)
    ensures ValidRows(u, v) ==> Times(u.p, v.q) - Times(u.q, v.p) != 0.0
  {
    AbsNear(u.p, 100.0);
    AbsNear(v.q, 100.0);
    AbsNear(u.q, 100.0);
    AbsNear(v.p, 100.0);
    AbsNear(u.r, 10000.0);
    AbsNear(v.r, 10000.0);
    AbsFar(Times(u.p, v.q) - Times(u.q, v.p));
    hide Abs, Within, Times;
  }

  lemma AbsNear(x: real, bound: real)
    ensures Abs(x) <= bound <==> Within(x, bound)
  {
  }

  lemma AbsFar(x: real)
    ensures Abs(x) >= EPSILON <==> !(-0.000001 < x < 0.000001)
    ensures Abs(x) >= EPSILON ==> x != 0.0
  {
  }

  lemma UnitSteps(u: Vec)
    ensures Row(u, 0.0, 0.0) == u.r && Row(u, 1.0, 0.0) - u.r == u.p && Row(u, 0.0, 1.0) - u.r == u.q
  {
    UnitPoly(u.p, u.q, u.r);
  }

  lemma UnitPoly(p: real, q: real, r: real)
    ensures p * 0.0 + q * 0.0 + r == r
    ensures p * 1.0 + q * 0.0 + r - r == p
    ensures p * 0.0 + q * 1.0 + r - r == q
  {
  }

  lemma UnitReals()
    ensures var o, e, f := Point(0, 0), Point(1, 0), Point(0, 1);
      Real(o.x) == Real(o.y) == Real(e.y) == Real(f.x) == 0.0 && Real(e.x) == Real(f.y) == 1.0
  {
  }

  /** A valid transform never maps two points to one. */
  lemma ValidInjective(tf: Transform, p: Point, q: Point)
    requires Validate(tf) && p != q
    ensures Image(tf, p) != Image(tf, q)
  {
    RealDistinct(p.x, q.x);
    RealDistinct(p.y, q.y);
    RowsMean(tf.row1, tf.row2);
    hide Real, ValidRows, Times, Row;
    if Image(tf, p) == Image(tf, q) {
      SameImage(tf.row1, tf.row2, Real(p.x), Real(p.y), Real(q.x), Real(q.y));
    }
  }

  lemma SameImage(u: Vec, v: Vec, a: real, b: real, c: real, d: real)
    requires Times(u.p, v.q) - Times(u.q, v.p) != 0.0
    requires Row(u, a, b) == Row(u, c, d) && Row(v, a, b) == Row(v, c, d)
    ensures a == c && b == d
  {
    RowGap(u.p, u.q, u.r, a, b, c, d);
    RowGap(v.p, v.q, v.r, a, b, c, d);
    OnlyZero(u.p, u.q, v.p, v.q, a - c, b - d);
  }

  lemma RealDistinct(a: int, b: int)
    ensures Real(a) == Real(b) <==> a == b
  {
  }

  lemma RowGap(p: real, q: real, r: real, a: real, b: real, c: real, d: real)
    requires p * a + q * b + r == p * c + q * d + r
    ensures p * (a - c) + q * (b - d) == 0.0
  {
  }

  lemma OnlyZero(a: real, b: real, c: real, d: real, x: real, y: real)
    requires a * d - b * c != 0.0 && a * x + b * y == 0.0 && c * x + d * y == 0.0
    ensures x == 0.0 && y == 0.0
  {
    assert (a * d - b * c) * x == d * (a * x + b * y) - b * (c * x + d * y);
    assert (a * d - b * c) * y == a * (c * x + d * y) - c * (a * x + b * y);
  }

  const IDENTITY: Transform := Transform(false, false, false, Vec(1.0, 0.0, 0.0), Vec(0.0, 1.0, 0.0))

  lemma IdentityMaps(p: Point)
    ensures Image(IDENTITY, p) == Spot(Real(p.x), Real(p.y))
    ensures Validate(IDENTITY)
    ensures !IDENTITY.swapXy && !IDENTITY.mirrorX && !IDENTITY.mirrorY
  {
    IdentityPoly(Real(p.x), Real(p.y));
    hide Real;
  }

  lemma IdentityPoly(x: real, y: real)
    ensures 1.0 * x + 0.0 * y + 0.0 == x
    ensures 0.0 * x + 1.0 * y + 0.0 == y
  {
  }

  /** Points that are their own targets are fitted by the identity, which is valid. */
  lemma IdentityFits(raw: seq<Point>)
    ensures BestFit(raw, raw, IDENTITY) && Validate(IDENTITY)
  {
    hide *;
    IdentityMaps(Point(0, 0));
    forall i | 0 <= i < |raw|
      ensures Image(IDENTITY, raw[i]) == Spot(Real(raw[i].x), Real(raw[i].y))
    {
      IdentityMaps(raw[i]);
    }
    ExactImageRecovered(raw, raw, IDENTITY);
  }

  ghost predicate Minimizes(s: seq<Sample>, c: Vec) {
    forall e: Vec :: Residuals(s, c) <= Residuals(s, e)
  }

  /** tf has no orientation flags and its rows minimise the squared error of both coordinates. */
  ghost predicate BestFit(raw: seq<Point>, target: seq<Point>, tf: Transform)
    requires |raw| == |target|
  {
    && !tf.swapXy && !tf.mirrorX && !tf.mirrorY
    && Minimizes(Axis(raw, XCoordinates(target)), tf.row1)
    && Minimizes(Axis(raw, YCoordinates(target)), tf.row2)
  }

  lemma NormalMinimizes(s: seq<Sample>, c: Vec)
    requires Mul(Gram(s), c) == Rhs(s)
    ensures Minimizes(s, c)
  {
    hide Residuals, Energy;
    forall e: Vec
      ensures Residuals(s, c) <= Residuals(s, e)
    {
      NormalIsOptimal(s, c, e);
      EnergyNonNegative(s, Sub(e, c));
    }
  }

  /** Away from collinear points the least-squares triple is unique. */
  lemma MinimizerUnique(s: seq<Sample>, c: Vec, e: Vec)
    requires !Collinear(s) && s != []
    requires Mul(Gram(s), c) == Rhs(s) && Minimizes(s, e)
    ensures c == e
  {
    var d := Sub(e, c);
    NormalIsOptimal(s, c, e);
    EnergyNonNegative(s, d);
    hide Residuals, Energy;
    EnergyZero(s, d);
    assert d.p == 0.0 && d.q == 0.0;
    assert d.p * s[0].x + d.q * s[0].y + d.r == Lin(s[0], d) == 0.0;
  }

  method SolveAffine(raw: seq<Point>, target: seq<Point>) returns (r: SolveResult)
    requires |raw| == |target|
    ensures |raw| < 3 ==> r == InvalidArg
    ensures |raw| >= 3 && PointsCollinear(raw) ==> r == InvalidState
    ensures |raw| >= 3 && !PointsCollinear(raw) ==> exists tf :: BestFit(raw, target, tf)
    ensures |raw| >= 3 && !PointsCollinear(raw) ==>
      forall tf :: BestFit(raw, target, tf) ==> r == if Validate(tf) then Solved(tf) else InvalidState
    ensures r.Solved? ==> forall p, q :: p != q ==> Image(r.tf, p) != Image(r.tf, q)
    ensures |raw| >= 3 && !PointsCollinear(raw) && raw == target ==> r == Solved(IDENTITY)
  {
    hide *;
    if |raw| < 3 {
      return InvalidArg;
    }
    ghost var sx, sy := Axis(raw, XCoordinates(target)), Axis(raw, YCoordinates(target));
    var ata, atbx, atby := ZERO_MAT, ZERO, ZERO;
    NormalsEmpty();
    for i := 0 to |raw|
      invariant ata == Gram(sx[..i]) && atbx == Rhs(sx[..i]) && atby == Rhs(sy[..i])
    {
      NormalsStep(sx, i);
      NormalsStep(sy, i);
      ata := AddSample(ata, At(raw[i], target[i].x));
      atbx := AddTarget(atbx, At(raw[i], target[i].x));
      atby := AddTarget(atby, At(raw[i], target[i].y));
    }
    assert sx[..|raw|] == sx && sy[..|raw|] == sy;
    ThresholdIsExact(raw, XCoordinates(target));
    GramIsWhole(raw, XCoordinates(target));
    GramIsWhole(raw, YCoordinates(target));
    var x := SolveNormalEquations(ata, atbx);
    if x.None? {
      return InvalidState;
    }
    var y := SolveNormalEquations(ata, atby);
    if y.None? {
      return InvalidState;
    }
    var tf := Transform(false, false, false, x.value, y.value);
    FitIsOnly(raw, target, tf);
    assert BestFit(raw, target, tf);
    r := if Validate(tf) then Solved(tf) else InvalidState;
    IdentityFits(raw);
    if r.Solved? {
      forall p, q | p != q
        ensures Image(r.tf, p) != Image(r.tf, q)
      {
        ValidInjective(r.tf, p, q);
      }
    }
  }

  lemma NormalsEmpty()
    ensures Gram([]) == ZERO_MAT && Rhs([]) == ZERO
  {
  }

  lemma NormalsStep(s: seq<Sample>, i: nat)
    requires i < |s|
    ensures Gram(s[..i + 1]) == AddSample(Gram(s[..i]), s[i])
    ensures Rhs(s[..i + 1]) == AddTarget(Rhs(s[..i]), s[i])
  {
    assert s[..i + 1][..i] == s[..i];
    hide AddSample, AddTarget;
  }

  lemma FitIsOnly(raw: seq<Point>, target: seq<Point>, tf: Transform)
    requires |raw| == |target| > 0 && !PointsCollinear(raw)
    requires !tf.swapXy && !tf.mirrorX && !tf.mirrorY
    requires Mul(Gram(Axis(raw, XCoordinates(target))), tf.row1) == Rhs(Axis(raw, XCoordinates(target)))
    requires Mul(Gram(Axis(raw, YCoordinates(target))), tf.row2) == Rhs(Axis(raw, YCoordinates(target)))
    ensures forall other :: BestFit(raw, target, other) <==> other == tf
  {
    var sx, sy := Axis(raw, XCoordinates(target)), Axis(raw, YCoordinates(target));
    hide Mul, Gram, Rhs, Det, Residuals, Lin;
    ThresholdIsExact(raw, XCoordinates(target));
    ThresholdIsExact(raw, YCoordinates(target));
    NormalMinimizes(sx, tf.row1);
    NormalMinimizes(sy, tf.row2);
    forall other | BestFit(raw, target, other)
      ensures other == tf
    {
      MinimizerUnique(sx, tf.row1, other.row1);
      MinimizerUnique(sy, tf.row2, other.row2);
    }
  }

  lemma {:induction false} NoResidual(s: seq<Sample>, c: Vec)
    requires forall i :: 0 <= i < |s| ==> Lin(s[i], c) == s[i].b
    ensures Residuals(s, c) == 0.0
  {
    if s != [] {
      assert forall i :: 0 <= i < |s| - 1 ==> s[..|s| - 1][i] == s[i];
      assert Lin(s[|s| - 1], c) - s[|s| - 1].b == 0.0;
      hide Lin, Square;
      NoResidual(s[..|s| - 1], c);
      SquareSign(0.0);
    }
  }

  lemma LinIsRow(t: Sample, c: Vec)
    ensures Lin(t, c) == Row(c, t.x, t.y)
  {
  }

  /** When the targets are an exact affine image of the raw points, that map is the best fit, so the
      solver returns it or, if the map fails validation or the points are collinear, refuses. */
  lemma ExactImageRecovered(raw: seq<Point>, target: seq<Point>, tf: Transform)
    requires |raw| == |target|
    requires !tf.swapXy && !tf.mirrorX && !tf.mirrorY
    requires forall i :: 0 <= i < |raw| ==> Image(tf, raw[i]) == Spot(Real(target[i].x), Real(target[i].y))
    ensures BestFit(raw, target, tf)
  {
    var sx, sy := Axis(raw, XCoordinates(target)), Axis(raw, YCoordinates(target));
    forall i | 0 <= i < |raw|
      ensures Lin(sx[i], tf.row1) == sx[i].b && Lin(sy[i], tf.row2) == sy[i].b
    {
      LinIsRow(sx[i], tf.row1);
      LinIsRow(sy[i], tf.row2);
      hide Lin, Row, Real;
      assert Image(tf, raw[i]) == Spot(Real(target[i].x), Real(target[i].y));
    }
    NoResidual(sx, tf.row1);
    NoResidual(sy, tf.row2);
    hide Residuals, Lin;
    forall e: Vec
      ensures Residuals(sx, e) >= 0.0 && Residuals(sy, e) >= 0.0
    {
      ResidualsNonNegative(sx, e);
      ResidualsNonNegative(sy, e);
    }
  }
}
