/** The fallback calibration: each axis is scaled so that the box of the raw points lands on the box of
    the reference points. */
module AxisFit {
  import opened Affine
  import opened EspErr
  import opened Options

  const INT_MAX := 0x7fff_ffff
  const INT_MIN := -0x8000_0000

  /** One axis of the fallback transform. */
  datatype Line = Line(scale: real, offset: real)

  predicate InRange(v: seq<int>) {
    forall i :: 0 <= i < |v| ==> INT_MIN <= v[i] <= INT_MAX
  }

  predicate Lowest(v: seq<int>, m: int) {
    m in v && forall i :: 0 <= i < |v| ==> m <= v[i]
  }

  predicate Highest(v: seq<int>, m: int) {
    m in v && forall i :: 0 <= i < |v| ==> v[i] <= m
  }

  function MapTo(l: Line, x: real): real {
    l.scale * x + l.offset
  }

  /** l carries the box of xs to the box of ts; there is none when the box of xs has no extent, where the
      division gives no finite number. */
  ghost predicate IsFit(xs: seq<int>, ts: seq<int>, l: Option<Line>) {
    if forall i :: 0 <= i < |xs| ==> xs[i] == xs[0] then l == None
    else
      && l.Some?
      && (forall m :: Lowest(xs, m) ==> forall t :: Lowest(ts, t) ==> MapTo(l.value, Real(m)) == Real(t))
      && (forall m :: Highest(xs, m) ==> forall t :: Highest(ts, t) ==> MapTo(l.value, Real(m)) == Real(t))
  }

  method Box(v: seq<int>) returns (low: int, high: int)
    requires v != [] && InRange(v)
    ensures Lowest(v, low) && Highest(v, high)
  {
    low, high := INT_MAX, INT_MIN;
    for i := 0 to |v|
      invariant i == 0 ==> low == INT_MAX && high == INT_MIN
      invariant i > 0 ==> Lowest(v[..i], low) && Highest(v[..i], high)
    {
      assert v[..i + 1] == v[..i] + [v[i]];
      if v[i] < low {
        low := v[i];
      }
      if v[i] > high {
        high := v[i];
      }
      assert forall j :: 0 <= j <= i ==> low <= v[j] <= high;
      assert low in v[..i + 1] && high in v[..i + 1];
    }
    assert v[..|v|] == v;
  }

  method FitAxis(xs: seq<int>, ts: seq<int>) returns (l: Option<Line>)
    requires |xs| == |ts| > 0 && InRange(xs) && InRange(ts)
    ensures IsFit(xs, ts, l)
  {
    var lowX, highX := Box(xs);
    var lowT, highT := Box(ts);
    hide Lowest, Highest, MapTo, Real, IsFit;
    if highX == lowX {
      FlatBox(xs, ts, lowX);
      return None;
    }
    DistinctReals(lowX, highX);
    var scale := Real(highT - lowT) / Real(highX - lowX);
    l := Some(Line(scale, Real(lowT) - scale * Real(lowX)));
    LineThrough(lowX, highX, lowT, highT, l.value);
    BoxFit(xs, ts, lowX, highX, lowT, highT, l.value);
  }

  lemma FlatBox(xs: seq<int>, ts: seq<int>, m: int)
    requires Lowest(xs, m) && Highest(xs, m)
    ensures IsFit(xs, ts, None)
  {
    assert forall i :: 0 <= i < |xs| ==> m <= xs[i] <= m;
  }

  lemma BoxFit(xs: seq<int>, ts: seq<int>, a: int, b: int, c: int, d: int, l: Line)
    requires a != b && Lowest(xs, a) && Highest(xs, b) && Lowest(ts, c) && Highest(ts, d)
    requires MapTo(l, Real(a)) == Real(c) && MapTo(l, Real(b)) == Real(d)
    ensures IsFit(xs, ts, Some(l))
  {
    LowestIsOne(xs);
    LowestIsOne(ts);
    hide MapTo, Real;
    assert a in xs && b in xs;
  }

  lemma LineThrough(a: int, b: int, c: int, d: int, l: Line)
    requires Real(b - a) != 0.0
    requires l.scale == Real(d - c) / Real(b - a) && l.offset == Real(c) - l.scale * Real(a)
    ensures MapTo(l, Real(a)) == Real(c) && MapTo(l, Real(b)) == Real(d)
  {
    RealMinus(d, c);
    RealMinus(b, a);
    hide Real;
    CornersMeet(l.scale, Real(a), Real(b), Real(c), Real(d));
  }

  lemma DistinctReals(a: int, b: int)
    ensures Real(b - a) != 0.0 <==> a != b
  {
  }

  lemma LowestIsOne(v: seq<int>)
    ensures forall m, n :: Lowest(v, m) && Lowest(v, n) ==> m == n
    ensures forall m, n :: Highest(v, m) && Highest(v, n) ==> m == n
  {
  }

  lemma RealMinus(a: int, b: int)
    ensures Real(a - b) == Real(a) - Real(b)
    ensures Real(a) <= Real(b) <==> a <= b
  {
  }

  lemma CornersMeet(scale: real, a: real, b: real, c: real, d: real)
    requires a != b && scale == (d - c) / (b - a)
    ensures scale * a + (c - scale * a) == c && scale * b + (c - scale * a) == d
  {
    assert scale * b + (c - scale * a) == scale * (b - a) + c;
  }

  method SolveFallback(raw: seq<Point>, target: seq<Point>) returns (err: Err, x: Option<Line>, y: Option<Line>)
    requires |raw| == |target|
    requires InRange(XCoordinates(raw)) && InRange(YCoordinates(raw))
    requires InRange(XCoordinates(target)) && InRange(YCoordinates(target))
    ensures err == if |raw| < 2 then Err.InvalidArg else Ok
    ensures err == Ok ==> IsFit(XCoordinates(raw), XCoordinates(target), x)
    ensures err == Ok ==> IsFit(YCoordinates(raw), YCoordinates(target), y)
  {
    if |raw| < 2 {
      return Err.InvalidArg, None, None;
    }
    x := FitAxis(XCoordinates(raw), XCoordinates(target));
    y := FitAxis(YCoordinates(raw), YCoordinates(target));
    err := Ok;
  }

  // ----- when the fallback is exact

  ghost predicate Reproduces(l: Line, xs: seq<int>, ts: seq<int>)
    requires |xs| == |ts|
  {
    forall i :: 0 <= i < |xs| ==> MapTo(l, Real(xs[i])) == Real(ts[i])
  }

  lemma SameLine(l: Line, m: Line, a: real, b: real)
    requires a != b
    requires MapTo(l, a) == MapTo(m, a) && MapTo(l, b) == MapTo(m, b)
    ensures l == m
  {
    assert (l.scale - m.scale) * (b - a) == 0.0;
  }

  lemma Rises(l: Line, a: real, b: real)
    requires a < b
    ensures MapTo(l, a) <= MapTo(l, b) <==> l.scale >= 0.0
  {
    assert MapTo(l, b) - MapTo(l, a) == l.scale * (b - a);
    if l.scale < 0.0 {
      assert l.scale * (b - a) < 0.0;
    }
  }

  /** A line that does not fall carries the lowest and highest raw value to the lowest and highest
      reference value. */
  lemma BoxOntoBox(l: Line, xs: seq<int>, ts: seq<int>, a: int, b: int)
    requires |xs| == |ts| && Reproduces(l, xs, ts) && l.scale >= 0.0
    requires Lowest(xs, a) && Highest(xs, b)
    ensures exists c, d ::
      Lowest(ts, c) && Highest(ts, d) && MapTo(l, Real(a)) == Real(c) && MapTo(l, Real(b)) == Real(d)
  {
    var i, j :| 0 <= i < |xs| && 0 <= j < |xs| && xs[i] == a && xs[j] == b;
    forall k | 0 <= k < |ts|
      ensures ts[i] <= ts[k] <= ts[j]
    {
      InOrder(l, xs[i], xs[k], ts[i], ts[k]);
      InOrder(l, xs[k], xs[j], ts[k], ts[j]);
    }
    assert Lowest(ts, ts[i]) && Highest(ts, ts[j]);
  }

  lemma InOrder(l: Line, a: int, b: int, c: int, d: int)
    requires a <= b && l.scale >= 0.0 && MapTo(l, Real(a)) == Real(c) && MapTo(l, Real(b)) == Real(d)
    ensures c <= d
  {
    RealMinus(a, b);
    RealMinus(b, a);
    RealMinus(c, d);
    hide Real;
    if Real(a) < Real(b) {
      Rises(l, Real(a), Real(b));
    }
  }

  /** The fallback reproduces every reference coordinate exactly when some line that does not fall does;
      so a mirrored axis is never reproduced, and a straight one always is. */
  lemma FallbackExact(xs: seq<int>, ts: seq<int>, l: Line)
    requires |xs| == |ts| > 0 && IsFit(xs, ts, Some(l))
    ensures Reproduces(l, xs, ts) <==> exists m: Line :: m.scale >= 0.0 && Reproduces(m, xs, ts)
  {
    var a, b := HasBox(xs);
    var c, d := HasBox(ts);
    assert a != b && MapTo(l, Real(a)) == Real(c) && MapTo(l, Real(b)) == Real(d);
    RealMinus(a, b);
    RealMinus(b, a);
    RealMinus(c, d);
    LowestIsOne(ts);
    hide Real, MapTo, IsFit;
    Rises(l, Real(a), Real(b));
    forall m: Line | m.scale >= 0.0 && Reproduces(m, xs, ts)
      ensures m == l
    {
      BoxOntoBox(m, xs, ts, a, b);
      SameLine(l, m, Real(a), Real(b));
    }
  }

  lemma {:induction false} HasBox(v: seq<int>) returns (low: int, high: int)
    requires v != []
    ensures Lowest(v, low) && Highest(v, high) && low <= high
  {
    if |v| == 1 {
      low, high := v[0], v[0];
    } else {
      var n := |v| - 1;
      low, high := HasBox(v[..n]);
      assert v == v[..n] + [v[n]];
      low, high := if v[n] < low then v[n] else low, if v[n] > high then v[n] else high;
    }
  }
}
