/** Payout functions: continuous sequences of curve pieces, how a piece is evaluated, and how the
    value is rounded to a payout. Values that the program computes in floating point are reals. */
module PayoutCurve {
  import opened Wrappers
  import Lagrange

  const U64_MAX: nat := 0xFFFF_FFFF_FFFF_FFFF

  type U64 = n: nat | n <= U64_MAX
  type U16 = n: nat | n <= 0xFFFF

  datatype Error = InvalidParameters | Panic

  datatype PayoutPoint = PayoutPoint(eventOutcome: U64, outcomePayout: U64, extraPrecision: U16) {
    /** `get_outcome_payout`. */
    function Payout(): real {
      outcomePayout as real + extraPrecision as real / 65536.0
    }
  }

  datatype Piece =
    | Polynomial(points: seq<PayoutPoint>)
    | Hyperbola(left: PayoutPoint, right: PayoutPoint, usePositivePiece: bool,
                translateOutcome: real, translatePayout: real, a: real, b: real, c: real, d: real)

  datatype PayoutFunction = PayoutFunction(pieces: seq<Piece>)

  // ---------- Pieces ----------

  predicate Ascending(points: seq<PayoutPoint>) {
    forall i, j :: 0 <= i < j < |points| ==> points[i].eventOutcome < points[j].eventOutcome
  }

  /** `PolynomialPayoutCurvePiece::new`: compares each point with the next. */
  method NewPolynomial(points: seq<PayoutPoint>) returns (r: Result<Piece, Error>)
    ensures r == if |points| > 1 && Ascending(points) then Ok(Polynomial(points)) else Err(InvalidParameters)
  {
    if |points| <= 1 { return Err(InvalidParameters); }
    for i := 1 to |points|
      invariant Ascending(points[..i])
    {
      if points[i - 1].eventOutcome >= points[i].eventOutcome { return Err(InvalidParameters); }
    }
    assert points[..|points|] == points;
    return Ok(Polynomial(points));
  }

  /** What the constructors of the pieces guarantee. */
  predicate WellFormed(p: Piece) {
    match p
    case Polynomial(points) => |points| > 1 && Ascending(points)
    case Hyperbola(left, right, _, _, _, a, b, c, d) => left.eventOutcome < right.eventOutcome && a * d != b * c
  }

  /** A polynomial read from the wire has at least its two end points, in any order. */
  predicate HasPoints(p: Piece) {
    p.Polynomial? ==> p.points != []
  }

  function FirstPoint(p: Piece): PayoutPoint
    requires HasPoints(p)
  {
    match p
    case Polynomial(points) => points[0]
    case Hyperbola(left, _, _, _, _, _, _, _, _) => left
  }

  function LastPoint(p: Piece): PayoutPoint
    requires HasPoints(p)
  {
    match p
    case Polynomial(points) => points[|points| - 1]
    case Hyperbola(_, right, _, _, _, _, _, _, _) => right
  }

  function FirstOutcome(p: Piece): U64
    requires HasPoints(p)
  {
    FirstPoint(p).eventOutcome
  }

  function LastOutcome(p: Piece): U64
    requires HasPoints(p)
  {
    LastPoint(p).eventOutcome
  }

  // ---------- Functions ----------

  predicate AllHavePoints(pieces: seq<Piece>) {
    forall i :: 0 <= i < |pieces| ==> HasPoints(pieces[i])
  }

  predicate Continuous(pieces: seq<Piece>)
    requires AllHavePoints(pieces)
  {
    forall i :: 0 < i < |pieces| ==> LastPoint(pieces[i - 1]) == FirstPoint(pieces[i])
  }

  /** `PayoutFunction::new`. */
  function NewFunction(pieces: seq<Piece>): Result<PayoutFunction, Error>
    requires AllHavePoints(pieces)
  {
    if pieces != [] && Continuous(pieces) then Ok(PayoutFunction(pieces)) else Err(InvalidParameters)
  }

  /** `PayoutFunction::validate`. */
  function Validate(f: PayoutFunction, maxValue: U64): Result<(), Error>
    requires AllHavePoints(f.pieces)
  {
    if !Continuous(f.pieces) then Err(InvalidParameters)
    else if f.pieces == [] then Err(Panic)
    else if FirstOutcome(f.pieces[0]) == 0 && LastOutcome(f.pieces[|f.pieces| - 1]) == maxValue then Ok(())
    else Err(InvalidParameters)
  }

  /** A function validates exactly when its pieces meet and lead from zero to the largest value. */
  lemma ValidatesIff(f: PayoutFunction, maxValue: U64)
    requires AllHavePoints(f.pieces)
    ensures Validate(f, maxValue).Ok? <==>
              && f.pieces != []
              && (forall i :: 0 < i < |f.pieces| ==> LastPoint(f.pieces[i - 1]) == FirstPoint(f.pieces[i]))
              && FirstPoint(f.pieces[0]).eventOutcome == 0 && LastPoint(f.pieces[|f.pieces| - 1]).eventOutcome == maxValue
    ensures Validate(f, maxValue) == Err(Panic) <==> f.pieces == []
  {
  }

  // ---------- Evaluation ----------

  predicate DistinctOutcomes(points: seq<PayoutPoint>) {
    forall i, j :: 0 <= i < j < |points| ==> points[i].eventOutcome != points[j].eventOutcome
  }

  function Outcomes(points: seq<PayoutPoint>): (xs: seq<real>)
    ensures |xs| == |points|
    ensures forall i :: 0 <= i < |points| ==> xs[i] == points[i].eventOutcome as real
  {
    seq(|points|, i requires 0 <= i < |points| => points[i].eventOutcome as real)
  }

  function Payouts(points: seq<PayoutPoint>): (ys: seq<real>)
    ensures |ys| == |points|
    ensures forall i :: 0 <= i < |points| ==> ys[i] == points[i].Payout()
  {
    seq(|points|, i requires 0 <= i < |points| => points[i].Payout())
  }

  /** The value of the interpolation loop. A repeated outcome makes it divide by zero, and what floating
      point makes of that is refused as a payout: it is modelled as the absence of a value. */
  function Interpolate(points: seq<PayoutPoint>, outcome: nat): Option<real> {
    if DistinctOutcomes(points)
    then Some(Lagrange.Sum(Outcomes(points), Payouts(points), |points|, outcome as real))
    else None
  }

  /** The shortcut for two points, which leaves the extra precision out. */
  function TwoPoints(left: PayoutPoint, right: PayoutPoint, outcome: nat): Option<real> {
    if left.outcomePayout == right.outcomePayout then Some(right.outcomePayout as real)
    else if right.eventOutcome == left.eventOutcome then None
    else Some(Lagrange.Line(left.eventOutcome as real, left.outcomePayout as real,
                            right.eventOutcome as real, right.outcomePayout as real, outcome as real))
  }

  function EvaluatePolynomial(points: seq<PayoutPoint>, outcome: nat): Option<real> {
    if |points| == 2 then TwoPoints(points[0], points[1], outcome) else Interpolate(points, outcome)
  }

  function Discriminant(h: Piece, translated: real): real
    requires h.Hyperbola?
  {
    translated * translated - 4.0 * h.a * h.b
  }

  function Root(h: Piece, sqrt: real -> real, translated: real): real
    requires h.Hyperbola?
  {
    if h.usePositivePiece then sqrt(Discriminant(h, translated)) else -sqrt(Discriminant(h, translated))
  }

  function HyperbolaValue(h: Piece, w: real): real
    requires h.Hyperbola? && h.a != 0.0 && w != 0.0
  {
    h.c * w / (2.0 * h.a) + 2.0 * h.a * h.d / w + h.translatePayout
  }

  function EvaluateHyperbola(h: Piece, sqrt: real -> real, outcome: nat): Option<real>
    requires h.Hyperbola?
  {
    var translated := outcome as real - h.translateOutcome;
    var w := translated + Root(h, sqrt, translated);
    if Discriminant(h, translated) < 0.0 || h.a == 0.0 || w == 0.0 then None
    else Some(HyperbolaValue(h, w))
  }

  /** What the evaluation takes for a square root. */
  ghost predicate SquareRoot(sqrt: real -> real) {
    forall x: real :: x >= 0.0 ==> sqrt(x) >= 0.0 && sqrt(x) * sqrt(x) == x
  }

  /** The outcome and `v` are the point of the hyperbola (a * u + b / u, c * u + d / u), moved by the translations, at a parameter `u`
      on the side of the vertex that the piece chooses. */
  predicate OnBranch(h: Piece, outcome: nat, u: real, v: real)
    requires h.Hyperbola?
  {
    var t := outcome as real - h.translateOutcome;
    && u != 0.0
    && t == h.a * u + h.b / u
    && v - h.translatePayout == h.c * u + h.d / u
    && (if h.usePositivePiece then h.a * u >= h.b / u else h.a * u <= h.b / u)
  }

  /** The value is that of the hyperbola on the chosen branch, and there is one wherever that branch has a point. */
  lemma HyperbolaIsItsBranch(h: Piece, sqrt: real -> real, outcome: nat, v: real)
    requires h.Hyperbola? && SquareRoot(sqrt)
    ensures EvaluateHyperbola(h, sqrt, outcome) == Some(v) <==> h.a != 0.0 && exists u: real :: OnBranch(h, outcome, u, v)
  {
    if EvaluateHyperbola(h, sqrt, outcome) == Some(v) {
      var u := ValueIsOnBranch(h, sqrt, outcome, v);
    }
    if h.a != 0.0 && exists u: real :: OnBranch(h, outcome, u, v) {
      var u: real :| OnBranch(h, outcome, u, v);
      BranchIsEvaluated(h, sqrt, outcome, u, v);
    }
  }

  lemma ValueIsOnBranch(h: Piece, sqrt: real -> real, outcome: nat, v: real) returns (u: real)
    requires h.Hyperbola? && SquareRoot(sqrt) && EvaluateHyperbola(h, sqrt, outcome) == Some(v)
    ensures OnBranch(h, outcome, u, v)
  {
    hide HyperbolaValue, SquareRoot, Discriminant, Root;
    var t := outcome as real - h.translateOutcome;
    var w := t + Root(h, sqrt, t);
    RootSquared(h, sqrt, t);
    u := w / (2.0 * h.a);
    Halves(h.a, h.b, t, Root(h, sqrt, t), w, u);
    ValueAt(h, w, u);
  }

  lemma RootSquared(h: Piece, sqrt: real -> real, t: real)
    requires h.Hyperbola? && SquareRoot(sqrt) && Discriminant(h, t) >= 0.0
    ensures Root(h, sqrt, t) * Root(h, sqrt, t) == Discriminant(h, t) == t * t - 4.0 * h.a * h.b
    ensures if h.usePositivePiece then Root(h, sqrt, t) >= 0.0 else Root(h, sqrt, t) <= 0.0
  {
    var x := sqrt(Discriminant(h, t));
    assert x * x == Discriminant(h, t);
    assert (-x) * (-x) == x * x;
  }

  lemma ValueAt(h: Piece, w: real, u: real)
    requires h.Hyperbola? && h.a != 0.0 && w != 0.0 && u != 0.0 && u == w / (2.0 * h.a)
    ensures HyperbolaValue(h, w) - h.translatePayout == h.c * u + h.d / u
  {
    Scaled(h.c, h.a, w, u);
    Inverted(h.d, h.a, w, u);
  }

  lemma Halves(a: real, b: real, t: real, root: real, w: real, u: real)
    requires a != 0.0 && w == t + root && w != 0.0 && u == w / (2.0 * a) && root * root == t * t - 4.0 * a * b
    ensures u != 0.0 && t == a * u + b / u && a * u - b / u == root
  {
    assert 2.0 * a * u == w;
    assert a * u == w / 2.0;
    assert w * w == 2.0 * t * w - 4.0 * a * b by {
      assert w * w == t * t + 2.0 * t * root + root * root;
      assert 2.0 * t * w == 2.0 * t * t + 2.0 * t * root;
    }
    assert (t - w / 2.0) * w == 2.0 * a * b;
    assert u != 0.0;
    Quotient(b, u, t - w / 2.0, a, w);
  }

  lemma Quotient(b: real, u: real, q: real, a: real, w: real)
    requires a != 0.0 && u != 0.0 && 2.0 * a * u == w && q * w == 2.0 * a * b
    ensures b / u == q
  {
    assert 2.0 * a * (q * u - b) == 0.0;
    assert q * u == b;
  }

  lemma Scaled(c: real, a: real, w: real, u: real)
    requires a != 0.0 && u == w / (2.0 * a)
    ensures c * w / (2.0 * a) == c * u
  {
  }

  lemma Inverted(d: real, a: real, w: real, u: real)
    requires a != 0.0 && w != 0.0 && u != 0.0 && u == w / (2.0 * a)
    ensures 2.0 * a * d / w == d / u
  {
    assert w == 2.0 * a * u;
    assert (d / u) * w == d * 2.0 * a;
  }

  lemma BranchIsEvaluated(h: Piece, sqrt: real -> real, outcome: nat, u: real, v: real)
    requires h.Hyperbola? && SquareRoot(sqrt) && h.a != 0.0 && OnBranch(h, outcome, u, v)
    ensures EvaluateHyperbola(h, sqrt, outcome) == Some(v)
  {
    hide HyperbolaValue, SquareRoot, Discriminant, Root;
    var t := outcome as real - h.translateOutcome;
    RootAtParameter(h, sqrt, t, u);
    var w := t + Root(h, sqrt, t);
    Doubled(h.a, u, t, w, h.b / u);
    ValueAt(h, w, u);
  }

  lemma RootAtParameter(h: Piece, sqrt: real -> real, t: real, u: real)
    requires h.Hyperbola? && SquareRoot(sqrt) && u != 0.0 && t == h.a * u + h.b / u
    requires if h.usePositivePiece then h.a * u >= h.b / u else h.a * u <= h.b / u
    ensures Discriminant(h, t) >= 0.0 && Root(h, sqrt, t) == h.a * u - h.b / u
  {
    hide SquareRoot, Discriminant, Root;
    var y := h.a * u - h.b / u;
    SquaredDifference(h.a, h.b, u, t, y);
    assert Discriminant(h, t) == y * y by { DiscriminantIs(h, t); }
    assert y * y >= 0.0;
    RootSquared(h, sqrt, t);
    var root := Root(h, sqrt, t);
    if h.usePositivePiece { RootIsUnique(root, y); } else { OppositeSquares(root, y); RootIsUnique(-root, -y); }
  }

  lemma DiscriminantIs(h: Piece, t: real)
    requires h.Hyperbola?
    ensures Discriminant(h, t) == t * t - 4.0 * h.a * h.b
  {
  }

  lemma OppositeSquares(x: real, y: real)
    ensures (-x) * (-x) == x * x && (-y) * (-y) == y * y
  {
  }

  lemma Doubled(a: real, u: real, t: real, w: real, q: real)
    requires a != 0.0 && u != 0.0 && t == a * u + q && w == t + (a * u - q)
    ensures w != 0.0 && u == w / (2.0 * a)
  {
    assert w == 2.0 * (a * u);
    assert 2.0 * a * u == w;
    assert a * u != 0.0;
  }

  lemma SquaredDifference(a: real, b: real, u: real, t: real, y: real)
    requires u != 0.0 && t == a * u + b / u && y == a * u - b / u
    ensures y * y == t * t - 4.0 * a * b
  {
    var p, q := a * u, b / u;
    assert p * q == a * b by { assert u * q == b; assert p * q == a * (u * q); }
    assert t * t == p * p + 2.0 * (p * q) + q * q;
    assert y * y == p * p - 2.0 * (p * q) + q * q;
  }

  lemma RootIsUnique(x: real, y: real)
    requires x >= 0.0 && y >= 0.0 && x * x == y * y
    ensures x == y
  {
    if x < y { SquaresAscend(x, y); }
    if y < x { SquaresAscend(y, x); }
  }

  lemma SquaresAscend(x: real, y: real)
    requires 0.0 <= x < y
    ensures x * x < y * y
  {
    var d := y - x;
    assert y * y == x * x + d * (x + y) by {
      assert d * (x + y) == d * x + d * y;
      assert (x + d) * y == x * y + d * y;
      assert x * (x + d) == x * x + x * d;
    }
    Positive(d, x + y);
  }

  lemma Positive(a: real, b: real)
    requires a > 0.0 && b > 0.0
    ensures a * b > 0.0
  {
  }

  /** There is no value exactly where no branch has a point: `a` is zero, the discriminant is negative, or a curve with `b` zero,
      which is a line, is asked for its other half. */
  lemma HyperbolaHasValue(h: Piece, sqrt: real -> real, outcome: nat)
    requires h.Hyperbola? && SquareRoot(sqrt)
    ensures var t := outcome as real - h.translateOutcome;
            EvaluateHyperbola(h, sqrt, outcome).Some? <==>
              && h.a != 0.0 && t * t - 4.0 * h.a * h.b >= 0.0
              && !(h.b == 0.0 && (if h.usePositivePiece then t <= 0.0 else t >= 0.0))
  {
    hide HyperbolaValue, SquareRoot, Root;
    var t := outcome as real - h.translateOutcome;
    if h.a != 0.0 && t * t - 4.0 * h.a * h.b >= 0.0 {
      RootSquared(h, sqrt, t);
      RootVanishes(h.a, h.b, t, Root(h, sqrt, t));
    }
  }

  /** The root is the opposite of the outcome exactly on the other half of a line. */
  lemma RootVanishes(a: real, b: real, t: real, root: real)
    requires a != 0.0 && root * root == t * t - 4.0 * a * b
    ensures root >= 0.0 ==> (t + root == 0.0 <==> b == 0.0 && t <= 0.0)
    ensures root <= 0.0 ==> (t + root == 0.0 <==> b == 0.0 && t >= 0.0)
  {
    if b == 0.0 {
      assert root * root == t * t;
      RootIsUnique(if root >= 0.0 then root else -root, if t >= 0.0 then t else -t);
    } else {
      NoZeroProduct(a, b);
    }
  }

  lemma NoZeroProduct(a: real, b: real)
    requires a != 0.0 && b != 0.0
    ensures 4.0 * a * b != 0.0
  {
  }

  /** The square root is a parameter of the evaluation. */
  function Evaluate(p: Piece, sqrt: real -> real, outcome: nat): Option<real> {
    match p
    case Polynomial(points) => EvaluatePolynomial(points, outcome)
    case Hyperbola(_, _, _, _, _, _, _, _, _) => EvaluateHyperbola(p, sqrt, outcome)
  }

  /** A polynomial curve passes through each of its points, with the extra precision when there are
      more than two of them. */
  lemma PassesThroughPoints(points: seq<PayoutPoint>, k: nat)
    requires |points| > 1 && DistinctOutcomes(points) && k < |points|
    ensures EvaluatePolynomial(points, points[k].eventOutcome)
              == Some(if |points| == 2 then points[k].outcomePayout as real else points[k].Payout())
  {
    hide Lagrange.Sum, Lagrange.Line;
    if |points| == 2 {
      Lagrange.LineAtEnds(points[0].eventOutcome as real, points[0].outcomePayout as real,
                          points[1].eventOutcome as real, points[1].outcomePayout as real);
    } else {
      Lagrange.SumAtPoint(Outcomes(points), Payouts(points), |points|, k);
    }
  }

  /** The two-point shortcut agrees with the interpolation loop, unless the extra precision it drops differs from zero. */
  lemma ShortcutEqualsLoop(points: seq<PayoutPoint>)
    requires |points| == 2 && DistinctOutcomes(points)
    ensures (forall outcome: nat :: EvaluatePolynomial(points, outcome) == Interpolate(points, outcome))
            <==> points[0].extraPrecision == 0 && points[1].extraPrecision == 0
  {
    hide Lagrange.Sum, Lagrange.Line;
    var xs, ys := Outcomes(points), Payouts(points);
    var left, right := points[0], points[1];
    if left.extraPrecision == 0 && right.extraPrecision == 0 {
      forall outcome: nat ensures EvaluatePolynomial(points, outcome) == Interpolate(points, outcome) {
        Lagrange.TwoPointsGiveALine(xs, ys, outcome as real);
        FlatLine(xs[0], xs[1], ys[0], outcome as real);
      }
    } else {
      forall k: nat | k < 2 ensures Interpolate(points, points[k].eventOutcome) == Some(points[k].Payout()) {
        Lagrange.SumAtPoint(xs, ys, 2, k);
      }
      PassesThroughPoints(points, 0);
      PassesThroughPoints(points, 1);
      assert left.extraPrecision == 0 || left.Payout() != left.outcomePayout as real;
    }
  }

  lemma FlatLine(x0: real, x1: real, y: real, x: real)
    requires x0 != x1
    ensures Lagrange.Line(x0, y, x1, y, x) == y
  {
    assert (y - y) / (x1 - x0) == 0.0;
  }

  /** The interpolation is the polynomial its points were taken from. */
  lemma InterpolatesPolynomials(points: seq<PayoutPoint>, coefficients: seq<real>, outcome: nat)
    requires |points| > 2 && DistinctOutcomes(points) && |coefficients| <= |points|
    requires forall k :: 0 <= k < |points| ==>
               points[k].Payout() == Lagrange.At(coefficients, points[k].eventOutcome as real)
    ensures EvaluatePolynomial(points, outcome) == Some(Lagrange.At(coefficients, outcome as real))
  {
    Lagrange.ReproducesPolynomials(Outcomes(points), Payouts(points), coefficients, outcome as real);
  }

  /** Between two points the curve stays between their payouts. */
  lemma TwoPointsStayBetween(left: PayoutPoint, right: PayoutPoint, outcome: nat)
    requires left.eventOutcome <= outcome <= right.eventOutcome && left.eventOutcome < right.eventOutcome
    ensures var v := TwoPoints(left, right, outcome);
            && v.Some?
            && (left.outcomePayout as real <= v.value <= right.outcomePayout as real
                || right.outcomePayout as real <= v.value <= left.outcomePayout as real)
  {
    var x, x0, x1 := outcome as real, left.eventOutcome as real, right.eventOutcome as real;
    var y0, y1 := left.outcomePayout as real, right.outcomePayout as real;
    if left.outcomePayout != right.outcomePayout {
      BetweenEnds(x - x0, x1 - x0, y1 - y0);
    }
  }

  lemma BetweenEnds(part: real, whole: real, rise: real)
    requires 0.0 <= part <= whole && whole > 0.0
    ensures 0.0 <= part * (rise / whole) <= rise || rise <= part * (rise / whole) <= 0.0
  {
    var slope := rise / whole;
    assert whole * slope == rise;
    if slope >= 0.0 {
      assert part * slope <= whole * slope;
    } else {
      assert part * slope >= whole * slope;
    }
  }

  // ---------- Rounding intervals ----------

  datatype RoundingInterval = RoundingInterval(beginInterval: U64, roundingMod: U64)

  predicate ValidIntervals(intervals: seq<RoundingInterval>) {
    && intervals != []
    && intervals[0].beginInterval == 0
    && forall i, j :: 0 <= i < j < |intervals| ==> intervals[i].beginInterval < intervals[j].beginInterval
  }

  /** `RoundingIntervals::validate`. */
  method ValidateIntervals(intervals: seq<RoundingInterval>) returns (valid: bool)
    ensures valid <==> ValidIntervals(intervals)
  {
    if intervals == [] { return false; }
    if intervals[0].beginInterval != 0 { return false; }
    var cur := intervals[0].beginInterval;
    for i := 1 to |intervals|
      invariant cur == intervals[i - 1].beginInterval
      invariant ValidIntervals(intervals[..i])
    {
      if intervals[i].beginInterval <= cur { return false; }
      cur := intervals[i].beginInterval;
    }
    assert intervals[..|intervals|] == intervals;
    return true;
  }

  /** The last of the first `n` intervals that starts at or before the outcome. */
  function LastStarting(intervals: seq<RoundingInterval>, outcome: nat, n: nat): (k: nat)
    requires 0 < n <= |intervals| && intervals[0].beginInterval == 0
    ensures k < n && intervals[k].beginInterval <= outcome
    ensures forall i :: k < i < n ==> outcome < intervals[i].beginInterval
  {
    if intervals[n - 1].beginInterval <= outcome then n - 1 else LastStarting(intervals, outcome, n - 1)
  }

  function ModulusAt(intervals: seq<RoundingInterval>, outcome: nat): U64
    requires ValidIntervals(intervals)
  {
    intervals[LastStarting(intervals, outcome, |intervals|)].roundingMod
  }

  /** A binary search by the start of the interval: where it was found, or where it would be inserted. */
  method BinarySearch(intervals: seq<RoundingInterval>, outcome: nat) returns (found: bool, index: nat)
    requires ValidIntervals(intervals)
    ensures found ==> index < |intervals| && intervals[index].beginInterval == outcome
    ensures !found ==>
              && index <= |intervals|
              && (forall i :: 0 <= i < index ==> intervals[i].beginInterval < outcome)
              && (forall i :: index <= i < |intervals| ==> intervals[i].beginInterval > outcome)
  {
    var lo, hi := 0, |intervals|;
    while lo < hi
      invariant 0 <= lo <= hi <= |intervals|
      invariant forall i :: 0 <= i < lo ==> intervals[i].beginInterval < outcome
      invariant forall i :: hi <= i < |intervals| ==> intervals[i].beginInterval > outcome
    {
      var mid := lo + (hi - lo) / 2;
      if intervals[mid].beginInterval == outcome { return true, mid; }
      if intervals[mid].beginInterval < outcome { lo := mid + 1; } else { hi := mid; }
    }
    return false, lo;
  }

  /** `f64::round` of a value that is not negative. */
  function RoundHalfUp(v: real): (n: nat)
    requires v >= 0.0
    ensures n as real - 0.5 <= v < n as real + 0.5
  {
    (v + 0.5).Floor
  }

  function Saturate(n: nat): U64 {
    if n > U64_MAX then U64_MAX else n
  }

  function Multiple(k: int, modulus: nat): real {
    (k * modulus) as real
  }

  lemma MultiplesOrdered(j: int, k: int, modulus: nat)
    requires j < k
    ensures Multiple(j, modulus) + modulus as real <= Multiple(k, modulus)
    ensures k == j + 1 ==> Multiple(j, modulus) + modulus as real == Multiple(k, modulus)
  {
    ProductsOrdered(j, k, modulus);
  }

  lemma ProductsOrdered(j: int, k: int, modulus: nat)
    requires j < k
    ensures j * modulus + modulus <= k * modulus
    ensures k == j + 1 ==> j * modulus + modulus == k * modulus
    decreases k - j
  {
    assert (k - 1) * modulus == k * modulus - modulus;
    if j < k - 1 {
      ProductsOrdered(j, k - 1, modulus);
    }
  }

  /** The number of whole moduli in a value that is not negative. */
  function WholeModuli(v: real, modulus: nat): (q: nat)
    requires v >= 0.0 && modulus > 0
    ensures Multiple(q, modulus) <= v < Multiple(q, modulus) + modulus as real
  {
    var ratio := v / modulus as real;
    assert ratio * modulus as real == v;
    assert ratio >= 0.0;
    DivisionBounds(ratio, modulus, ratio.Floor);
    ratio.Floor
  }

  lemma DivisionBounds(ratio: real, modulus: nat, q: nat)
    requires modulus > 0 && q as real <= ratio < q as real + 1.0
    ensures Multiple(q, modulus) <= ratio * modulus as real < Multiple(q, modulus) + modulus as real
  {
    CastOfProduct(q, modulus);
    assert Multiple(q, modulus) == q as real * modulus as real;
    RealProducts(q as real, ratio, modulus as real, Multiple(q, modulus));
  }

  lemma CastOfProduct(q: int, modulus: nat)
    ensures (q * modulus) as real == q as real * modulus as real
  {
  }

  lemma RealProducts(q: real, ratio: real, d: real, qd: real)
    requires d > 0.0 && q <= ratio < q + 1.0 && qd == q * d
    ensures qd <= ratio * d < qd + d
  {
    var rest := ratio - q;
    assert rest * d >= 0.0;
    assert (1.0 - rest) * d > 0.0;
    assert (1.0 - rest) * d == d - rest * d;
    assert ratio * d == qd + rest * d;
  }

  /** The remainder of a division of a value that is not negative. */
  function Remainder(v: real, modulus: nat): (m: real)
    requires v >= 0.0 && modulus > 0
    ensures 0.0 <= m < modulus as real && m <= v
  {
    v - Multiple(WholeModuli(v, modulus), modulus)
  }

  /** The remainder that keeps the sign of the value. */
  function SignedRemainder(v: real, modulus: nat): real
    requires modulus > 0
  {
    if v >= 0.0 then Remainder(v, modulus) else -Remainder(-v, modulus)
  }

  /** `f64::round` and the conversion to an integer that cannot be negative. */
  function ToU64(v: real): U64 {
    if v >= 0.0 then Saturate(RoundHalfUp(v)) else 0
  }

  /** The arithmetic of `RoundingIntervals::round`. A modulus of zero has no remainder, and the
      conversion of the undefined result to an integer gives zero. */
  function RoundTo(v: real, modulus: U64): U64 {
    if modulus == 0 then 0
    else
      var m := if v >= 0.0 then SignedRemainder(v, modulus) else SignedRemainder(v, modulus) + modulus as real;
      if m >= modulus as real / 2.0 then ToU64(v + modulus as real - m) else ToU64(v - m)
  }

  /** `RoundingIntervals::round`: finds the interval of the outcome and rounds by its modulus. */
  method Round(intervals: seq<RoundingInterval>, outcome: nat, payout: real) returns (r: U64)
    requires ValidIntervals(intervals)
    ensures r == RoundTo(payout, ModulusAt(intervals, outcome))
  {
    var found, index := BinarySearch(intervals, outcome);
    var modulus: U64 := 0;
    if found {
      modulus := intervals[index].roundingMod;
    } else if index != 0 {
      modulus := intervals[index - 1].roundingMod;
    } else {
      assert false;
    }
    if modulus == 0 { return 0; }
    var m := SignedRemainder(payout, modulus);
    if payout < 0.0 { m := m + modulus as real; }
    if m >= modulus as real / 2.0 {
      return ToU64(payout + modulus as real - m);
    } else {
      return ToU64(payout - m);
    }
  }

  /** A negative value rounds to zero. */
  lemma NegativeRoundsToZero(v: real, modulus: U64)
    requires v < 0.0
    ensures RoundTo(v, modulus) == 0
  {
    hide Multiple, WholeModuli, RoundHalfUp;
    if modulus > 0 {
      var rest := Remainder(-v, modulus);
      assert v + modulus as real - (modulus as real - rest) == -(-v - rest);
      HalfUpOfZero();
    }
  }

  lemma HalfUpOfZero()
    ensures RoundHalfUp(0.0) == 0
  {
  }

  predicate IsNearestMultiple(v: real, modulus: nat, k: nat) {
    Multiple(k, modulus) - modulus as real / 2.0 <= v < Multiple(k, modulus) + modulus as real / 2.0
  }

  /** Rounding gives the multiple of the modulus within half a modulus, the larger one on a tie. */
  lemma RoundsToNearestMultiple(v: real, modulus: U64, k: nat)
    requires v >= 0.0 && modulus > 0 && IsNearestMultiple(v, modulus, k)
    ensures RoundTo(v, modulus) == Saturate(k * modulus)
  {
    var nearest := NearestMultipleExists(v, modulus);
    OneNearestMultiple(v, modulus, k, nearest);
    CastMultiple(k, modulus);
  }

  lemma CastMultiple(k: nat, modulus: nat)
    ensures Multiple(k, modulus) >= 0.0 && RoundHalfUp(Multiple(k, modulus)) == k * modulus
  {
  }

  lemma OneNearestMultiple(v: real, modulus: nat, j: nat, k: nat)
    requires IsNearestMultiple(v, modulus, j) && IsNearestMultiple(v, modulus, k)
    ensures j == k
  {
    hide Multiple;
    if j < k { MultiplesOrdered(j, k, modulus); }
    if k < j { MultiplesOrdered(k, j, modulus); }
  }

  /** There is such a multiple for every value. */
  lemma NearestMultipleExists(v: real, modulus: U64) returns (k: nat)
    requires v >= 0.0 && modulus > 0
    ensures IsNearestMultiple(v, modulus, k)
    ensures Multiple(k, modulus) >= 0.0 && RoundTo(v, modulus) == Saturate(RoundHalfUp(Multiple(k, modulus)))
  {
    hide Multiple, RoundHalfUp, Saturate;
    var q := WholeModuli(v, modulus);
    MultiplesOrdered(q, q + 1, modulus);
    k := if Remainder(v, modulus) >= modulus as real / 2.0 then q + 1 else q;
    CastMultiple(k, modulus);
  }

  // ---------- Rounded payouts ----------

  /** `get_rounded_payout`, given the value of the curve. */
  function RoundedPayout(value: Option<real>, outcome: nat, intervals: seq<RoundingInterval>, total: U64): Result<U64, Error>
    requires ValidIntervals(intervals)
  {
    if value.None? || value.value < 0.0 then Err(InvalidParameters)
    else if RoundHalfUp(value.value) > total then Err(InvalidParameters)
    else
      var r := RoundTo(value.value, ModulusAt(intervals, outcome));
      Ok(if r < total then r else total)
  }

  /** A value is accepted exactly when it lies in [0, total + 1/2). */
  lemma AcceptedExactlyInRange(value: Option<real>, outcome: nat, intervals: seq<RoundingInterval>, total: U64)
    requires ValidIntervals(intervals)
    ensures RoundedPayout(value, outcome, intervals, total).Ok?
            <==> value.Some? && 0.0 <= value.value < total as real + 0.5
  {
  }

  /** An accepted payout lies in [0, total] and, also where it was cut off at the total, within half a
      modulus of the curve. */
  lemma AcceptedIsClose(value: Option<real>, outcome: nat, intervals: seq<RoundingInterval>, total: U64)
    requires ValidIntervals(intervals) && ModulusAt(intervals, outcome) > 0
    requires RoundedPayout(value, outcome, intervals, total).Ok?
    ensures var r := RoundedPayout(value, outcome, intervals, total).value;
            var half := ModulusAt(intervals, outcome) as real / 2.0;
            0 <= r <= total && r as real - half <= value.value <= r as real + half
  {
    hide RoundTo, ModulusAt;
    var modulus := ModulusAt(intervals, outcome);
    var k := NearestMultipleExists(value.value, modulus);
    CastMultiple(k, modulus);
    RoundsToNearestMultiple(value.value, modulus, k);
  }

  /** Rounding and cutting off keep the order of the values at one outcome. */
  lemma RoundingIsMonotone(v: real, w: real, outcome: nat, intervals: seq<RoundingInterval>, total: U64)
    requires ValidIntervals(intervals) && v <= w
    requires RoundedPayout(Some(v), outcome, intervals, total).Ok?
    requires RoundedPayout(Some(w), outcome, intervals, total).Ok?
    ensures RoundedPayout(Some(v), outcome, intervals, total).value <= RoundedPayout(Some(w), outcome, intervals, total).value
  {
    hide RoundTo, ModulusAt, Multiple;
    var modulus := ModulusAt(intervals, outcome);
    if modulus > 0 {
      var j := NearestMultipleExists(v, modulus);
      var k := NearestMultipleExists(w, modulus);
      if j > k { MultiplesOrdered(k, j, modulus); }
      if j < k { MultiplesOrdered(j, k, modulus); }
      RoundingKeepsOrder(Multiple(j, modulus), Multiple(k, modulus));
    } else {
      ZeroModulus(v);
      ZeroModulus(w);
    }
  }

  lemma ZeroModulus(v: real)
    requires v >= 0.0
    ensures RoundTo(v, 0) == 0
  {
  }

  lemma RoundingKeepsOrder(v: real, w: real)
    requires 0.0 <= v <= w
    ensures RoundHalfUp(v) <= RoundHalfUp(w)
  {
  }

  /** A modulus of one rounds to the nearest integer only. */
  lemma UnitModulusRoundsToInteger(value: Option<real>, outcome: nat, intervals: seq<RoundingInterval>, total: U64)
    requires ValidIntervals(intervals) && ModulusAt(intervals, outcome) == 1
    requires RoundedPayout(value, outcome, intervals, total).Ok?
    ensures RoundedPayout(value, outcome, intervals, total).value == RoundHalfUp(value.value)
  {
    RoundsToNearestMultiple(value.value, 1, RoundHalfUp(value.value));
  }
}
