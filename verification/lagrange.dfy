/** Lagrange interpolation over the reals, as the polynomial pieces of a payout function use it. */
module Lagrange {
  import opened Wrappers

  /** `x` at `k` minus `x` at any other index never vanishes. */
  predicate Distinct(xs: seq<real>) {
    forall i, j :: 0 <= i < j < |xs| ==> xs[i] != xs[j]
  }

  /** The factor that vanishes at `other` and is one at `own`. */
  function Factor(own: real, other: real, x: real): real
    requires own != other
  {
    (x - other) / (own - other)
  }

  lemma FactorAtEnds(own: real, other: real)
    requires own != other
    ensures Factor(own, other, other) == 0.0 && Factor(own, other, own) == 1.0
  {
    var d := own - other;
    assert 0.0 / d == 0.0;
    assert d / d == 1.0;
  }

  lemma FactorScales(own: real, other: real, x: real)
    requires own != other
    ensures Factor(own, other, x) == 1.0 / (own - other) * (x - other)
  {
  }

  /** The basis term of point `i`, with the factors of the first `n` points multiplied in. */
  function Term(xs: seq<real>, ys: seq<real>, i: nat, n: nat, x: real): real
    requires Distinct(xs) && |xs| == |ys| && i < |xs| && n <= |xs|
  {
    if n == 0 then ys[i]
    else if n - 1 == i then Term(xs, ys, i, n - 1, x)
    else Term(xs, ys, i, n - 1, x) * Factor(xs[i], xs[n - 1], x)
  }

  /** The sum of the first `n` basis terms. */
  function Sum(xs: seq<real>, ys: seq<real>, n: nat, x: real): real
    requires Distinct(xs) && |xs| == |ys| && n <= |xs|
  {
    if n == 0 then 0.0 else Sum(xs, ys, n - 1, x) + Term(xs, ys, n - 1, |xs|, x)
  }

  /** The nested loop that evaluates the interpolation polynomial. Two equal outcomes make it divide by zero, which
      leaves no value. */
  method Evaluate(xs: seq<real>, ys: seq<real>, x: real) returns (r: Option<real>)
    requires |xs| == |ys|
    ensures r == if Distinct(xs) then Some(Sum(xs, ys, |xs|, x)) else None
  {
    var result := 0.0;
    for i := 0 to |xs|
      invariant forall a, b :: 0 <= a < i && a < b < |xs| ==> xs[a] != xs[b]
      invariant Distinct(xs) ==> result == Sum(xs, ys, i, x)
    {
      var l := ys[i];
      for j := 0 to |xs|
        invariant forall b :: 0 <= b < j && b != i ==> xs[i] != xs[b]
        invariant Distinct(xs) ==> l == Term(xs, ys, i, j, x)
      {
        if i != j {
          if xs[i] == xs[j] {
            assert !Distinct(xs);
            return None;
          }
          var denominator := xs[i] - xs[j];
          var numerator := x - xs[j];
          assert numerator / denominator == Factor(xs[i], xs[j], x);
          l := l * (numerator / denominator);
        }
      }
      result := result + l;
    }
    return Some(result);
  }

  // ---------- The curve passes through its points ----------

  lemma {:induction false} TermAtOtherPoint(xs: seq<real>, ys: seq<real>, i: nat, n: nat, k: nat)
    requires Distinct(xs) && |xs| == |ys| && i < |xs| && k < n <= |xs| && i != k
    ensures Term(xs, ys, i, n, xs[k]) == 0.0
  {
    hide Factor;
    if n - 1 != k {
      TermAtOtherPoint(xs, ys, i, n - 1, k);
    } else {
      FactorAtEnds(xs[i], xs[k]);
      assert Term(xs, ys, i, n, xs[k]) == Term(xs, ys, i, k, xs[k]) * Factor(xs[i], xs[k], xs[k]);
    }
  }

  lemma {:induction false} TermAtOwnPoint(xs: seq<real>, ys: seq<real>, i: nat, n: nat)
    requires Distinct(xs) && |xs| == |ys| && i < |xs| && n <= |xs|
    ensures Term(xs, ys, i, n, xs[i]) == ys[i]
  {
    hide Factor;
    if n > 0 {
      TermAtOwnPoint(xs, ys, i, n - 1);
      if n - 1 != i {
        FactorAtEnds(xs[i], xs[n - 1]);
      }
    }
  }

  lemma {:induction false} SumAtPoint(xs: seq<real>, ys: seq<real>, n: nat, k: nat)
    requires Distinct(xs) && |xs| == |ys| && n <= |xs| && k < |xs|
    ensures Sum(xs, ys, n, xs[k]) == if k < n then ys[k] else 0.0
  {
    if n > 0 {
      SumAtPoint(xs, ys, n - 1, k);
      if n - 1 == k {
        TermAtOwnPoint(xs, ys, k, |xs|);
      } else {
        TermAtOtherPoint(xs, ys, n - 1, |xs|, k);
      }
    }
  }

  // ---------- Polynomials by coefficients, lowest first ----------

  function At(c: seq<real>, x: real): real {
    if c == [] then 0.0 else c[0] + x * At(c[1..], x)
  }

  function Plus(c: seq<real>, d: seq<real>): (r: seq<real>)
    ensures |r| == if |c| < |d| then |d| else |c|
  {
    if c == [] then d
    else if d == [] then c
    else [c[0] + d[0]] + Plus(c[1..], d[1..])
  }

  function Scale(s: real, c: seq<real>): (r: seq<real>)
    ensures |r| == |c|
  {
    if c == [] then [] else [s * c[0]] + Scale(s, c[1..])
  }

  lemma {:induction false} AtPlus(c: seq<real>, d: seq<real>, x: real)
    ensures At(Plus(c, d), x) == At(c, x) + At(d, x)
  {
    if c != [] && d != [] {
      AtPlus(c[1..], d[1..], x);
      assert Plus(c, d)[1..] == Plus(c[1..], d[1..]);
    }
  }

  lemma {:induction false} AtScale(s: real, c: seq<real>, x: real)
    ensures At(Scale(s, c), x) == s * At(c, x)
  {
    if c != [] {
      AtScale(s, c[1..], x);
      assert Scale(s, c)[1..] == Scale(s, c[1..]);
    }
  }

  /** The polynomial `s * (x - r) * c(x)`. */
  function TimesLinear(c: seq<real>, r: real, s: real): (d: seq<real>)
    ensures |d| == |c| + 1
  {
    Plus([0.0] + Scale(s, c), Scale(-(s * r), c))
  }

  lemma AtTimesLinear(c: seq<real>, r: real, s: real, x: real)
    ensures At(TimesLinear(c, r, s), x) == At(c, x) * (s * (x - r))
  {
    var shifted := [0.0] + Scale(s, c);
    AtPlus(shifted, Scale(-(s * r), c), x);
    AtScale(s, c, x);
    AtScale(-(s * r), c, x);
    assert shifted[1..] == Scale(s, c);
    assert At(shifted, x) == x * (s * At(c, x));
    Distributes(At(c, x), s, r, x);
  }

  lemma Distributes(a: real, s: real, r: real, x: real)
    ensures x * (s * a) + -(s * r) * a == a * (s * (x - r))
  {
    assert s * (x - r) == s * x - s * r;
    assert a * (s * (x - r)) == a * (s * x) - a * (s * r);
    assert x * (s * a) == a * (s * x);
  }

  /** The quotient of `c(x) - c(r)` by `x - r`. */
  function Quotient(c: seq<real>, r: real): (d: seq<real>)
    ensures |d| == if c == [] then 0 else |c| - 1
  {
    if c == [] then [] else Plus(c[1..], Scale(r, Quotient(c[1..], r)))
  }

  lemma {:induction false} Division(c: seq<real>, r: real, x: real)
    ensures At(c, x) == (x - r) * At(Quotient(c, r), x) + At(c, r)
  {
    hide At, Plus, Scale;
    if c == [] {
      AtEmpty(x);
      AtEmpty(r);
    } else {
      var t := c[1..];
      Division(t, r, x);
      AtQuotient(c, r, x);
      AtFirst(c, x);
      AtFirst(c, r);
      DivisionStep(x, r, c[0], At(t, x), At(t, r), At(Quotient(t, r), x), At(Quotient(c, r), x), At(c, x), At(c, r));
    }
  }

  lemma AtEmpty(x: real)
    ensures At([], x) == 0.0
  {
  }

  lemma AtFirst(c: seq<real>, x: real)
    requires c != []
    ensures At(c, x) == c[0] + x * At(c[1..], x)
  {
  }

  lemma AtQuotient(c: seq<real>, r: real, x: real)
    requires c != []
    ensures At(Quotient(c, r), x) == At(c[1..], x) + r * At(Quotient(c[1..], r), x)
  {
    hide At, Plus, Scale;
    AtPlus(c[1..], Scale(r, Quotient(c[1..], r)), x);
    AtScale(r, Quotient(c[1..], r), x);
  }

  lemma DivisionStep(x: real, r: real, c0: real, tx: real, tr: real, dx: real, qx: real, cx: real, cr: real)
    requires tx == (x - r) * dx + tr && qx == tx + r * dx
    requires cx == c0 + x * tx && cr == c0 + r * tr
    ensures cx == (x - r) * qx + cr
  {
    assert r * tx == r * ((x - r) * dx) + r * tr;
    assert (x - r) * (r * dx) == r * ((x - r) * dx);
    assert (x - r) * (tx + r * dx) == (x - r) * tx + (x - r) * (r * dx);
    assert (x - r) * tx == x * tx - r * tx;
  }

  /** A polynomial with at least as many distinct roots as coefficients is zero everywhere. */
  lemma {:induction false} TooManyRoots(c: seq<real>, roots: seq<real>, x: real)
    requires Distinct(roots) && |c| <= |roots|
    requires forall k :: 0 <= k < |roots| ==> At(c, roots[k]) == 0.0
    ensures At(c, x) == 0.0
    decreases |c|
  {
    if c != [] {
      hide At, Quotient;
      var r, rest := roots[0], roots[1..];
      var d := Quotient(c, r);
      forall k | 0 <= k < |rest| ensures At(d, rest[k]) == 0.0 {
        assert rest[k] == roots[k + 1] && roots[0] != roots[k + 1];
        RootOfQuotient(c, r, rest[k]);
      }
      TooManyRoots(d, rest, x);
      Division(c, r, x);
    }
  }

  lemma RootOfQuotient(c: seq<real>, r: real, x: real)
    requires At(c, r) == 0.0 && At(c, x) == 0.0 && x != r
    ensures At(Quotient(c, r), x) == 0.0
  {
    hide At, Quotient;
    Division(c, r, x);
    NoZeroDivisor(x - r, At(Quotient(c, r), x));
  }

  lemma NoZeroDivisor(a: real, b: real)
    requires a != 0.0 && a * b == 0.0
    ensures b == 0.0
  {
  }

  // ---------- The curve is the only one of its degree ----------

  /** The coefficients of a basis term. */
  function TermPoly(xs: seq<real>, ys: seq<real>, i: nat, n: nat): (c: seq<real>)
    requires Distinct(xs) && |xs| == |ys| && i < |xs| && n <= |xs|
    ensures |c| == if i < n then n else n + 1
  {
    if n == 0 then [ys[i]]
    else if n - 1 == i then TermPoly(xs, ys, i, n - 1)
    else TimesLinear(TermPoly(xs, ys, i, n - 1), xs[n - 1], 1.0 / (xs[i] - xs[n - 1]))
  }

  lemma {:induction false} TermIsPoly(xs: seq<real>, ys: seq<real>, i: nat, n: nat, x: real)
    requires Distinct(xs) && |xs| == |ys| && i < |xs| && n <= |xs|
    ensures At(TermPoly(xs, ys, i, n), x) == Term(xs, ys, i, n, x)
  {
    hide TimesLinear, Factor;
    if n == 0 {
      assert At([ys[i]], x) == ys[i] + x * At([], x);
    } else {
      TermIsPoly(xs, ys, i, n - 1, x);
      if n - 1 != i {
        AtTimesLinear(TermPoly(xs, ys, i, n - 1), xs[n - 1], 1.0 / (xs[i] - xs[n - 1]), x);
        FactorScales(xs[i], xs[n - 1], x);
      }
    }
  }

  function SumPoly(xs: seq<real>, ys: seq<real>, n: nat): (c: seq<real>)
    requires Distinct(xs) && |xs| == |ys| && n <= |xs|
    ensures |c| <= |xs|
  {
    if n == 0 then [] else Plus(SumPoly(xs, ys, n - 1), TermPoly(xs, ys, n - 1, |xs|))
  }

  lemma {:induction false} SumIsPoly(xs: seq<real>, ys: seq<real>, n: nat, x: real)
    requires Distinct(xs) && |xs| == |ys| && n <= |xs|
    ensures At(SumPoly(xs, ys, n), x) == Sum(xs, ys, n, x)
  {
    if n > 0 {
      SumIsPoly(xs, ys, n - 1, x);
      TermIsPoly(xs, ys, n - 1, |xs|, x);
      AtPlus(SumPoly(xs, ys, n - 1), TermPoly(xs, ys, n - 1, |xs|), x);
    }
  }

  /** Interpolating points of a polynomial with no more coefficients than there are points
      gives back that polynomial, at every outcome. */
  lemma ReproducesPolynomials(xs: seq<real>, ys: seq<real>, c: seq<real>, x: real)
    requires Distinct(xs) && |xs| == |ys| && |c| <= |xs|
    requires forall k :: 0 <= k < |xs| ==> ys[k] == At(c, xs[k])
    ensures Sum(xs, ys, |xs|, x) == At(c, x)
  {
    var difference := Plus(SumPoly(xs, ys, |xs|), Scale(-1.0, c));
    forall k | 0 <= k < |xs| ensures At(difference, xs[k]) == 0.0 {
      AtDifference(xs, ys, c, xs[k]);
      SumAtPoint(xs, ys, |xs|, k);
    }
    TooManyRoots(difference, xs, x);
    AtDifference(xs, ys, c, x);
  }

  lemma AtDifference(xs: seq<real>, ys: seq<real>, c: seq<real>, x: real)
    requires Distinct(xs) && |xs| == |ys|
    ensures At(Plus(SumPoly(xs, ys, |xs|), Scale(-1.0, c)), x) == Sum(xs, ys, |xs|, x) - At(c, x)
  {
    AtPlus(SumPoly(xs, ys, |xs|), Scale(-1.0, c), x);
    AtScale(-1.0, c, x);
    SumIsPoly(xs, ys, |xs|, x);
  }

  /** Every interpolation is itself such a polynomial, so the curve does not depend on the order or
      the choice of the points: two sets of points on one curve interpolate to the same curve. */
  lemma SamePolynomialFromOtherPoints(xs: seq<real>, ys: seq<real>, us: seq<real>, vs: seq<real>, x: real)
    requires Distinct(xs) && |xs| == |ys|
    requires Distinct(us) && |us| == |vs| && |xs| <= |us|
    requires forall k :: 0 <= k < |us| ==> vs[k] == Sum(xs, ys, |xs|, us[k])
    ensures Sum(us, vs, |us|, x) == Sum(xs, ys, |xs|, x)
  {
    var c := SumPoly(xs, ys, |xs|);
    forall k | 0 <= k < |us| ensures vs[k] == At(c, us[k]) {
      SumIsPoly(xs, ys, |xs|, us[k]);
    }
    ReproducesPolynomials(us, vs, c, x);
    SumIsPoly(xs, ys, |xs|, x);
  }

  /** The linear form that two points are evaluated with. */
  function Line(x0: real, y0: real, x1: real, y1: real, x: real): real
    requires x0 != x1
  {
    (x - x0) * ((y1 - y0) / (x1 - x0)) + y0
  }

  lemma LineAtEnds(x0: real, y0: real, x1: real, y1: real)
    requires x0 != x1
    ensures Line(x0, y0, x1, y1, x0) == y0 && Line(x0, y0, x1, y1, x1) == y1
  {
  }

  /** With two points, the linear form is the interpolation polynomial. */
  lemma TwoPointsGiveALine(xs: seq<real>, ys: seq<real>, x: real)
    requires |xs| == |ys| == 2 && xs[0] != xs[1]
    ensures Distinct(xs)
    ensures Sum(xs, ys, 2, x) == Line(xs[0], ys[0], xs[1], ys[1], x)
  {
    var slope := (ys[1] - ys[0]) / (xs[1] - xs[0]);
    var c := [ys[0] - slope * xs[0], slope];
    LineCoefficients(ys[0], slope, xs[0], xs[0]);
    LineCoefficients(ys[0], slope, xs[0], xs[1]);
    LineCoefficients(ys[0], slope, xs[0], x);
    LineAtEnds(xs[0], ys[0], xs[1], ys[1]);
    ReproducesPolynomials(xs, ys, c, x);
  }

  lemma LineCoefficients(y0: real, slope: real, x0: real, x: real)
    ensures At([y0 - slope * x0, slope], x) == (x - x0) * slope + y0
  {
    var c := [y0 - slope * x0, slope];
    assert c[1..] == [slope] && c[1..][1..] == [];
    assert At(c[1..], x) == slope + x * At([], x);
    assert At(c, x) == y0 - slope * x0 + x * slope;
    assert (x - x0) * slope == x * slope - x0 * slope;
  }
}
