/** `slope`: the least-squares trend of a metric over time, over the reals. */
module SoakTrend {
  import opened Text

  function Sum(s: seq<real>): real {
    if s == [] then 0.0 else s[0] + Sum(s[1..])
  }

  function Mean(s: seq<real>): real
    requires s != []
  {
    Sum(s) / |s| as real
  }

  function Times(a: real, b: real): real {
    a * b
  }

  function Term(x: real, y: real, mx: real, my: real): real {
    Times(x - mx, y - my)
  }

  /** The sum of `(x - mx) * (y - my)` over paired values. */
  function Moment(xs: seq<real>, ys: seq<real>, mx: real, my: real): real
    requires |xs| == |ys|
  {
    if xs == [] then 0.0 else Term(xs[0], ys[0], mx, my) + Moment(xs[1..], ys[1..], mx, my)
  }

  /** The least-squares slope; none when the times do not vary, where `slope` raises. */
  function LeastSquares(xs: seq<real>, ys: seq<real>): Option<real>
    requires |xs| == |ys| > 0
  {
    var denominator := Moment(xs, xs, Mean(xs), Mean(xs));
    if denominator > 0.0 then Some(Moment(xs, ys, Mean(xs), Mean(ys)) / denominator) else None
  }

  // ----- when the slope is defined -----

  ghost predicate StrictlyIncreasing(xs: seq<real>) {
    forall i, j :: 0 <= i < j < |xs| ==> xs[i] < xs[j]
  }

  lemma Square(d: real)
    ensures d != 0.0 ==> Times(d, d) > 0.0
    ensures d == 0.0 ==> Times(d, d) == 0.0
  {
    hide Times;
    if d > 0.0 {
      Positive(d, d);
    } else if d < 0.0 {
      Positive(-d, -d);
      SignsCancel(d, d);
    } else {
      TimesZero();
    }
  }

  lemma Positive(a: real, b: real)
    requires a > 0.0 && b > 0.0
    ensures Times(a, b) > 0.0
  {
  }

  lemma SignsCancel(a: real, b: real)
    ensures Times(-a, -b) == Times(a, b)
  {
  }

  lemma TimesZero()
    ensures Times(0.0, 0.0) == 0.0
  {
  }

  lemma SquareTerm(x: real, m: real)
    ensures x != m ==> Term(x, x, m, m) > 0.0
    ensures x == m ==> Term(x, x, m, m) == 0.0
  {
    hide Times;
    Square(x - m);
  }

  lemma {:induction false} SquaresAreNonNegative(xs: seq<real>, m: real)
    ensures Moment(xs, xs, m, m) >= 0.0
    ensures Moment(xs, xs, m, m) == 0.0 <==> forall i :: 0 <= i < |xs| ==> xs[i] == m
  {
    hide Term;
    if xs != [] {
      SquaresAreNonNegative(xs[1..], m);
      SquareTerm(xs[0], m);
      assert (forall i :: 0 <= i < |xs| ==> xs[i] == m) <==>
             xs[0] == m && forall i :: 0 <= i < |xs[1..]| ==> xs[1..][i] == m by {
        assert forall i :: 1 <= i < |xs| ==> xs[i] == xs[1..][i - 1];
      }
    }
  }

  /** The slope is refused exactly when all times coincide. */
  lemma SlopeUndefinedIffTimesCoincide(xs: seq<real>, ys: seq<real>)
    requires |xs| == |ys| > 0
    ensures LeastSquares(xs, ys).None? <==> forall i, j :: 0 <= i < j < |xs| ==> xs[i] == xs[j]
  {
    SquaresAreNonNegative(xs, Mean(xs));
    if forall i, j :: 0 <= i < j < |xs| ==> xs[i] == xs[j] {
      ConstantSum(xs, xs[0]);
      var n := |xs| as real;
      assert xs[0] * n / n == xs[0];
    }
  }

  lemma {:induction false} ConstantSum(xs: seq<real>, x: real)
    requires forall i :: 0 <= i < |xs| ==> xs[i] == x
    ensures Sum(xs) == x * |xs| as real
  {
    if xs != [] {
      ConstantSum(xs[1..], x);
    }
  }

  // ----- the slope is that of the line of least squares -----

  function Deviation(x: real, y: real, a: real, b: real): real {
    y - a - Times(b, x)
  }

  /** The summed squared distance of the values from the line `a + b x`. */
  function SquaredError(xs: seq<real>, ys: seq<real>, a: real, b: real): real
    requires |xs| == |ys|
  {
    if xs == [] then 0.0
    else Times(Deviation(xs[0], ys[0], a, b), Deviation(xs[0], ys[0], a, b)) + SquaredError(xs[1..], ys[1..], a, b)
  }

  /** The squared error around any centre `(p, q)`, with `c` the line's distance from the centre. */
  function Expanded(xx: real, xy: real, yy: real, dx: real, dy: real, n: real, b: real, c: real): real {
    yy + b * b * xx + n * (c * c) - 2.0 * b * xy + 2.0 * c * dy - 2.0 * b * c * dx
  }

  lemma ExpandedTerm(x: real, y: real, p: real, q: real, a: real, b: real, c: real)
    requires c == q - a - Times(b, p)
    ensures Times(Deviation(x, y, a, b), Deviation(x, y, a, b)) ==
            Expanded(Term(x, x, p, p), Term(x, y, p, q), Term(y, y, q, q), x - p, y - q, 1.0, b, c)
  {
    var u, v := x - p, y - q;
    assert b * x == b * p + b * u by { Distribute(b, p, u); }
    assert Deviation(x, y, a, b) == v - b * u + c;
    SquareOfThree(u, v, b, c);
  }

  lemma SquareOfThree(u: real, v: real, b: real, c: real)
    ensures (v - b * u + c) * (v - b * u + c) ==
            v * v + b * b * (u * u) + 1.0 * (c * c) - 2.0 * b * (u * v) + 2.0 * c * v - 2.0 * b * c * u
  {
  }

  lemma ExpandedSum(xx: real, xy: real, yy: real, dx: real, dy: real, n: real,
                    xx': real, xy': real, yy': real, dx': real, dy': real, n': real, b: real, c: real)
    ensures Expanded(xx, xy, yy, dx, dy, n, b, c) + Expanded(xx', xy', yy', dx', dy', n', b, c) ==
            Expanded(xx + xx', xy + xy', yy + yy', dx + dx', dy + dy', n + n', b, c)
  {
    Distribute(b * b, xx, xx');
    Distribute(c * c, n, n');
    Distribute(2.0 * b, xy, xy');
    Distribute(2.0 * c, dy, dy');
    Distribute(2.0 * b * c, dx, dx');
  }

  function Offset(xs: seq<real>, p: real): real {
    if xs == [] then 0.0 else xs[0] - p + Offset(xs[1..], p)
  }

  lemma {:induction false} OffsetIsSum(xs: seq<real>, p: real)
    ensures Offset(xs, p) == Sum(xs) - p * |xs| as real
  {
    if xs != [] {
      OffsetIsSum(xs[1..], p);
      OneMore(p, |xs[1..]|);
    }
  }

  lemma {:induction false} ErrorExpanded(xs: seq<real>, ys: seq<real>, p: real, q: real, a: real, b: real, c: real)
    requires |xs| == |ys| && c == q - a - Times(b, p)
    ensures SquaredError(xs, ys, a, b) ==
            Expanded(Moment(xs, xs, p, p), Moment(xs, ys, p, q), Moment(ys, ys, q, q),
                     Offset(xs, p), Offset(ys, q), |xs| as real, b, c)
  {
    if xs == [] {
    } else {
      hide Expanded, Term, Deviation, Times;
      ErrorExpanded(xs[1..], ys[1..], p, q, a, b, c);
      ExpandedTerm(xs[0], ys[0], p, q, a, b, c);
      ExpandedSum(Term(xs[0], xs[0], p, p), Term(xs[0], ys[0], p, q), Term(ys[0], ys[0], q, q), xs[0] - p, ys[0] - q, 1.0,
                  Moment(xs[1..], xs[1..], p, p), Moment(xs[1..], ys[1..], p, q), Moment(ys[1..], ys[1..], q, q),
                  Offset(xs[1..], p), Offset(ys[1..], q), |xs[1..]| as real, b, c);
    }
  }

  lemma OffsetFromMean(xs: seq<real>)
    requires xs != []
    ensures Offset(xs, Mean(xs)) == 0.0
  {
    OffsetIsSum(xs, Mean(xs));
    var n := |xs| as real;
    assert Sum(xs) / n * n == Sum(xs);
  }

  /** Around the means the error is a constant plus two squares: completing the square. */
  lemma CompleteTheSquare(xx: real, xy: real, yy: real, n: real, b: real, c: real, slope: real)
    requires xx > 0.0 && n >= 0.0 && xy == slope * xx
    ensures Expanded(xx, xy, yy, 0.0, 0.0, n, slope, 0.0) <= Expanded(xx, xy, yy, 0.0, 0.0, n, b, c)
  {
    var d := b - slope;
    assert b * b * xx - 2.0 * b * (slope * xx) - (slope * slope * xx - 2.0 * slope * (slope * xx)) == d * d * xx;
    assert d * d >= 0.0;
    assert d * d * xx >= 0.0;
    assert c * c >= 0.0;
    assert n * (c * c) >= 0.0;
  }

  /** No line fits better: the trend is the slope of a line through the means whose squared error
      is at most that of any line. */
  lemma TrendIsOfTheBestLine(xs: seq<real>, ys: seq<real>, a: real, b: real)
    requires |xs| == |ys| > 0 && LeastSquares(xs, ys).Some?
    ensures var slope := LeastSquares(xs, ys).value;
            SquaredError(xs, ys, Mean(ys) - Times(slope, Mean(xs)), slope) <= SquaredError(xs, ys, a, b)
  {
    hide SquaredError, Moment, Mean, Expanded, Offset;
    var slope, mx, my := LeastSquares(xs, ys).value, Mean(xs), Mean(ys);
    var xx, xy, yy := Moment(xs, xs, mx, mx), Moment(xs, ys, mx, my), Moment(ys, ys, my, my);
    assert xy == slope * xx by { Quotient(xy, xx); }
    OffsetFromMean(xs);
    OffsetFromMean(ys);
    ErrorExpanded(xs, ys, mx, my, a, b, my - a - Times(b, mx));
    ErrorExpanded(xs, ys, mx, my, my - Times(slope, mx), slope, 0.0);
    CompleteTheSquare(xx, xy, yy, |xs| as real, b, my - a - Times(b, mx), slope);
  }

  lemma Quotient(a: real, b: real)
    requires b > 0.0
    ensures a / b * b == a
  {
  }

  // ----- the slope lies between the extreme interval rates -----

  /** From `(x, y)` to `(x', y')` the value rises at most `rate` times the elapsed time. */
  ghost predicate Rises(x: real, y: real, x': real, y': real, rate: real) {
    y' - y <= rate * (x' - x)
  }

  ghost predicate RisesAtMost(xs: seq<real>, ys: seq<real>, rate: real)
    requires |xs| == |ys|
  {
    forall i, j :: 0 <= i <= j < |xs| ==> Rises(xs[i], ys[i], xs[j], ys[j], rate)
  }

  lemma RisesChain(x: real, y: real, x': real, y': real, x'': real, y'': real, rate: real)
    requires Rises(x, y, x', y', rate) && Rises(x', y', x'', y'', rate)
    ensures Rises(x, y, x'', y'', rate)
  {
    Distribute(rate, x' - x, x'' - x');
  }

  lemma RisesNowhere(x: real, y: real, rate: real)
    ensures Rises(x, y, x, y, rate)
  {
    assert x - x == 0.0;
  }

  /** Enough to know it of neighbouring samples. */
  lemma {:induction false} NeighboursSuffice(xs: seq<real>, ys: seq<real>, rate: real, i: nat, j: nat)
    requires |xs| == |ys| && i <= j < |xs|
    requires forall k :: 0 <= k < |xs| - 1 ==> Rises(xs[k], ys[k], xs[k + 1], ys[k + 1], rate)
    ensures Rises(xs[i], ys[i], xs[j], ys[j], rate)
    decreases j - i
  {
    hide Rises;
    if i == j {
      RisesNowhere(xs[i], ys[i], rate);
    } else {
      NeighboursSuffice(xs, ys, rate, i, j - 1);
      var k := j - 1;
      assert Rises(xs[k], ys[k], xs[k + 1], ys[k + 1], rate);
      RisesChain(xs[i], ys[i], xs[k], ys[k], xs[j], ys[j], rate);
    }
  }

  lemma ShiftTerm(x: real, y: real, mx: real, a: real, b: real, rest: real)
    ensures Term(x, y, mx, a) + (b - a) * rest == Term(x, y, mx, b) + (b - a) * (x - mx + rest)
  {
    Distribute(b - a, x - mx, rest);
    assert (x - mx) * (y - a) == (x - mx) * ((y - b) + (b - a));
    Distribute(x - mx, y - b, b - a);
  }

  lemma {:induction false} MomentShift(xs: seq<real>, ys: seq<real>, mx: real, a: real, b: real)
    requires |xs| == |ys|
    ensures Moment(xs, ys, mx, a) == Moment(xs, ys, mx, b) + (b - a) * (Sum(xs) - mx * |xs| as real)
  {
    hide Term;
    if xs != [] {
      MomentShift(xs[1..], ys[1..], mx, a, b);
      ShiftTerm(xs[0], ys[0], mx, a, b, Sum(xs[1..]) - mx * |xs[1..]| as real);
      OneMore(mx, |xs[1..]|);
    }
  }

  lemma OneMore(mx: real, n: nat)
    ensures mx * (n + 1) as real == mx + mx * n as real
  {
    Distribute(mx, 1.0, n as real);
  }

  lemma Distribute(a: real, b: real, c: real)
    ensures a * (b + c) == a * b + a * c
  {
  }

  /** Around the mean of the times, the centre chosen for the values does not matter. */
  lemma CentreDoesNotMatter(xs: seq<real>, ys: seq<real>, a: real, b: real)
    requires |xs| == |ys| > 0
    ensures Moment(xs, ys, Mean(xs), a) == Moment(xs, ys, Mean(xs), b)
  {
    MomentShift(xs, ys, Mean(xs), a, b);
    var n := |xs| as real;
    assert Sum(xs) / n * n == Sum(xs);
  }

  lemma TimesSum(a: real, b: real, c: real)
    ensures Times(a, b + c) == Times(a, b) + Times(a, c)
    ensures Times(a, 0.0) == 0.0
  {
    Distribute(a, b, c);
  }

  ghost predicate TermAtMost(x: real, y: real, mx: real, c: real, d: real, rate: real) {
    Term(x, y, mx, d) <= Times(rate, Term(x, x, mx, c))
  }

  lemma {:induction false} MomentTermwise(xs: seq<real>, ys: seq<real>, mx: real, c: real, d: real, rate: real)
    requires |xs| == |ys|
    requires forall i :: 0 <= i < |xs| ==> TermAtMost(xs[i], ys[i], mx, c, d, rate)
    ensures Moment(xs, ys, mx, d) <= Times(rate, Moment(xs, xs, mx, c))
  {
    hide Term, Times;
    if xs == [] {
      TimesSum(rate, 0.0, 0.0);
    } else {
      assert TermAtMost(xs[0], ys[0], mx, c, d, rate);
      TailsTermwise(xs, ys, mx, c, d, rate);
      MomentTermwise(xs[1..], ys[1..], mx, c, d, rate);
      TimesSum(rate, Term(xs[0], xs[0], mx, c), Moment(xs[1..], xs[1..], mx, c));
    }
  }

  lemma TailsTermwise(xs: seq<real>, ys: seq<real>, mx: real, c: real, d: real, rate: real)
    requires |xs| == |ys| > 0
    requires forall i :: 0 <= i < |xs| ==> TermAtMost(xs[i], ys[i], mx, c, d, rate)
    ensures forall i :: 0 <= i < |xs[1..]| ==> TermAtMost(xs[1..][i], ys[1..][i], mx, c, d, rate)
  {
    hide TermAtMost;
    assert forall i :: 0 <= i < |xs[1..]| ==> xs[1..][i] == xs[i + 1] && ys[1..][i] == ys[i + 1];
  }

  /** The last time at or below `m`, or the first when there is none. */
  function Pivot(xs: seq<real>, m: real): (p: nat)
    requires xs != []
    ensures p < |xs|
    ensures xs[p] <= m || p == 0
    ensures forall i :: p < i < |xs| ==> xs[i] > m
  {
    var k := |xs| - 1;
    if k == 0 || xs[k] <= m then k else Pivot(xs[..k], m)
  }

  /** Each term is bounded, because the deviation changes sign at the pivot. */
  lemma PivotTerm(x: real, y: real, mx: real, xp: real, yp: real, rate: real)
    requires (x >= mx && Rises(xp, yp, x, y, rate)) || (x <= mx && Rises(x, y, xp, yp, rate)) || (x == xp && y == yp)
    ensures TermAtMost(x, y, mx, xp, yp, rate)
  {
    var slack := rate * (x - xp) - (y - yp);
    assert rate * ((x - mx) * (x - xp)) == (x - mx) * (rate * (x - xp));
    assert (x - mx) * (rate * (x - xp)) - (x - mx) * (y - yp) == (x - mx) * slack;
    if x == xp && y == yp {
      assert slack == 0.0;
    } else if x >= mx && y - yp <= rate * (x - xp) {
      assert slack >= 0.0;
      assert (x - mx) * slack >= 0.0;
    } else {
      assert rate * (xp - x) == -(rate * (x - xp));
      assert slack <= 0.0;
      assert (mx - x) * (0.0 - slack) >= 0.0;
      assert (x - mx) * slack == (mx - x) * (0.0 - slack);
    }
  }

  lemma MomentAtMost(xs: seq<real>, ys: seq<real>, rate: real)
    requires |xs| == |ys| > 0 && StrictlyIncreasing(xs) && RisesAtMost(xs, ys, rate)
    ensures Moment(xs, ys, Mean(xs), Mean(ys)) <= Times(rate, Moment(xs, xs, Mean(xs), Mean(xs)))
  {
    hide TermAtMost, Moment, Mean, Rises, Times;
    var mx := Mean(xs);
    var p := Pivot(xs, mx);
    forall i | 0 <= i < |xs| ensures TermAtMost(xs[i], ys[i], mx, xs[p], ys[p], rate) {
      PivotTerm(xs[i], ys[i], mx, xs[p], ys[p], rate);
    }
    MomentTermwise(xs, ys, mx, xs[p], ys[p], rate);
    CentreDoesNotMatter(xs, ys, Mean(ys), ys[p]);
    CentreDoesNotMatter(xs, xs, Mean(xs), xs[p]);
  }

  lemma QuotientAtMost(n: real, d: real, rate: real)
    requires d > 0.0 && n <= rate * d
    ensures n / d <= rate
  {
    assert n / d * d == n;
    assert (n / d - rate) * d == n - rate * d;
  }

  lemma DefinedWhenIncreasing(xs: seq<real>, ys: seq<real>)
    requires |xs| == |ys| >= 2 && StrictlyIncreasing(xs)
    ensures LeastSquares(xs, ys).Some?
  {
    SlopeUndefinedIffTimesCoincide(xs, ys);
    assert xs[0] < xs[1];
  }

  /** If no interval rises faster than `rate`, neither does the fitted trend. */
  lemma TrendAtMost(xs: seq<real>, ys: seq<real>, rate: real)
    requires |xs| == |ys| >= 2 && StrictlyIncreasing(xs)
    requires forall k :: 0 <= k < |xs| - 1 ==> Rises(xs[k], ys[k], xs[k + 1], ys[k + 1], rate)
    ensures LeastSquares(xs, ys).Some? && LeastSquares(xs, ys).value <= rate
  {
    hide Moment, Mean, Rises;
    forall i, j | 0 <= i <= j < |xs| ensures Rises(xs[i], ys[i], xs[j], ys[j], rate) {
      NeighboursSuffice(xs, ys, rate, i, j);
    }
    DefinedWhenIncreasing(xs, ys);
    MomentAtMost(xs, ys, rate);
    QuotientAtMost(Moment(xs, ys, Mean(xs), Mean(ys)), Moment(xs, xs, Mean(xs), Mean(xs)), rate);
  }

  function Negated(ys: seq<real>): seq<real> {
    seq(|ys|, i requires 0 <= i < |ys| => -ys[i])
  }

  lemma NegatedTerm(x: real, y: real, mx: real, my: real)
    ensures Term(x, -y, mx, -my) == -Term(x, y, mx, my)
  {
  }

  lemma {:induction false} NegatedMoment(xs: seq<real>, ys: seq<real>, mx: real, my: real)
    requires |xs| == |ys|
    ensures Moment(xs, Negated(ys), mx, -my) == -Moment(xs, ys, mx, my)
    ensures Sum(Negated(ys)) == -Sum(ys)
  {
    hide Term;
    if xs != [] {
      NegatedMoment(xs[1..], ys[1..], mx, my);
      assert Negated(ys)[1..] == Negated(ys[1..]);
      NegatedTerm(xs[0], ys[0], mx, my);
    }
  }

  lemma NegatedRise(x: real, y: real, x': real, y': real, rate: real)
    requires Rises(x', y', x, y, rate)
    ensures Rises(x, -y, x', -y', -rate)
  {
    assert -rate * (x' - x) == rate * (x - x');
  }

  /** If every interval rises at least at `rate`, so does the fitted trend. */
  lemma TrendAtLeast(xs: seq<real>, ys: seq<real>, rate: real)
    requires |xs| == |ys| >= 2 && StrictlyIncreasing(xs)
    requires forall k :: 0 <= k < |xs| - 1 ==> Rises(xs[k + 1], ys[k + 1], xs[k], ys[k], rate)
    ensures LeastSquares(xs, ys).Some? && LeastSquares(xs, ys).value >= rate
  {
    hide Rises, Moment, Sum;
    var ns := Negated(ys);
    forall k | 0 <= k < |xs| - 1 ensures Rises(xs[k], ns[k], xs[k + 1], ns[k + 1], -rate) {
      NegatedRise(xs[k], ys[k], xs[k + 1], ys[k + 1], rate);
    }
    TrendAtMost(xs, ns, -rate);
    DefinedWhenIncreasing(xs, ys);
    NegatedMoment(xs, ys, Mean(xs), Mean(ys));
    NegatedQuotient(Sum(ys), |ys| as real);
    assert Mean(ns) == -Mean(ys);
    NegatedQuotient(Moment(xs, ys, Mean(xs), Mean(ys)), Moment(xs, xs, Mean(xs), Mean(xs)));
  }

  lemma NegatedQuotient(a: real, b: real)
    requires b > 0.0
    ensures (-a) / b == -(a / b)
  {
  }

  /** On affine data the trend is the slope itself. */
  lemma TrendIsExactOnAffineData(xs: seq<real>, ys: seq<real>, offset: real, rate: real)
    requires |xs| == |ys| >= 2 && StrictlyIncreasing(xs)
    requires forall i :: 0 <= i < |xs| ==> ys[i] == offset + rate * xs[i]
    ensures LeastSquares(xs, ys) == Some(rate)
  {
    forall k | 0 <= k < |xs| - 1
      ensures Rises(xs[k], ys[k], xs[k + 1], ys[k + 1], rate) && Rises(xs[k + 1], ys[k + 1], xs[k], ys[k], rate)
    {
      Distribute(rate, xs[k + 1], -xs[k]);
    }
    TrendAtMost(xs, ys, rate);
    TrendAtLeast(xs, ys, rate);
  }
}
