/** Bounded-denominator rational approximation by continued fractions
    (src/support/cf.go).

    `Expand(a, b, e, f, max)` is `continuedFraction`: it expands a/b one
    Euclid step per level, carrying the denominators e = q(k-1) and
    f = q(k-2) of the two previous convergents, and stops when the next
    convergent's denominator f + term*e would exceed `max`, answering with
    the sentinel 1/0 that the parent turns back into its own convergent.
    Go's uint64 values are modelled as unbounded naturals. */
module ContinuedFraction {
  import opened Base

  /** The pair (c, d) returned by the source: the fraction c/d, or the
      sentinel 1/0 ("one level too deep"). */
  datatype Ratio = Ratio(num: nat, den: nat)

  /** The denominator `f + term*e` of the convergent that the current
      level would produce. */
  function NextDenominator(a: nat, b: nat, e: nat, f: nat): nat
    requires b > 0
  {
    f + (a / b) * e
  }

  /** `continuedFraction(a, b, e, f, max_denominator)`. The result is the
      sentinel exactly when the current term does not fit the bound; any
      other result has a positive denominator, and its value is at least 1
      whenever a/b is. */
  function Expand(a: nat, b: nat, e: nat, f: nat, maxDen: nat): (r: Ratio)
    requires b > 0
    ensures r.den == 0 <==> NextDenominator(a, b, e, f) > maxDen
    ensures r.den == 0 ==> r == Ratio(1, 0)
    ensures a >= b ==> r.num >= r.den
    decreases b
  {
    var term := a / b;
    var denom := f + term * e;
    if denom > maxDen then
      Ratio(1, 0)
    else
      var ax := a % b;  // a - term*b
      if ax == 0 then
        Ratio(term, 1)
      else
        // a/b = term + ax/b = term + 1/(cx/dx) = (term*cx + dx)/cx
        var child := Expand(b, ax, denom, e, maxDen);
        MulAtLeast(term, child.num);
        Ratio(term * child.num + child.den, child.num)
  }

  /** `NearestFraction(a, b, max_denominator)` without its floating-point
      error term: the top-level call with e = 0, f = 1. */
  function NearestFraction(a: nat, b: nat, maxDen: nat): (r: Ratio)
    requires b > 0
    ensures maxDen == 0 ==> r == Ratio(1, 0)
    ensures maxDen >= 1 ==> 1 <= r.den <= maxDen
  {
    DenominatorWithinBound(a, b, 0, 1, maxDen);
    Expand(a, b, 0, 1, maxDen)
  }

  // ---------------------------------------------------------------------
  // The two quantities that pass unchanged from a level to its parent.

  /** r.num*x + r.den*y. With a level's denominator accumulators (e, f) it
      is the denominator, seen from the top-level call, of that level's
      result r (at the top, e = 0 and f = 1, it is r.den itself); with the
      matching numerator accumulators it is the numerator. */
  function Lift(r: Ratio, x: nat, y: nat): nat
  {
    r.num * x + r.den * y
  }

  /** |a*d - b*c|: b*d times the approximation error |a/b - c/d|. */
  function Residual(a: nat, b: nat, r: Ratio): nat
  {
    if a * r.den >= b * r.num then a * r.den - b * r.num else b * r.num - a * r.den
  }

  /** Recombining a child's (cx, dx) into (term*cx + dx, cx) commutes with
      lifting through one more pair of accumulators. */
  lemma RecombineLift(term: nat, cx: nat, dx: nat, x: nat, y: nat)
    ensures Lift(Ratio(term * cx + dx, cx), x, y) == Lift(Ratio(cx, dx), y + term * x, x)
  {
    assert (term * cx + dx) * x == term * cx * x + dx * x;
    assert cx * (y + term * x) == cx * y + cx * term * x;
  }

  /** The same recombination leaves |a*d - b*c| unchanged when a = term*b + ax. */
  lemma RecombineResidual(a: nat, b: nat, term: nat, ax: nat, cx: nat, dx: nat)
    requires a == term * b + ax
    ensures Residual(a, b, Ratio(term * cx + dx, cx)) == Residual(b, ax, Ratio(cx, dx))
  {
    assert (term * b + ax) * cx == term * b * cx + ax * cx;
    assert b * (term * cx + dx) == b * term * cx + b * dx;
  }

  /** The recombination step of one level preserves both quantities. */
  lemma {:induction false} StepPreserves(a: nat, b: nat, e: nat, f: nat, maxDen: nat)
    requires b > 0
    requires NextDenominator(a, b, e, f) <= maxDen && a % b != 0
    ensures var child := Expand(b, a % b, NextDenominator(a, b, e, f), e, maxDen);
            var r := Expand(a, b, e, f, maxDen);
            && Lift(r, e, f) == Lift(child, NextDenominator(a, b, e, f), e)
            && Residual(a, b, r) == Residual(b, a % b, child)
  {
    var child := Expand(b, a % b, NextDenominator(a, b, e, f), e, maxDen);
    Unfold(a, b, e, f, maxDen);
    RecombineStep(a, b, e, f, child, Expand(a, b, e, f, maxDen));
  }

  /** Both recombination facts at once, for a parent r built from child
      with the term a / b. */
  lemma RecombineStep(a: nat, b: nat, e: nat, f: nat, child: Ratio, r: Ratio)
    requires b > 0
    requires r == Ratio((a / b) * child.num + child.den, child.num)
    ensures Lift(r, e, f) == Lift(child, f + (a / b) * e, e)
    ensures Residual(a, b, r) == Residual(b, a % b, child)
  {
    DivMod(a, b);
    RecombineLift(a / b, child.num, child.den, e, f);
    RecombineResidual(a, b, a / b, a % b, child.num, child.den);
  }

  /** One recursive level of `Expand`, written out. */
  lemma Unfold(a: nat, b: nat, e: nat, f: nat, maxDen: nat)
    requires b > 0
    requires NextDenominator(a, b, e, f) <= maxDen && a % b != 0
    ensures var child := Expand(b, a % b, NextDenominator(a, b, e, f), e, maxDen);
            Expand(a, b, e, f, maxDen) == Ratio((a / b) * child.num + child.den, child.num)
  {
  }

  lemma DivMod(a: nat, b: nat)
    requires b > 0
    ensures a == (a / b) * b + a % b
  {
  }

  // ---------------------------------------------------------------------
  // Bounds.

  /** Whenever the current term fits, the convergent finally chosen has a
      top-level denominator within the bound. */
  lemma {:induction false} DenominatorWithinBound(a: nat, b: nat, e: nat, f: nat, maxDen: nat)
    requires b > 0
    ensures NextDenominator(a, b, e, f) <= maxDen ==> Lift(Expand(a, b, e, f, maxDen), e, f) <= maxDen
    decreases b
  {
    var denom := NextDenominator(a, b, e, f);
    if denom <= maxDen && a % b != 0 {
      StepPreserves(a, b, e, f, maxDen);
      var child := Expand(b, a % b, denom, e, maxDen);
      if child.den != 0 {
        DenominatorWithinBound(b, a % b, denom, e, maxDen);
      }
    }
  }

  /** Deeper levels only grow the top-level denominator. */
  lemma {:induction false} DenominatorAtLeastPrevious(a: nat, b: nat, e: nat, f: nat, maxDen: nat)
    requires b > 0
    requires e <= f || a >= b
    ensures Lift(Expand(a, b, e, f, maxDen), e, f) >= e
    decreases b
  {
    var term: nat, denom := a / b, NextDenominator(a, b, e, f);
    if a >= b {
      assert term >= 1;
      MulAtLeast(term, e);
    }
    assert denom >= e;
    if denom <= maxDen && a % b != 0 {
      StepPreserves(a, b, e, f, maxDen);
      DenominatorAtLeastPrevious(b, a % b, denom, e, maxDen);
    }
  }

  /** The residual never exceeds b: the sentinel's residual is b, and an
      inner level's residual is at most its own b = a mod b < b. */
  lemma {:induction false} ResidualAtMostDivisor(a: nat, b: nat, e: nat, f: nat, maxDen: nat)
    requires b > 0
    ensures Residual(a, b, Expand(a, b, e, f, maxDen)) <= b
    decreases b
  {
    if NextDenominator(a, b, e, f) <= maxDen && a % b != 0 {
      StepPreserves(a, b, e, f, maxDen);
      ResidualAtMostDivisor(b, a % b, NextDenominator(a, b, e, f), e, maxDen);
    }
  }

  // ---------------------------------------------------------------------
  // Exactness.

  /** Every convergent of a/b, down to the exact one, fits the bound. */
  predicate ExpansionFits(a: nat, b: nat, e: nat, f: nat, maxDen: nat)
    requires b > 0
    decreases b
  {
    && NextDenominator(a, b, e, f) <= maxDen
    && (a % b == 0 || ExpansionFits(b, a % b, NextDenominator(a, b, e, f), e, maxDen))
  }

  /** The result equals a/b exactly if and only if the whole expansion fits
      the bound. */
  lemma {:induction false} ExactIffExpansionFits(a: nat, b: nat, e: nat, f: nat, maxDen: nat)
    requires b > 0
    ensures Residual(a, b, Expand(a, b, e, f, maxDen)) == 0 <==> ExpansionFits(a, b, e, f, maxDen)
    decreases b
  {
    var denom := NextDenominator(a, b, e, f);
    if denom > maxDen {
      assert Residual(a, b, Ratio(1, 0)) == b;
    } else if a % b == 0 {
      assert a == (a / b) * b;
    } else {
      StepPreserves(a, b, e, f, maxDen);
      ExactIffExpansionFits(b, a % b, denom, e, maxDen);
    }
  }

  /** Top level: c*b == a*d exactly when every convergent fits. */
  lemma ExactWhenEveryConvergentFits(a: nat, b: nat, maxDen: nat)
    requires b > 0
    ensures var r := NearestFraction(a, b, maxDen);
            a * r.den == b * r.num <==> ExpansionFits(a, b, 0, 1, maxDen)
  {
    ExactIffExpansionFits(a, b, 0, 1, maxDen);
  }

  /** An exact quotient that fits is returned as (a/b, 1). */
  lemma ExactDivision(k: nat, n: nat, maxDen: nat)
    requires n > 0 && maxDen >= 1
    ensures NearestFraction(k * n, n, maxDen) == Ratio(k, 1)
  {
    ProductDivMod(k, n);
  }

  lemma ProductDivMod(k: nat, n: nat)
    requires n > 0
    ensures (k * n) / n == k && (k * n) % n == 0
  {
    var q, r := (k * n) / n, (k * n) % n;
    assert k * n == q * n + r && 0 <= r < n;
    assert (k - q) * n == r;
    if k > q {
      MulAtLeast(k - q, n);
    }
  }

  /** If even the first term does not fit, the answer is the sentinel. */
  lemma FirstTermTooDeep(a: nat, b: nat, e: nat, f: nat, maxDen: nat)
    requires b > 0 && f + (a / b) * e > maxDen
    ensures Expand(a, b, e, f, maxDen) == Ratio(1, 0)
  {
  }

  /** A child's sentinel makes the parent answer its own convergent
      (term, 1), i.e. the previous convergent seen from the top. */
  lemma SentinelFallsBack(a: nat, b: nat, e: nat, f: nat, maxDen: nat)
    requires b > 0
    requires NextDenominator(a, b, e, f) <= maxDen && a % b != 0
    requires NextDenominator(b, a % b, NextDenominator(a, b, e, f), e) > maxDen
    ensures Expand(a, b, e, f, maxDen) == Ratio(a / b, 1)
  {
  }

  // ---------------------------------------------------------------------
  // Raising the bound never makes the approximation worse.

  lemma {:induction false} WiderBoundNoWorse(a: nat, b: nat, e: nat, f: nat, m1: nat, m2: nat)
    requires b > 0 && m1 <= m2
    requires e <= f || a >= b
    ensures Lift(Expand(a, b, e, f, m1), e, f) <= Lift(Expand(a, b, e, f, m2), e, f)
    ensures Residual(a, b, Expand(a, b, e, f, m2)) <= Residual(a, b, Expand(a, b, e, f, m1))
    decreases b
  {
    var denom := NextDenominator(a, b, e, f);
    if denom > m2 {
    } else if denom > m1 {
      assert Expand(a, b, e, f, m1) == Ratio(1, 0);
      assert Residual(a, b, Ratio(1, 0)) == b;
      DenominatorAtLeastPrevious(a, b, e, f, m2);
      ResidualAtMostDivisor(a, b, e, f, m2);
    } else if a % b != 0 {
      StepPreserves(a, b, e, f, m1);
      StepPreserves(a, b, e, f, m2);
      WiderBoundNoWorse(b, a % b, denom, e, m1, m2);
    }
  }

  function Abs(x: real): real { if x < 0.0 then -x else x }

  /** |a/b - c/d| = |a*d - b*c| / (b*d). */
  lemma ErrorIsScaledResidual(a: nat, b: nat, r: Ratio)
    requires b > 0 && r.den > 0
    ensures Abs(a as real / b as real - r.num as real / r.den as real)
         == Residual(a, b, r) as real / (b * r.den) as real
  {
    var bd := (b * r.den) as real;
    assert bd == b as real * r.den as real;
    assert a as real / b as real == (a * r.den) as real / bd;
    assert r.num as real / r.den as real == (b * r.num) as real / bd;
    assert a as real / b as real - r.num as real / r.den as real
        == ((a * r.den) as real - (b * r.num) as real) / bd;
  }

  lemma DivideByLarger(x: real, x': real, y: real, y': real)
    requires 0.0 <= x' <= x && 0.0 < y <= y'
    ensures x' / y' <= x / y
  {
    assert x' / y' <= x / y' by {
      assert x / y' - x' / y' == (x - x') / y';
    }
    assert x / y' <= x / y by {
      assert x / y - x / y' == x * (y' - y) / (y * y');
    }
  }

  /** Raising `max_denominator` never increases |a/b - c/d| and never
      lowers the denominator: the π table 3/1, 22/7, 333/106, 355/113, ...
      is an instance. */
  lemma ErrorNonIncreasing(a: nat, b: nat, m1: nat, m2: nat)
    requires b > 0 && 1 <= m1 <= m2
    ensures var r1 := NearestFraction(a, b, m1);
            var r2 := NearestFraction(a, b, m2);
            && 1 <= r1.den <= r2.den
            && Abs(a as real / b as real - r2.num as real / r2.den as real)
               <= Abs(a as real / b as real - r1.num as real / r1.den as real)
  {
    WiderBoundNoWorse(a, b, 0, 1, m1, m2);
    SmallerResidualCloser(a, b, NearestFraction(a, b, m1), NearestFraction(a, b, m2));
  }

  /** A residual no larger over a denominator no smaller is an error no
      larger. */
  lemma SmallerResidualCloser(a: nat, b: nat, r1: Ratio, r2: Ratio)
    requires b > 0 && 1 <= r1.den <= r2.den
    requires Residual(a, b, r2) <= Residual(a, b, r1)
    ensures Abs(a as real / b as real - r2.num as real / r2.den as real)
         <= Abs(a as real / b as real - r1.num as real / r1.den as real)
  {
    ErrorIsScaledResidual(a, b, r1);
    ErrorIsScaledResidual(a, b, r2);
    MulMonotone(b, r1.den, r2.den);
    DivideByLarger(Residual(a, b, r1) as real, Residual(a, b, r2) as real,
                   (b * r1.den) as real, (b * r2.den) as real);
  }

  // ---------------------------------------------------------------------
  // An independent reference: the textbook forward recurrence
  // p(k) = term*p(k-1) + p(k-2), q(k) = term*q(k-1) + q(k-2).

  /** Walks the convergents front to back, carrying the last two, and
      answers the last one whose denominator fits. */
  function Convergents(a: nat, b: nat, p1: nat, q1: nat, p2: nat, q2: nat, maxDen: nat): Ratio
    requires b > 0
    decreases b
  {
    var term := a / b;
    var p := p2 + term * p1;
    var q := q2 + term * q1;
    if q > maxDen then Ratio(p1, q1)
    else if a % b == 0 then Ratio(p, q)
    else Convergents(b, a % b, p, q, p1, q1, maxDen)
  }

  lemma {:induction false} ExpandMatchesConvergents(a: nat, b: nat, e: nat, f: nat, maxDen: nat, p1: nat, p2: nat)
    requires b > 0
    ensures var r := Expand(a, b, e, f, maxDen);
            Convergents(a, b, p1, e, p2, f, maxDen)
              == Ratio(Lift(r, p1, p2), Lift(r, e, f))
    decreases b
  {
    var term: nat, denom := a / b, NextDenominator(a, b, e, f);
    if denom <= maxDen && a % b != 0 {
      var child := Expand(b, a % b, denom, e, maxDen);
      ExpandMatchesConvergents(b, a % b, denom, e, maxDen, p2 + term * p1, p1);
      ConvergentsUnfold(a, b, p1, e, p2, f, maxDen);
      Unfold(a, b, e, f, maxDen);
      LiftBothStep(term, child, p1, p2, e, f, Convergents(a, b, p1, e, p2, f, maxDen));
    }
  }

  /** The numerator and denominator lifts of a recombined child agree with
      the lifts of the child through one more level. */
  lemma LiftBothStep(term: nat, child: Ratio, p1: nat, p2: nat, e: nat, f: nat, conv: Ratio)
    requires conv == Ratio(Lift(child, p2 + term * p1, p1), Lift(child, f + term * e, e))
    ensures var r := Ratio(term * child.num + child.den, child.num);
            conv == Ratio(Lift(r, p1, p2), Lift(r, e, f))
  {
    RecombineLift(term, child.num, child.den, p1, p2);
    RecombineLift(term, child.num, child.den, e, f);
  }

  /** One step of the forward recurrence, written out. */
  lemma ConvergentsUnfold(a: nat, b: nat, p1: nat, q1: nat, p2: nat, q2: nat, maxDen: nat)
    requires b > 0
    requires NextDenominator(a, b, q1, q2) <= maxDen && a % b != 0
    ensures Convergents(a, b, p1, q1, p2, q2, maxDen)
         == Convergents(b, a % b, p2 + (a / b) * p1, NextDenominator(a, b, q1, q2), p1, q1, maxDen)
  {
  }

  /** The recursive back-out of `continuedFraction` computes exactly the
      last admissible convergent of the forward recurrence. */
  lemma NearestFractionIsLastConvergent(a: nat, b: nat, maxDen: nat)
    requires b > 0
    ensures NearestFraction(a, b, maxDen) == Convergents(a, b, 1, 0, 0, 1, maxDen)
  {
    ExpandMatchesConvergents(a, b, 0, 1, maxDen, 1, 0);
  }

  // ---------------------------------------------------------------------
  // Best approximation: among fractions whose denominator is at most the
  // answer's, none has a smaller |a*d - b*c|, and none is closer to a/b.

  function IntAbs(x: int): nat { if x < 0 then -x else x }

  /** The forward walk from the top-level fraction x/y has reached the
      remainders (a, b) with previous convergents p1/q1 and p2/q2: x/y is
      the continued fraction with these convergents and the complete
      quotient a/b, and the two convergents have determinant +-1. */
  ghost predicate WalkState(x: int, y: int, a: int, b: int, p1: int, q1: int, p2: int, q2: int)
  {
    && x == p1 * a + p2 * b
    && y == q1 * a + q2 * b
    && (p1 * q2 - p2 * q1 == 1 || p1 * q2 - p2 * q1 == -1)
  }

  /** The signed error x*q - y*p of the previous convergent is b times
      one sign, and that of the next convergent is (a mod b) times the
      other. */
  lemma ConvergentErrors(x: nat, y: nat, a: nat, b: nat, p1: nat, q1: nat, p2: nat, q2: nat)
    requires b > 0 && WalkState(x, y, a, b, p1, q1, p2, q2)
    ensures x * q1 - y * p1 == (p2 * q1 - p1 * q2) * b
    ensures x * (q2 + (a / b) * q1) - y * (p2 + (a / b) * p1) == (p1 * q2 - p2 * q1) * (a % b)
  {
    DivMod(a, b);
    ErrorsOfPair(x, y, a, b, p1, q1, p2, q2);
    NextError(x, y, a / b, p1, q1, p2, q2);
    ScaledRemainder(p1 * q2 - p2 * q1, a, b, a / b, a % b);
  }

  /** With (x, y) = a*(p1, q1) + b*(p2, q2), the errors of the two pairs. */
  lemma ErrorsOfPair(x: int, y: int, a: int, b: int, p1: int, q1: int, p2: int, q2: int)
    requires x == p1 * a + p2 * b && y == q1 * a + q2 * b
    ensures x * q1 - y * p1 == (p2 * q1 - p1 * q2) * b
    ensures x * q2 - y * p2 == (p1 * q2 - p2 * q1) * a
  {
  }

  /** The error of (p2 + t*p1, q2 + t*q1) is that of (p2, q2) plus t
      times that of (p1, q1). */
  lemma NextError(x: int, y: int, t: int, p1: int, q1: int, p2: int, q2: int)
    ensures x * (q2 + t * q1) - y * (p2 + t * p1) == (x * q2 - y * p2) + t * (x * q1 - y * p1)
  {
  }

  /** det*a - t*(det*b) = det*m when a = t*b + m. */
  lemma ScaledRemainder(det: int, a: int, b: int, t: int, m: int)
    requires a == t * b + m
    ensures det * a + t * ((-det) * b) == det * m
  {
  }

  /** One step of the forward recurrence keeps the walk state. */
  lemma WalkStep(x: nat, y: nat, a: nat, b: nat, p1: nat, q1: nat, p2: nat, q2: nat)
    requires b > 0 && WalkState(x, y, a, b, p1, q1, p2, q2)
    ensures WalkState(x, y, b, a % b, p2 + (a / b) * p1, q2 + (a / b) * q1, p1, q1)
  {
    DivMod(a, b);
    ShiftPair(x, a, b, a / b, a % b, p1, p2);
    ShiftPair(y, a, b, a / b, a % b, q1, q2);
    ShiftDeterminant(a / b, p1, q1, p2, q2);
  }

  /** x = p1*a + p2*b with a = t*b + m is x = (p2 + t*p1)*b + p1*m. */
  lemma ShiftPair(x: int, a: int, b: int, t: int, m: int, p1: int, p2: int)
    requires a == t * b + m && x == p1 * a + p2 * b
    ensures x == (p2 + t * p1) * b + p1 * m
  {
  }

  /** The step flips the sign of the determinant. */
  lemma ShiftDeterminant(t: int, p1: int, q1: int, p2: int, q2: int)
    ensures (p2 + t * p1) * q1 - p1 * (q2 + t * q1) == p2 * q1 - p1 * q2
  {
  }

  /** The coordinates of (c, d) in the basis (p, q), (p', q') of
      determinant +-1. */
  lemma Coordinates(p: int, q: int, p': int, q': int, c: int, d: int) returns (u: int, v: int)
    requires p * q' - p' * q == 1 || p * q' - p' * q == -1
    ensures u * p + v * p' == c && u * q + v * q' == d
  {
    var det := p * q' - p' * q;
    u, v := det * (c * q' - d * p'), det * (d * p - c * q);
    assert u * p + v * p' == det * (c * det);
    assert u * q + v * q' == det * (d * det);
  }

  /** x*d - y*c, for (c, d) = u*(p, q) + v*(p', q'), in terms of the two
      basis errors. */
  lemma ErrorInBasis(x: int, y: int, p: int, q: int, p': int, q': int, u: int, v: int)
    ensures x * (u * q + v * q') - y * (u * p + v * p')
         == u * (x * q - y * p) + v * (x * q' - y * p')
  {
  }

  /** A denominator d with 1 <= d < q' written as u*q + v*q' (q >= 1)
      either is a positive multiple of q or has coefficients of opposite
      signs. */
  lemma CoefficientSigns(q: int, q': int, u: int, v: int, d: int)
    requires 1 <= q && 1 <= d < q' && u * q + v * q' == d
    ensures (v == 0 && u >= 1) || (u > 0 && v < 0) || (u < 0 && v > 0)
  {
    ProductSign(u, q);
    ProductSign(v, q');
  }

  /** A product with a non-negative factor q is at least q away from zero
      in the direction of the other factor's sign. */
  lemma ProductSign(u: int, q: int)
    requires q >= 0
    ensures u > 0 ==> u * q >= q
    ensures u < 0 ==> u * q <= -q
    ensures u == 0 ==> u * q == 0
  {
    if u > 0 {
      MulAtLeast(u, q);
    } else if u < 0 {
      MulAtLeast(-u, q);
      assert u * q == -((-u) * q);
    }
  }

  /** Two terms whose signs agree add up to at least the first; with
      |u| >= 1 that is at least |e1|. */
  lemma SameSignSum(u: int, v: int, e1: int, e2: int)
    requires (v == 0 && u >= 1) || (u > 0 && v < 0) || (u < 0 && v > 0)
    requires e1 * e2 <= 0
    ensures IntAbs(u * e1 + v * e2) >= IntAbs(e1)
  {
    if e1 > 0 {
      ProductSign(e2, e1);
      ProductSign(u, e1);
      ProductSign(v, -e2);
    } else if e1 < 0 {
      ProductSign(e2, -e1);
      ProductSign(u, -e1);
      ProductSign(v, e2);
    }
  }

  /** The lattice argument: with a unimodular basis (p, q), (p', q')
      whose errors x*q - y*p and x*q' - y*p' have opposite signs, no
      (c, d) with 1 <= d < q' has a smaller error than (p, q). */
  lemma LatticeBound(x: int, y: int, p: int, q: int, p': int, q': int, c: int, d: int)
    requires p * q' - p' * q == 1 || p * q' - p' * q == -1
    requires 1 <= q && 1 <= d < q'
    requires (x * q - y * p) * (x * q' - y * p') <= 0
    ensures IntAbs(x * d - y * c) >= IntAbs(x * q - y * p)
  {
    var u, v := Coordinates(p, q, p', q', c, d);
    ErrorInBasis(x, y, p, q, p', q', u, v);
    CoefficientSigns(q, q', u, v, d);
    SameSignSum(u, v, x * q - y * p, x * q' - y * p');
  }

  /** The errors of the previous and the next convergent have opposite
      signs (or one is zero). */
  lemma ErrorsOppose(det: int, b: nat, m: nat)
    requires det == 1 || det == -1
    ensures ((-det) * b) * (det * m) <= 0
  {
    assert ((-det) * b) * (det * m) == -(b * m);
  }

  /** When the next convergent p/q no longer fits, the previous one
      p1/q1 is a best approximation for every denominator up to q1. */
  lemma PreviousConvergentBest(x: nat, y: nat, a: nat, b: nat, p1: nat, q1: nat, p2: nat, q2: nat, c: nat, d: nat)
    requires b > 0 && WalkState(x, y, a, b, p1, q1, p2, q2)
    requires 1 <= d <= q1 < q2 + (a / b) * q1
    ensures Residual(x, y, Ratio(c, d)) >= Residual(x, y, Ratio(p1, q1))
  {
    var p, q := p2 + (a / b) * p1, q2 + (a / b) * q1;
    ConvergentErrors(x, y, a, b, p1, q1, p2, q2);
    WalkStep(x, y, a, b, p1, q1, p2, q2);
    ErrorsOppose(p1 * q2 - p2 * q1, b, a % b);
    LatticeBound(x, y, p1, q1, p, q, c, d);
  }

  /** When a/b divides exactly, the next convergent is x/y itself. */
  lemma ExactConvergent(x: nat, y: nat, a: nat, b: nat, p1: nat, q1: nat, p2: nat, q2: nat)
    requires b > 0 && WalkState(x, y, a, b, p1, q1, p2, q2) && a % b == 0
    ensures Residual(x, y, Ratio(p2 + (a / b) * p1, q2 + (a / b) * q1)) == 0
  {
    ConvergentErrors(x, y, a, b, p1, q1, p2, q2);
  }

  /** A step of the walk that stays within the bound: the walk state
      moves on to the next convergent p/q, and the answer is unchanged. */
  lemma WalkOn(x: nat, y: nat, a: nat, b: nat, p1: nat, q1: nat, p2: nat, q2: nat, maxDen: nat) returns (p: nat)
    requires b > 0 && WalkState(x, y, a, b, p1, q1, p2, q2)
    requires NextDenominator(a, b, q1, q2) <= maxDen && a % b != 0
    ensures p == p2 + (a / b) * p1
    ensures WalkState(x, y, b, a % b, p, NextDenominator(a, b, q1, q2), p1, q1)
    ensures Convergents(a, b, p1, q1, p2, q2, maxDen)
         == Convergents(b, a % b, p, NextDenominator(a, b, q1, q2), p1, q1, maxDen)
  {
    p := NextDenominator(a, b, p1, p2);  // the numerators follow the same recurrence
    WalkStep(x, y, a, b, p1, q1, p2, q2);
    ConvergentsUnfold(a, b, p1, q1, p2, q2, maxDen);
  }

  /** The answer of the forward walk is a best approximation of x/y for
      every denominator up to its own. */
  lemma {:induction false} ConvergentsBest(x: nat, y: nat, a: nat, b: nat, p1: nat, q1: nat, p2: nat, q2: nat,
                                           maxDen: nat, c: nat, d: nat)
    requires b > 0 && WalkState(x, y, a, b, p1, q1, p2, q2) && q1 <= maxDen
    requires 1 <= d <= Convergents(a, b, p1, q1, p2, q2, maxDen).den
    ensures Residual(x, y, Ratio(c, d)) >= Residual(x, y, Convergents(a, b, p1, q1, p2, q2, maxDen))
    decreases b
  {
    var q := NextDenominator(a, b, q1, q2);
    if q > maxDen {
      PreviousConvergentBest(x, y, a, b, p1, q1, p2, q2, c, d);
    } else if a % b == 0 {
      ExactConvergent(x, y, a, b, p1, q1, p2, q2);
    } else {
      var p := WalkOn(x, y, a, b, p1, q1, p2, q2, maxDen);
      ConvergentsBest(x, y, b, a % b, p, q, p1, q1, maxDen, c, d);
    }
  }

  /** The convergents of a/b are its best rational approximations for
      their denominators: no c/d with 1 <= d <= r.den has a smaller
      |a*d - b*c|, so none is closer to a/b. */
  lemma NearestFractionIsBestForItsDenominator(a: nat, b: nat, maxDen: nat, c: nat, d: nat)
    requires b > 0
    requires 1 <= d <= NearestFraction(a, b, maxDen).den
    ensures var r := NearestFraction(a, b, maxDen);
            && Residual(a, b, Ratio(c, d)) >= Residual(a, b, r)
            && Residual(a, b, Ratio(c, d)) * r.den >= Residual(a, b, r) * d
            && Abs(a as real / b as real - r.num as real / r.den as real)
               <= Abs(a as real / b as real - c as real / d as real)
  {
    var r := NearestFraction(a, b, maxDen);
    NearestFractionIsLastConvergent(a, b, maxDen);
    ConvergentsBest(a, b, a, b, 1, 0, 0, 1, maxDen, c, d);
    CrossMultiplied(Residual(a, b, Ratio(c, d)), Residual(a, b, r), d, r.den);
    SmallerResidualCloser(a, b, Ratio(c, d), r);
  }

  lemma CrossMultiplied(x: nat, x': nat, d: nat, d': nat)
    requires x' <= x && d <= d'
    ensures x * d' >= x' * d
  {
    MulMonotone(x, d, d');
    MulMonotone(d, x', x);
  }

  // ---------------------------------------------------------------------
  // Worked examples, one recursion level per lemma (deepest first).

  lemma Level2301At97Depth5() ensures Expand(97, 5, 5, 3, 97) == Ratio(1, 0) {}
  lemma Level2301At97Depth4() ensures Expand(102, 97, 3, 2, 97) == Ratio(1, 1) { Level2301At97Depth5(); }
  lemma Level2301At97Depth3() ensures Expand(199, 102, 2, 1, 97) == Ratio(2, 1) { Level2301At97Depth4(); }
  lemma Level2301At97Depth2() ensures Expand(301, 199, 1, 1, 97) == Ratio(3, 2) { Level2301At97Depth3(); }
  lemma Level2301At97Depth1() ensures Expand(500, 301, 1, 0, 97) == Ratio(5, 3) { Level2301At97Depth2(); }

  /** 2301/500 with bound 97 answers 23/5, although 428/93 has a
      denominator within the bound and is strictly closer:
      |2301/500 - 428/93| = 7/46500 < 1/500 = |2301/500 - 23/5|.
      The answer is a convergent, not the best approximation within the
      bound that the doc comment of `NearestFraction` promises. */
  lemma ConvergentIsNotBestWithinBound()
    ensures NearestFraction(2301, 500, 97) == Ratio(23, 5)
    ensures 93 <= 97
         && Residual(2301, 500, Ratio(428, 93)) * 5 < Residual(2301, 500, Ratio(23, 5)) * 93
  {
    Level2301At97Depth1();
  }

  lemma LevelPiAt113Depth4() ensures Expand(882127948, 3014546, 113, 106, 113) == Ratio(1, 0) {}
  lemma LevelPiAt113Depth3() ensures Expand(885142494, 882127948, 106, 7, 113) == Ratio(1, 1) { LevelPiAt113Depth4(); }
  lemma LevelPiAt113Depth2() ensures Expand(14159265358, 885142494, 7, 1, 113) == Ratio(16, 1) { LevelPiAt113Depth3(); }
  lemma LevelPiAt113Depth1() ensures Expand(100000000000, 14159265358, 1, 0, 113) == Ratio(113, 16) { LevelPiAt113Depth2(); }

  /** 3.14159265358 with bound 113 answers 355/113: the denominator may
      equal the bound. */
  lemma PiAtBound113()
    ensures NearestFraction(314159265358, 100000000000, 113) == Ratio(355, 113)
  {
    LevelPiAt113Depth1();
  }
}
