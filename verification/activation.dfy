/** The activation helpers: the forward finite difference, the logistic
    sigmoid and the unit step.  Real numbers stand for doubles, and exp is
    not computed: it is any strictly positive function, passed in. */
module Activation {
  import opened Constants

  /** A stand-in for exp: only its positivity is known. */
  type Exp = f: real -> real | forall x :: f(x) > 0.0 ghost witness (x: real) => 1.0

  /** Forward finite difference (f(x + Esp) - f(x)) / Esp: an estimate of
      the derivative of f at x, not the derivative itself. */
  function Differential(f: real -> real, x: real): (r: real)
    ensures r * Esp == f(x + Esp) - f(x)
  {
    (f(x + Esp) - f(x)) / Esp
  }

  /** The logistic function 1 / (1 + exp(-DegreeFunction * x)). */
  function Sigmoid(exp: Exp, x: real): (r: real)
    ensures 0.0 < r < 1.0
  {
    var d := 1.0 + exp(DegreeFunction * -x);
    assert d > 1.0;
    1.0 / d
  }

  /** The sigmoid for a given exp, as a function of one argument. */
  function SigmoidOf(exp: Exp): real -> real
  {
    x => Sigmoid(exp, x)
  }

  /** Unit step at ThresholdSingleJump. */
  function SingleJump(x: real): (r: real)
    ensures r == 0.0 || r == 1.0
    ensures r == 1.0 <==> x >= ThresholdSingleJump
  {
    if x >= ThresholdSingleJump then 1.0 else 0.0
  }

  /** The difference quotient of a constant function vanishes. */
  lemma DifferentialOfConstant(f: real -> real, c: real, x: real)
    requires forall y :: f(y) == c
    ensures Differential(f, x) == 0.0
  {
    assert f(x + Esp) == c && f(x) == c;
  }

  /** On an affine function the forward difference is exact: it yields the slope. */
  lemma DifferentialOfAffine(f: real -> real, a: real, b: real, x: real)
    requires forall y :: f(y) == a * y + b
    ensures Differential(f, x) == a
  {
    var d := Differential(f, x);
    assert f(x + Esp) - f(x) == a * Esp by {
      assert f(x + Esp) == a * (x + Esp) + b;
      assert f(x) == a * x + b;
    }
    assert d * Esp == a * Esp;
  }

  /** The forward difference of a non-decreasing function is never negative. */
  lemma DifferentialOfMonotone(f: real -> real, x: real)
    requires Increasing(f)
    ensures Differential(f, x) >= 0.0
  {
    assert f(x) <= f(x + Esp);
  }

  /** With an increasing exp (as the real one is), the sigmoid is non-decreasing. */
  lemma SigmoidMonotone(exp: Exp, x: real, y: real)
    requires Increasing(exp)
    requires x <= y
    ensures Sigmoid(exp, x) <= Sigmoid(exp, y)
  {
    ExpAntitone(exp, x, y);
    SigmoidCompare(exp, x, y);
  }

  ghost predicate Increasing(f: real -> real)
  {
    forall u, v :: u <= v ==> f(u) <= f(v)
  }

  lemma ExpAntitone(exp: Exp, x: real, y: real)
    requires Increasing(exp)
    requires x <= y
    ensures exp(DegreeFunction * -y) <= exp(DegreeFunction * -x)
  {
    assert DegreeFunction * -y <= DegreeFunction * -x;
  }

  lemma SigmoidCompare(exp: Exp, x: real, y: real)
    requires exp(DegreeFunction * -y) <= exp(DegreeFunction * -x)
    ensures Sigmoid(exp, x) <= Sigmoid(exp, y)
  {
    ReciprocalAntitone(exp(DegreeFunction * -x), exp(DegreeFunction * -y));
  }

  lemma ReciprocalAntitone(ex: real, ey: real)
    requires 0.0 < ey <= ex
    ensures 1.0 / (1.0 + ex) <= 1.0 / (1.0 + ey)
  {
  }

  /** The step never decreases as its argument grows. */
  lemma SingleJumpMonotone(x: real, y: real)
    requires x <= y
    ensures SingleJump(x) <= SingleJump(y)
  {
  }
}
