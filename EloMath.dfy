/**
 * The arithmetic of the rating engine: the logistic Elo expectation, the
 * K-factor update and the weights that bias opponent sampling toward close
 * ratings. Ratings are reals; the source computes in IEEE doubles.
 */
module EloMath {

  /** Rating gain factor of every comparison. */
  const K: real := 32.0
  /** Rating of a model that has not been compared yet. */
  const DefaultElo: real := 1000.0
  /** Decay rate of the opponent-sampling weight per rating point of difference. */
  const ExpScalingFactor: real := 0.01

  /** f is positive everywhere. */
  ghost predicate Positive(f: real -> real)
  {
    forall x :: 0.0 < f(x)
  }

  /** f(-x) is the reciprocal of f(x). */
  ghost predicate Reciprocal(f: real -> real)
  {
    forall x, y :: x + y == 0.0 ==> f(x) * f(y) == 1.0
  }

  /** f is strictly increasing. */
  ghost predicate Increasing(f: real -> real)
  {
    forall x, y :: x < y ==> f(x) < f(y)
  }

  /** The shape shared by x => 10^x and x => e^x. */
  ghost predicate ExpLike(f: real -> real)
  {
    Positive(f) && Reciprocal(f) && Increasing(f)
  }

  /**
   * An exponential function: the source's 10 ** x and math.exp. The model is
   * proved for every function of this shape, so neither is given a definition.
   */
  type ExpFn = f: real -> real | ExpLike(f) witness ExpLikeWitness()

  /** Shows that ExpFn is inhabited; it plays no part in the model. */
  function ExpLikeWitness(): (f: real -> real)
    ensures ExpLike(f)
  {
    SurrogateIsPositive();
    SurrogateIsReciprocal();
    SurrogateIsIncreasing();
    Surrogate
  }

  function Surrogate(x: real): real
  {
    if 0.0 <= x then 1.0 + x else 1.0 / (1.0 - x)
  }

  lemma ReciprocalDecreasing(a: real, b: real)
    requires 0.0 < a < b
    ensures 0.0 < 1.0 / b < 1.0 / a
  {
    var p, q := 1.0 / a, 1.0 / b;
    assert p * a == 1.0 && q * b == 1.0;
    assert 0.0 < q;
    assert q * a < q * b;
    assert (p - q) * a == 1.0 - q * a;
  }

  lemma SurrogateIsPositive()
    ensures Positive(Surrogate)
  {
    forall x ensures 0.0 < Surrogate(x) {
      if x < 0.0 { ReciprocalDecreasing(1.0 - x, 2.0 - x); }
    }
  }

  lemma SurrogateIsReciprocal()
    ensures Reciprocal(Surrogate)
  {
    forall x, y | x + y == 0.0 ensures Surrogate(x) * Surrogate(y) == 1.0 {
      if x < 0.0 { assert Surrogate(y) == 1.0 - x; }
      else if y < 0.0 { assert Surrogate(x) == 1.0 - y; }
    }
  }

  lemma SurrogateIsIncreasing()
    ensures Increasing(Surrogate)
  {
    forall x, y | x < y ensures Surrogate(x) < Surrogate(y) {
      if y < 0.0 { ReciprocalDecreasing(1.0 - y, 1.0 - x); }
      else if x < 0.0 { ReciprocalDecreasing(1.0, 1.0 - x); }
    }
  }

  lemma ProductOfPositiveFactor(u: real, v: real)
    requires u * v == 0.0 && 0.0 < v
    ensures u == 0.0
  {
  }

  /** Every exponential maps zero to one. */
  lemma ExpOfZero(f: ExpFn)
    ensures f(0.0) == 1.0
  {
    var a := f(0.0);
    assert 0.0 < a && a * a == 1.0;
    ProductOfPositiveFactor(a - 1.0, a + 1.0);
  }

  /** 1 / (1 + b) and 1 / (1 + 1/b) add up to one. */
  lemma ReciprocalsSumToOne(a: real, b: real)
    requires 0.0 < a && 0.0 < b && a * b == 1.0
    ensures 1.0 / (1.0 + a) + 1.0 / (1.0 + b) == 1.0
  {
    assert 1.0 / (1.0 + b) == a / (a + 1.0) by {
      assert a * (1.0 + b) == a + 1.0;
    }
  }

  /**
   * Expected scores of the left and the right model, given their ratings:
   * the logistic curve with base 10 and scale 400.
   */
  function ExpectedScores(pow10: ExpFn, leftElo: real, rightElo: real): (e: (real, real))
    ensures 0.0 < e.0 < 1.0 && 0.0 < e.1 < 1.0
    ensures e.0 + e.1 == 1.0
    ensures leftElo == rightElo ==> e == (0.5, 0.5)
    ensures e.0 < e.1 <==> leftElo < rightElo
  {
    var a := pow10((rightElo - leftElo) / 400.0);
    var b := pow10((leftElo - rightElo) / 400.0);
    ReciprocalsSumToOne(a, b);
    ExpOfZero(pow10);
    if leftElo < rightElo then
      assert (leftElo - rightElo) / 400.0 < (rightElo - leftElo) / 400.0;
      ReciprocalDecreasing(1.0 + b, 1.0 + a);
      (1.0 / (1.0 + a), 1.0 / (1.0 + b))
    else if rightElo < leftElo then
      assert (rightElo - leftElo) / 400.0 < (leftElo - rightElo) / 400.0;
      ReciprocalDecreasing(1.0 + a, 1.0 + b);
      (1.0 / (1.0 + a), 1.0 / (1.0 + b))
    else
      (1.0 / (1.0 + a), 1.0 / (1.0 + b))
  }

  /** Swapping the two ratings swaps the two expected scores. */
  lemma ExpectedScoresSymmetric(pow10: ExpFn, leftElo: real, rightElo: real)
    ensures var e := ExpectedScores(pow10, leftElo, rightElo);
      ExpectedScores(pow10, rightElo, leftElo) == (e.1, e.0)
  {
  }

  /** The rating after one comparison: the old rating moves K times the surprise. */
  function NewElo(current: real, actual: real, expected: real): (r: real)
    ensures r > current <==> actual > expected
    ensures r == current <==> actual == expected
  {
    current + K * (actual - expected)
  }

  /**
   * Both new ratings after the left model scored leftScore and the right model
   * 1 - leftScore. The score is not range checked: the source only logs a
   * score outside [0, 1] and goes on with it.
   */
  function UpdatedElos(pow10: ExpFn, leftElo: real, rightElo: real, leftScore: real): (r: (real, real))
    ensures r.0 > leftElo <==> leftScore > ExpectedScores(pow10, leftElo, rightElo).0
    ensures r.1 > rightElo <==> 1.0 - leftScore > ExpectedScores(pow10, leftElo, rightElo).1
  {
    var (leftExpected, rightExpected) := ExpectedScores(pow10, leftElo, rightElo);
    (NewElo(leftElo, leftScore, leftExpected), NewElo(rightElo, 1.0 - leftScore, rightExpected))
  }

  /** The update is zero-sum, whatever the score, in range or not. */
  lemma UpdatedElosZeroSum(pow10: ExpFn, leftElo: real, rightElo: real, leftScore: real)
    ensures var r := UpdatedElos(pow10, leftElo, rightElo, leftScore);
      r.0 + r.1 == leftElo + rightElo
  {
    var e := ExpectedScores(pow10, leftElo, rightElo);
    assert K * (leftScore - e.0) + K * (1.0 - leftScore - e.1) == K * (1.0 - (e.0 + e.1));
  }

  /** A draw between equal ratings changes nothing; a win between equal ratings moves 16 points. */
  lemma UpdatedElosEqualRatings(pow10: ExpFn, elo: real, leftScore: real)
    ensures UpdatedElos(pow10, elo, elo, 0.5) == (elo, elo)
    ensures UpdatedElos(pow10, elo, elo, 1.0) == (elo + 16.0, elo - 16.0)
    ensures UpdatedElos(pow10, elo, elo, 0.0) == (elo - 16.0, elo + 16.0)
  {
    assert ExpectedScores(pow10, elo, elo) == (0.5, 0.5);
  }

  /** The winner of a decisive comparison gains rating and the loser loses it. */
  lemma UpdatedElosWinnerGains(pow10: ExpFn, leftElo: real, rightElo: real)
    ensures var r := UpdatedElos(pow10, leftElo, rightElo, 1.0);
      r.0 > leftElo && r.1 < rightElo
    ensures var r := UpdatedElos(pow10, leftElo, rightElo, 0.0);
      r.0 < leftElo && r.1 > rightElo
  {
    var e := ExpectedScores(pow10, leftElo, rightElo);
    assert e.0 < 1.0 && e.1 < 1.0 && 0.0 < e.0 && 0.0 < e.1;
  }

  /** Sampling weight of an opponent whose rating differs by eloDiff (nonzero). */
  function SamplingWeight(exp: ExpFn, eloDiff: real): (w: real)
    ensures 0.0 < w
  {
    exp(-ExpScalingFactor * eloDiff)
  }

  /** Among opponents with a nonzero rating difference, a closer rating weighs more. */
  lemma SamplingWeightFavoursCloser(exp: ExpFn, nearer: real, farther: real)
    requires nearer < farther
    ensures SamplingWeight(exp, nearer) > SamplingWeight(exp, farther)
  {
    assert -ExpScalingFactor * farther < -ExpScalingFactor * nearer;
  }

  /**
   * The weight list for random opponent sampling: zero where the rating
   * difference is zero, the exponential decay otherwise.
   */
  method SamplingWeights(exp: ExpFn, eloDiffs: seq<real>) returns (probs: seq<real>)
    ensures |probs| == |eloDiffs|
    ensures forall i :: 0 <= i < |eloDiffs| && eloDiffs[i] == 0.0 ==> probs[i] == 0.0
    ensures forall i :: 0 <= i < |eloDiffs| && eloDiffs[i] != 0.0 ==> probs[i] == SamplingWeight(exp, eloDiffs[i])
    ensures forall i :: 0 <= i < |eloDiffs| ==> (probs[i] == 0.0 <==> eloDiffs[i] == 0.0)
  {
    probs := [];
    for i := 0 to |eloDiffs|
      invariant |probs| == i
      invariant forall j :: 0 <= j < i ==> probs[j] == if eloDiffs[j] == 0.0 then 0.0 else SamplingWeight(exp, eloDiffs[j])
    {
      if eloDiffs[i] == 0.0 {
        probs := probs + [0.0];
      } else {
        probs := probs + [SamplingWeight(exp, eloDiffs[i])];
      }
    }
  }
}
