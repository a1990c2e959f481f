/** The arithmetic of the Aura rating (src/components/Aura.jsx): the
    Elo-style expected performance, the three-bucket outcome of an activity,
    the weighted gain and `Math.round`.

    Ratings are reals. `Math.pow(10, x)` is a parameter `pow` of which only
    the properties of 10^x the proofs need are assumed (`IsExp10`); the
    lemma `Exp10Witness` shows that functions with these properties exist. */
module Elo {
  import opened Wrappers

  /** The learning coefficient `K`. */
  const K: real := 32.0

  /** The rating used when the activity has no usable `averageElo`. */
  const DefaultRating: real := 1000.0

  /** What the proofs use of 10^x: positive, 1 at 0, reciprocal at
      opposite arguments, strictly increasing. */
  ghost predicate IsExp10(pow: real -> real) {
    (forall x :: pow(x) > 0.0)
    && pow(0.0) == 1.0
    && (forall x, y :: x + y == 0.0 ==> pow(x) * pow(y) == 1.0)
    && (forall x, y :: x < y ==> pow(x) < pow(y))
  }

  /** A function with the properties of `IsExp10`, so that they can be met. */
  function Exp10Like(x: real): real {
    if x >= 0.0 then 1.0 + x else 1.0 / (1.0 - x)
  }

  lemma Exp10Witness()
    ensures IsExp10(Exp10Like)
  {
    Exp10LikePositive();
    Exp10LikeReciprocals(Exp10Like);
    Exp10LikeMonotone();
  }

  lemma Exp10LikePositive()
    ensures forall x :: Exp10Like(x) > 0.0
  {
    forall x
      ensures Exp10Like(x) > 0.0
    {
      if x < 0.0 {
        Inverse(1.0 - x);
      }
    }
  }

  lemma Exp10LikeReciprocals(pow: real -> real)
    requires pow == Exp10Like
    ensures forall x, y :: x + y == 0.0 ==> pow(x) * pow(y) == 1.0
  {
    forall x, y | x + y == 0.0
      ensures pow(x) * pow(y) == 1.0
    {
      Exp10LikeReciprocal(x, y);
    }
  }

  lemma Exp10LikeMonotone()
    ensures forall x, y :: x < y ==> Exp10Like(x) < Exp10Like(y)
  {
    forall x, y | x < y
      ensures Exp10Like(x) < Exp10Like(y)
    {
      Exp10LikeIncreasing(x, y);
    }
  }

  lemma Exp10LikeReciprocal(x: real, y: real)
    requires x + y == 0.0
    ensures Exp10Like(x) * Exp10Like(y) == 1.0
  {
    if x < 0.0 {
      Inverse(1.0 + y);
    } else if y < 0.0 {
      Inverse(1.0 + x);
    }
  }

  lemma Inverse(a: real)
    requires a > 0.0
    ensures (1.0 / a) * a == 1.0 && a * (1.0 / a) == 1.0
  {
  }

  /** Division by a larger positive number gives less. */
  lemma InverseDecreasing(a: real, b: real)
    requires a > b > 0.0
    ensures 1.0 / a < 1.0 / b
  {
    var c, d := 1.0 / a, 1.0 / b;
    Inverse(a);
    Inverse(b);
    assert c > 0.0;
    assert c * a > c * b;
  }

  lemma Exp10LikeIncreasing(x: real, y: real)
    requires x < y
    ensures Exp10Like(x) < Exp10Like(y)
  {
    if y < 0.0 {
      InverseDecreasing(1.0 - x, 1.0 - y);
    } else if x < 0.0 {
      InverseDecreasing(1.0 - x, 1.0);
    }
  }

  /** `calculateExpectedPerformance(own, opp)`:
      `1 / (1 + 10^((opp - own) / 400))`. */
  function Expected(own: real, opp: real, pow: real -> real): real
    requires IsExp10(pow)
  {
    1.0 / (1.0 + pow((opp - own) / 400.0))
  }

  /** The expected performance is strictly between 0 and 1. */
  lemma ExpectedBounds(own: real, opp: real, pow: real -> real)
    requires IsExp10(pow)
    ensures 0.0 < Expected(own, opp, pow) < 1.0
  {
    var p := pow((opp - own) / 400.0);
    assert 1.0 + p > 1.0;
  }

  /** Equal ratings expect half. */
  lemma ExpectedEven(own: real, pow: real -> real)
    requires IsExp10(pow)
    ensures Expected(own, own, pow) == 0.5
  {
    assert (own - own) / 400.0 == 0.0;
  }

  /** The expected performance is below one half exactly when the own rating
      is below the opponent's, and above it exactly when it is above. */
  lemma ExpectedBelowHalf(own: real, opp: real, pow: real -> real)
    requires IsExp10(pow)
    ensures Expected(own, opp, pow) < 0.5 <==> own < opp
    ensures Expected(own, opp, pow) > 0.5 <==> own > opp
  {
    var d := (opp - own) / 400.0;
    var p := pow(d);
    if own < opp {
      assert 0.0 < d && pow(0.0) < p;
    } else if own > opp {
      assert d < 0.0 && p < pow(0.0);
    } else {
      ExpectedEven(own, pow);
    }
  }

  /** The two sides' expectations add up to one. */
  lemma ExpectedSymmetric(a: real, b: real, pow: real -> real)
    requires IsExp10(pow)
    ensures Expected(a, b, pow) + Expected(b, a, pow) == 1.0
  {
    var p := pow((b - a) / 400.0);
    var q := pow((a - b) / 400.0);
    assert (b - a) / 400.0 + (a - b) / 400.0 == 0.0;
    assert p * q == 1.0;
    assert 1.0 / (1.0 + q) == p / (p + 1.0) by {
      assert (1.0 + q) * p == p + 1.0;
    }
    assert 1.0 / (1.0 + p) + p / (p + 1.0) == 1.0;
  }

  // ---------------------------------------------------------------------
  // Outcome and gain

  datatype Activity = Quiz | Assignment | Attendance

  /** The weight of each kind of activity in the gain. */
  function Weight(a: Activity): real {
    match a
    case Quiz => 0.5
    case Assignment => 0.3
    case Attendance => 0.2
  }

  /** The outcome `R`: a score above 80 wins, 50 to 80 draws and below 50
      loses; attendance wins only at exactly 100 and draws at any other rate
      from 75 up, above 100 included. */
  function Outcome(a: Activity, score: real): (r: real)
    ensures r == 0.0 || r == 0.5 || r == 1.0
  {
    if a == Attendance then
      (if score == 100.0 then 1.0 else if score >= 75.0 then 0.5 else 0.0)
    else if score > 80.0 then 1.0
    else if score >= 50.0 then 0.5
    else 0.0
  }

  /** The buckets, stated from the score's side. */
  lemma OutcomeBuckets(a: Activity, score: real)
    ensures a != Attendance ==>
      (Outcome(a, score) == 1.0 <==> score > 80.0)
      && (Outcome(a, score) == 0.5 <==> 50.0 <= score <= 80.0)
      && (Outcome(a, score) == 0.0 <==> score < 50.0)
    ensures a == Attendance ==>
      (Outcome(a, score) == 1.0 <==> score == 100.0)
      && (Outcome(a, score) == 0.5 <==> score >= 75.0 && score != 100.0)
      && (Outcome(a, score) == 0.0 <==> score < 75.0)
  {
  }

  /** The raw gain `K * (weight * (R - E))`. */
  function Gain(a: Activity, r: real, e: real): real {
    K * (Weight(a) * (r - e))
  }

  /** The largest raw gain in absolute value is never reached: it lies
      strictly within 16, 9.6 and 6.4 of zero. */
  lemma GainBounds(a: Activity, own: real, opp: real, score: real, pow: real -> real)
    requires IsExp10(pow)
    ensures var g := Gain(a, Outcome(a, score), Expected(own, opp, pow));
      -K * Weight(a) < g < K * Weight(a)
  {
    ExpectedBounds(own, opp, pow);
  }

  /** A win always gains, a loss always loses, and a draw gains exactly when
      the own rating is below the reference. */
  lemma GainSign(a: Activity, own: real, opp: real, score: real, pow: real -> real)
    requires IsExp10(pow)
    ensures var g := Gain(a, Outcome(a, score), Expected(own, opp, pow));
      (Outcome(a, score) == 1.0 ==> g > 0.0)
      && (Outcome(a, score) == 0.0 ==> g < 0.0)
      && (Outcome(a, score) == 0.5 ==> (g > 0.0 <==> own < opp))
  {
    ExpectedBounds(own, opp, pow);
    ExpectedBelowHalf(own, opp, pow);
  }

  // ---------------------------------------------------------------------
  // Rounding and the stored values

  /** `Math.round(x)`: halves round up. */
  function Round(x: real): (n: int)
    ensures n as real - 0.5 <= x < n as real + 0.5
  {
    (x + 0.5).Floor
  }

  /** Rounding commutes with adding an integer. */
  lemma RoundShift(n: int, x: real)
    ensures Round(n as real + x) == n + Round(x)
  {
    assert (n as real + x + 0.5).Floor == n + (x + 0.5).Floor;
  }

  /** `averageElo || 1000`: a missing or zero `averageElo` gives 1000. */
  function ReferenceRating(averageElo: Option<real>): real {
    if averageElo.None? || averageElo.value == 0.0 then DefaultRating else averageElo.value
  }

  /** The bound on the logged gain of each kind. */
  function MaxLogged(a: Activity): int {
    match a
    case Quiz => 16
    case Assignment => 10
    case Attendance => 6
  }

  /** What one update computes: the rating stored, `Math.round(current +
      gain)`, and the gain logged, `Math.round(gain)`. */
  datatype Change = Change(stored: int, logged: int)

  function AuraChange(a: Activity, current: real, averageElo: Option<real>, score: real,
                      pow: real -> real): Change
    requires IsExp10(pow)
  {
    var g := Gain(a, Outcome(a, score), Expected(current, ReferenceRating(averageElo), pow));
    Change(Round(current + g), Round(g))
  }

  /** The logged gain lies within 16, 10 and 6 of zero; for an integer
      rating the stored rating moves by exactly the logged gain. */
  lemma AuraChangeShape(a: Activity, current: real, averageElo: Option<real>, score: real,
                        pow: real -> real)
    requires IsExp10(pow)
    ensures var c := AuraChange(a, current, averageElo, score, pow);
      -MaxLogged(a) <= c.logged <= MaxLogged(a)
      && (current == current.Floor as real ==> c.stored - current.Floor == c.logged)
  {
    var opp := ReferenceRating(averageElo);
    var g := Gain(a, Outcome(a, score), Expected(current, opp, pow));
    GainBounds(a, current, opp, score, pow);
    if current == current.Floor as real {
      RoundShift(current.Floor, g);
    }
  }

  /** The stored rating never falls after a win and never rises after a
      loss (for an integer rating). */
  lemma AuraChangeDirection(a: Activity, current: real, averageElo: Option<real>, score: real,
                            pow: real -> real)
    requires IsExp10(pow) && current == current.Floor as real
    ensures var c := AuraChange(a, current, averageElo, score, pow);
      (Outcome(a, score) == 1.0 ==> c.logged >= 0 && c.stored >= current.Floor)
      && (Outcome(a, score) == 0.0 ==> c.logged <= 0 && c.stored <= current.Floor)
  {
    var opp := ReferenceRating(averageElo);
    GainSign(a, current, opp, score, pow);
    AuraChangeShape(a, current, averageElo, score, pow);
  }
}
