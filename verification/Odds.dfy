/** The formula for the expected score, with any function in place of the power of ten that
    is positive and takes opposite numbers to reciprocal ones. */
module Odds {
  import opened Basics
  import opened Rating

  /** Stands for x |-> 10 ** x. */
  ghost predicate IsPower(power: real -> real) {
    && (forall x: real :: power(x) > 0.0)
    && (forall x: real, y: real :: x + y == 0.0 ==> power(x) * power(y) == 1.0)
  }

  ghost predicate Monotone(power: real -> real) {
    forall x: real, y: real :: x < y ==> power(x) < power(y)
  }

  /** expected_score, for a difference of the ratings. */
  function Curve(power: real -> real): real -> real {
    x => if 1.0 + power(x / 400.0) == 0.0 then 0.0 else 1.0 / (1.0 + power(x / 400.0))
  }

  lemma Scaled(e: real, d: real)
    requires d > 0.0
    ensures (e <= 0.0 ==> e * d <= 0.0) && (e >= 1.0 ==> e * d >= d)
  {
    if e >= 1.0 {
      assert (e - 1.0) * d >= 0.0;
    }
  }

  lemma OnePart(p: real)
    requires p > 0.0
    ensures 0.0 < 1.0 / (1.0 + p) < 1.0
  {
    var e := 1.0 / (1.0 + p);
    assert e * (1.0 + p) == 1.0;
    Scaled(e, 1.0 + p);
  }

  lemma TwoParts(p: real, q: real)
    requires p > 0.0 && q > 0.0 && p * q == 1.0
    ensures 1.0 / (1.0 + p) + 1.0 / (1.0 + q) == 1.0
  {
    var e, f := 1.0 / (1.0 + p), 1.0 / (1.0 + q);
    assert e * (1.0 + p) == 1.0 && f * (1.0 + q) == 1.0;
    assert (1.0 + p) * (1.0 + q) == 2.0 + p + q;
    var d := (1.0 + p) * (1.0 + q);
    assert d > 0.0;
    assert e * d == 1.0 + q by { assert e * d == (e * (1.0 + p)) * (1.0 + q); }
    assert f * d == 1.0 + p by { assert f * d == (f * (1.0 + q)) * (1.0 + p); }
    assert (e + f) * d == d by { assert (e + f) * d == e * d + f * d; }
    assert (e + f - 1.0) * d == 0.0;
  }

  /** The formula is a curve: the two expected scores lie between 0 and 1 and add up to 1. */
  lemma FormulaIsCurve(power: real -> real)
    requires IsPower(power)
    ensures IsCurve(Curve(power))
  {
    var curve := Curve(power);
    forall x: real
      ensures 0.0 < curve(x) < 1.0
    {
      OnePart(power(x / 400.0));
    }
    forall x: real, y: real | x + y == 0.0
      ensures curve(x) + curve(y) == 1.0
    {
      assert x / 400.0 + y / 400.0 == 0.0;
      TwoParts(power(x / 400.0), power(y / 400.0));
    }
  }

  /** Exactly the player with the higher rating is expected to score more than one half. */
  lemma StrongerIsFavoured(power: real -> real, a: real, b: real)
    requires IsPower(power) && Monotone(power)
    ensures a > b <==> Expected(Curve(power), a, b) > 0.5
  {
    var x := (b - a) / 400.0;
    assert power(x) > 0.0;
    assert 0.0 + 0.0 == 0.0 && power(0.0) * power(0.0) == 1.0;
    AroundOne(power(0.0));
    assert x < 0.0 ==> power(x) < power(0.0);
    assert x > 0.0 ==> power(0.0) < power(x);
    OneHalf(power(x));
  }

  lemma AroundOne(p: real)
    requires p > 0.0 && p * p == 1.0
    ensures p == 1.0
  {
    assert (p - 1.0) * (p + 1.0) == 0.0;
  }

  lemma OneHalf(p: real)
    requires p > 0.0
    ensures 1.0 / (1.0 + p) > 0.5 <==> p < 1.0
  {
    var e := 1.0 / (1.0 + p);
    assert e * (1.0 + p) == 1.0;
    if e > 0.5 {
      assert (e - 0.5) * (1.0 + p) > 0.0;
    } else {
      assert (0.5 - e) * (1.0 + p) >= 0.0;
    }
  }

  /** update_final_score with the formula. */
  method UpdateFinalScoreByFormula(power: real -> real, testcases: seq<Testcase>, players: seq<Player>,
        rated: set<Player>, matches: seq<Match>)
    returns (r: Ending, ratings: map<Testcase, Ratings>, scores: map<(Testcase, Player), real>)
    requires IsPower(power) && Distinct(players) && rated <= SetOf(players)
    ensures EndsWith(SetOf(players), SetOf(testcases), matches, r)
    ensures r.Done? ==> forall t :: t in testcases ==>
              t in ratings && ratings[t].Keys == SetOf(players) && Total(players, ratings[t]) == START * |rated| as real
              && IsScored(players, rated, ratings[t], t, scores)
  {
    hide IsPower, Curve, IsCurve, Starting, PlayedAll, Total, IsScored, EndsWith, Known, Distinct;
    FormulaIsCurve(power);
    var curve := Curve(power);
    r, ratings, scores := UpdateFinalScore(curve, testcases, players, rated, matches);
    if r.Done? {
      forall t | t in testcases
        ensures ratings[t].Keys == SetOf(players) && Total(players, ratings[t]) == START * |rated| as real
      {
        SameKeys(curve, SetOf(players), rated, Games(matches, t));
        TotalIsConstant(curve, players, rated, Games(matches, t));
      }
    }
  }
}
