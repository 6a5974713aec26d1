/**
 * The length-penalty configuration and its documented curve (src/rubric/types.py:54-115).
 * The curve's exponent is a natural number here: Dafny's reals have no fractional power.
 */
module LengthPenalties {
  import opened Wrappers

  /** Which part of a thinking/output submission is measured. */
  datatype PenaltyType = All | OutputOnly | ThinkingOnly

  /** `LengthPenalty`; `countFn == None` selects the default word counter. */
  datatype LengthPenalty = LengthPenalty(
    freeBudget: int,
    maxCap: int,
    penaltyAtCap: real,
    exponent: nat,
    countFn: Option<string -> nat>,
    penaltyType: PenaltyType)

  /** The source's defaults for every field except the exponent, whose default 1.6 is not a natural number. */
  const DefaultFreeBudget: int := 6000
  const DefaultMaxCap: int := 8000
  const DefaultPenaltyAtCap: real := 0.5
  const DefaultPenaltyType: PenaltyType := All

  /** A submission split into its two sections; a missing section is the empty string. */
  datatype Sections = Sections(thinking: string, output: string)

  /** `x` raised to a natural power. */
  function Pow(x: real, e: nat): real
  {
    if e == 0 then 1.0 else x * Pow(x, e - 1)
  }

  lemma {:induction false} PowZero(e: nat)
    requires e >= 1
    ensures Pow(0.0, e) == 0.0
  {
    if e > 1 {
      PowZero(e - 1);
    }
  }

  lemma {:induction false} PowOne(e: nat)
    ensures Pow(1.0, e) == 1.0
  {
    if e > 0 {
      PowOne(e - 1);
    }
  }

  lemma MulLe(a: real, b: real, c: real, d: real)
    requires 0.0 <= a <= b && 0.0 <= c <= d
    ensures a * c <= b * d
  {
    assert a * c <= b * c;
    assert b * c <= b * d;
  }

  lemma MulInOpenUnit(a: real, b: real)
    requires 0.0 < a < 1.0 && 0.0 < b < 1.0
    ensures 0.0 < a * b < 1.0
  {
    assert a * b < 1.0 * b;
  }

  lemma ScaleBelow(p: real, c: real, q: real)
    requires c > 0.0 && 0.0 < q < 1.0 && p == c * q
    ensures 0.0 < p < c
  {
    assert 0.0 < c * q;
    assert c * q < c;
    assert p < c;
  }

  lemma ScaledOrder(c: real, p: real, q: real)
    requires c >= 0.0 && 0.0 <= p <= q <= 1.0
    ensures 0.0 <= c * p <= c * q <= c
  {
    MulLe(0.0, c, 0.0, p);
    MulLe(c, c, p, q);
    MulLe(c, c, q, 1.0);
  }

  lemma ScaleDown(p: real, x: real, q: real)
    requires 0.0 <= x <= 1.0 && q >= 0.0 && p == x * q
    ensures 0.0 <= p <= q
  {
    MulLe(0.0, x, 0.0, q);
    MulLe(x, 1.0, q, q);
    assert p <= q;
  }

  /** Powers of a ratio strictly between 0 and 1 stay strictly between 0 and 1. */
  lemma {:induction false} PowInOpenUnit(x: real, e: nat)
    requires 0.0 < x < 1.0 && e >= 1
    ensures 0.0 < Pow(x, e) < 1.0
  {
    if e > 1 {
      PowInOpenUnit(x, e - 1);
      MulInOpenUnit(x, Pow(x, e - 1));
    }
  }

  /** On [0, 1] a natural power is monotone in its base and stays in [0, 1]. */
  lemma {:induction false} PowMonotone(x: real, y: real, e: nat)
    requires 0.0 <= x <= y <= 1.0
    ensures 0.0 <= Pow(x, e) <= Pow(y, e) <= 1.0
  {
    if e > 0 {
      PowMonotone(x, y, e - 1);
      MulLe(x, y, Pow(x, e - 1), Pow(y, e - 1));
      MulLe(0.0, x, 0.0, Pow(x, e - 1));
      MulLe(y, 1.0, Pow(y, e - 1), 1.0);
    }
  }

  /** On [0, 1] a larger exponent never gives a larger power: the curve is flatter near its start. */
  lemma {:induction false} PowAntitoneInExponent(x: real, e1: nat, e2: nat)
    requires 0.0 <= x <= 1.0 && e1 <= e2
    ensures 0.0 <= Pow(x, e2) <= Pow(x, e1) <= 1.0
    decreases e2 - e1
  {
    if e1 == e2 {
      PowMonotone(x, x, e1);
    } else {
      PowAntitoneInExponent(x, e1, e2 - 1);
      PowMonotone(x, x, e2 - 1);
      ScaleDown(Pow(x, e2), x, Pow(x, e2 - 1));
    }
  }

  /** The number of units the configuration measures, counting each section with `count`. */
  function CountedLength(s: Sections, cfg: LengthPenalty, count: string -> nat): (n: nat)
    ensures cfg.penaltyType == OutputOnly ==> n == count(s.output)
    ensures cfg.penaltyType == ThinkingOnly ==> n == count(s.thinking)
    ensures cfg.penaltyType == All ==> n == count(s.thinking) + count(s.output)
  {
    match cfg.penaltyType
    case All => count(s.thinking) + count(s.output)
    case OutputOnly => count(s.output)
    case ThinkingOnly => count(s.thinking)
  }

  /** The counter a configuration uses: its own `countFn`, else the supplied default word counter. */
  function Counter(cfg: LengthPenalty, wordCount: string -> nat): string -> nat
  {
    match cfg.countFn
    case Some(f) => f
    case None => wordCount
  }

  /** The interpolating curve of the documented formula, at a real-valued count. */
  function Curve(x: real, cfg: LengthPenalty): real
    requires cfg.freeBudget < cfg.maxCap
  {
    cfg.penaltyAtCap * Pow((x - cfg.freeBudget as real) / (cfg.maxCap - cfg.freeBudget) as real, cfg.exponent)
  }

  /**
   * The documented penalty: nothing up to the free budget, the full penalty from the cap on,
   * and the curve in between. The middle branch is reached only when the budget is below the
   * cap, so its division is always defined.
   */
  function Penalty(count: int, cfg: LengthPenalty): (p: real)
    ensures count <= cfg.freeBudget ==> p == 0.0
    ensures cfg.freeBudget < count && cfg.maxCap <= count ==> p == cfg.penaltyAtCap
  {
    if count <= cfg.freeBudget then 0.0
    else if count >= cfg.maxCap then cfg.penaltyAtCap
    else cfg.penaltyAtCap * Pow(Ratio(count, cfg), cfg.exponent)
  }

  /** How far a count strictly between budget and cap has progressed from the budget towards the cap. */
  function Ratio(count: int, cfg: LengthPenalty): (r: real)
    requires cfg.freeBudget < count < cfg.maxCap
    ensures 0.0 < r < 1.0
  {
    var d := (cfg.maxCap - cfg.freeBudget) as real;
    var a := (count - cfg.freeBudget) as real;
    RatioBounds(a, a, d);
    a / d
  }

  lemma RatioBounds(a: real, b: real, d: real)
    requires 0.0 <= a <= b <= d && d > 0.0
    ensures 0.0 <= a / d <= b / d <= 1.0
    ensures b < d ==> b / d < 1.0
    ensures 0.0 < a ==> 0.0 < a / d
  {
  }

  /** The ratio is the distance past the budget over the distance from budget to cap. */
  lemma RatioIsProgress(count: int, cfg: LengthPenalty)
    requires cfg.freeBudget < count < cfg.maxCap
    ensures Ratio(count, cfg) == (count as real - cfg.freeBudget as real) / (cfg.maxCap - cfg.freeBudget) as real
  {
  }

  /** A later count has progressed further. */
  lemma RatioMonotone(c1: int, c2: int, cfg: LengthPenalty)
    requires cfg.freeBudget < c1 <= c2 < cfg.maxCap
    ensures Ratio(c1, cfg) <= Ratio(c2, cfg)
  {
    var d := (cfg.maxCap - cfg.freeBudget) as real;
    RatioIsProgress(c1, cfg);
    RatioIsProgress(c2, cfg);
    RatioBounds(c1 as real - cfg.freeBudget as real, c2 as real - cfg.freeBudget as real, d);
  }

  /** Strictly between budget and cap the penalty is the cap penalty scaled by the ratio's power. */
  lemma InteriorPenalty(count: int, cfg: LengthPenalty)
    requires cfg.freeBudget < count < cfg.maxCap
    ensures Penalty(count, cfg) == cfg.penaltyAtCap * Pow(Ratio(count, cfg), cfg.exponent)
  {
  }

  /** Strictly between budget and cap the penalty follows the documented curve. */
  lemma PenaltyFollowsCurve(count: int, cfg: LengthPenalty)
    requires cfg.freeBudget < count < cfg.maxCap
    ensures Penalty(count, cfg) == Curve(count as real, cfg)
  {
    InteriorPenalty(count, cfg);
    RatioIsProgress(count, cfg);
  }

  /** Strictly between budget and cap the penalty lies strictly between 0 and the cap penalty. */
  lemma InteriorPenaltyBetween(count: int, cfg: LengthPenalty)
    requires cfg.freeBudget < count < cfg.maxCap && cfg.exponent >= 1 && cfg.penaltyAtCap > 0.0
    ensures 0.0 < Penalty(count, cfg) < cfg.penaltyAtCap
  {
    InteriorPenalty(count, cfg);
    PowInOpenUnit(Ratio(count, cfg), cfg.exponent);
    ScaleBelow(Penalty(count, cfg), cfg.penaltyAtCap, Pow(Ratio(count, cfg), cfg.exponent));
  }

  lemma CapScaledMonotone(x: real, y: real, cfg: LengthPenalty)
    requires 0.0 <= x <= y <= 1.0 && cfg.penaltyAtCap >= 0.0
    ensures 0.0 <= cfg.penaltyAtCap * Pow(x, cfg.exponent) <= cfg.penaltyAtCap * Pow(y, cfg.exponent) <= cfg.penaltyAtCap
  {
    PowMonotone(x, y, cfg.exponent);
    PowMonotone(y, 1.0, cfg.exponent);
    PowOne(cfg.exponent);
    ScaledOrder(cfg.penaltyAtCap, Pow(x, cfg.exponent), Pow(y, cfg.exponent));
  }

  /** For a non-negative cap penalty, every penalty lies between 0 and the cap penalty. */
  lemma PenaltyWithinCap(count: int, cfg: LengthPenalty)
    requires cfg.penaltyAtCap >= 0.0
    ensures 0.0 <= Penalty(count, cfg) <= cfg.penaltyAtCap
  {
    if cfg.freeBudget < count < cfg.maxCap {
      InteriorPenalty(count, cfg);
      var r := Ratio(count, cfg);
      CapScaledMonotone(r, r, cfg);
    }
  }

  /** A longer submission is never penalised less, for a non-negative penalty at the cap. */
  lemma PenaltyMonotone(c1: int, c2: int, cfg: LengthPenalty)
    requires c1 <= c2 && cfg.penaltyAtCap >= 0.0
    ensures 0.0 <= Penalty(c1, cfg) <= Penalty(c2, cfg) <= cfg.penaltyAtCap
  {
    PenaltyWithinCap(c1, cfg);
    PenaltyWithinCap(c2, cfg);
    if cfg.freeBudget < c1 && c2 < cfg.maxCap {
      var r1, r2 := Ratio(c1, cfg), Ratio(c2, cfg);
      RatioMonotone(c1, c2, cfg);
      InteriorPenalty(c1, cfg);
      InteriorPenalty(c2, cfg);
      CapScaledMonotone(r1, r2, cfg);
      assert Penalty(c1, cfg) == cfg.penaltyAtCap * Pow(r1, cfg.exponent);
      assert Penalty(c2, cfg) == cfg.penaltyAtCap * Pow(r2, cfg.exponent);
    }
  }

  /**
   * A higher exponent is more lenient: for a non-negative cap penalty, raising the exponent never
   * raises the penalty at any count.
   */
  lemma HigherExponentMoreLenient(count: int, cfg: LengthPenalty, e: nat)
    requires cfg.exponent <= e && cfg.penaltyAtCap >= 0.0
    ensures Penalty(count, cfg.(exponent := e)) <= Penalty(count, cfg)
  {
    if cfg.freeBudget < count < cfg.maxCap {
      var steep := cfg.(exponent := e);
      InteriorPenalty(count, cfg);
      InteriorPenalty(count, steep);
      RatioIsProgress(count, cfg);
      RatioIsProgress(count, steep);
      var r := Ratio(count, cfg);
      assert Ratio(count, steep) == r;
      PowAntitoneInExponent(r, cfg.exponent, e);
      MulLe(cfg.penaltyAtCap, cfg.penaltyAtCap, Pow(r, e), Pow(r, cfg.exponent));
    }
  }

  /**
   * The curve meets the flat branches at both ends: it is 0 at the free budget and the cap
   * penalty at the cap, so the penalty has no jump at either boundary.
   */
  lemma CurveMeetsEnds(cfg: LengthPenalty)
    requires cfg.freeBudget < cfg.maxCap && cfg.exponent >= 1
    ensures Curve(cfg.freeBudget as real, cfg) == Penalty(cfg.freeBudget, cfg) == 0.0
    ensures Curve(cfg.maxCap as real, cfg) == Penalty(cfg.maxCap, cfg) == cfg.penaltyAtCap
  {
    var d := (cfg.maxCap - cfg.freeBudget) as real;
    assert (cfg.freeBudget as real - cfg.freeBudget as real) / d == 0.0;
    assert (cfg.maxCap as real - cfg.freeBudget as real) / d == 1.0;
    PowZero(cfg.exponent);
    PowOne(cfg.exponent);
  }

  /**
   * With the defaults (free budget 6000, cap 8000, cap penalty 0.5, both sections counted) and any
   * exponent, up to 6000 units cost nothing, 8000 and more cost 0.5, and no count costs more.
   */
  lemma DefaultPenaltyBounds(count: int, e: nat)
    ensures var cfg := LengthPenalty(DefaultFreeBudget, DefaultMaxCap, DefaultPenaltyAtCap, e, None, DefaultPenaltyType);
      && (count <= 6000 ==> Penalty(count, cfg) == 0.0)
      && (count >= 8000 ==> Penalty(count, cfg) == 0.5)
      && 0.0 <= Penalty(count, cfg) <= 0.5
      && cfg.penaltyType == All
  {
    PenaltyWithinCap(count, LengthPenalty(DefaultFreeBudget, DefaultMaxCap, DefaultPenaltyAtCap, e, None, DefaultPenaltyType));
  }

  /** With a linear curve the penalty halfway between budget and cap is half the cap penalty. */
  lemma HalfwayIsHalf(count: int, cfg: LengthPenalty)
    requires cfg.freeBudget < cfg.maxCap && cfg.exponent == 1
    requires 2 * count == cfg.freeBudget + cfg.maxCap
    ensures Penalty(count, cfg) == cfg.penaltyAtCap / 2.0
  {
    var d := (cfg.maxCap - cfg.freeBudget) as real;
    var a := count as real - cfg.freeBudget as real;
    assert 2.0 * a == d;
    HalfRatio(a, d);
    RatioIsProgress(count, cfg);
    assert Pow(Ratio(count, cfg), 1) == Ratio(count, cfg);
  }

  lemma HalfRatio(a: real, d: real)
    requires d > 0.0 && 2.0 * a == d
    ensures a / d == 0.5
  {
  }

  /** The worked example: budget 100, cap 200, cap penalty 50, linear curve, 150 words cost 25. */
  lemma HalfwayExample()
    ensures Penalty(150, LengthPenalty(100, 200, 50.0, 1, None, All)) == 25.0
  {
    HalfwayIsHalf(150, LengthPenalty(100, 200, 50.0, 1, None, All));
  }
}
