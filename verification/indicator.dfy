/**
  The NEET indicator derived from the six B14005 values of one geographic unit.
  The count MOE combines the two independent estimates' MOEs in quadrature and
  the percent MOE uses the ACS approximation for a ratio of two estimates
  (not the one for a proportion). The same derivation serves both the county
  and the tract run.
 */
module Indicator {
  import opened Num

  /** The six B14005 values of one unit after coercion. */
  datatype Estimates = Estimates(
    maleNeet: Num,       // B14005_008E: male 16-19, not enrolled, not in labor force
    femaleNeet: Num,     // B14005_015E: female 16-19, not enrolled, not in labor force
    total: Num,          // B14005_001E: all youth 16-19
    maleNeetMoe: Num,    // B14005_008M
    femaleNeetMoe: Num,  // B14005_015M
    totalMoe: Num)       // B14005_001M

  /** The derived columns of one unit. */
  datatype Indicator = Indicator(
    neetCount: Num,
    neetCountMoe: Num,
    totalYouth: Num,
    totalYouthMoe: Num,
    neetPercent: Num,
    neetPercentMoe: Num,
    neetPercentCv: Num)

  /** All six values present. */
  predicate AllDefined(e: Estimates) {
    && e.maleNeet.Defined? && e.femaleNeet.Defined? && e.total.Defined?
    && e.maleNeetMoe.Defined? && e.femaleNeetMoe.Defined? && e.totalMoe.Defined?
  }

  /** M008^2 + M015^2, the square of the count MOE. */
  function CountMoeSquared(e: Estimates): real
    requires e.maleNeetMoe.Defined? && e.femaleNeetMoe.Defined?
  {
    e.maleNeetMoe.value * e.maleNeetMoe.value + e.femaleNeetMoe.value * e.femaleNeetMoe.value
  }

  lemma PercentZeroIff(count: real, total: real)
    requires total != 0.0
    ensures count / total * 100.0 == 0.0 <==> count == 0.0
  {
    if count / total * 100.0 == 0.0 {
      assert count == (count / total) * total;
    }
  }

  /** `neet_count / total_youth * 100` */
  function PercentOf(count: Num, total: Num): (p: Num)
    ensures p.Defined? <==> count.Defined? && total.Defined? && total.value != 0.0
    ensures p.Defined? ==> p.value == count.value / total.value * 100.0
    ensures p.Defined? ==> (p.value == 0.0 <==> count.value == 0.0)
  {
    if count.Defined? && total.Defined? && total.value != 0.0 then
      PercentZeroIff(count.value, total.value);
      Mul(Div(count, total), Defined(100.0))
    else
      Undefined
  }

  /** `(M008 ** 2 + M015 ** 2) ** 0.5` */
  function CountMoeOf(sqrt: real -> real, maleMoe: Num, femaleMoe: Num): (r: Num)
    requires IsSqrt(sqrt)
    ensures r.Defined? <==> maleMoe.Defined? && femaleMoe.Defined?
    ensures r.Defined? ==>
      0.0 <= r.value && r.value * r.value == maleMoe.value * maleMoe.value + femaleMoe.value * femaleMoe.value
  {
    if maleMoe.Defined? && femaleMoe.Defined? then
      SquareNonNegative(maleMoe.value);
      SquareNonNegative(femaleMoe.value);
      Root(sqrt, Add(Square(maleMoe), Square(femaleMoe)))
    else
      Undefined
  }

  /** (cm / c)^2 + (tm / t)^2, the squared relative errors of count and total. */
  function RelativeError(cm: real, c: real, tm: real, t: real): (r: real)
    requires c != 0.0 && t != 0.0
    ensures 0.0 <= r
  {
    SquareNonNegative(cm / c);
    SquareNonNegative(tm / t);
    (cm / c) * (cm / c) + (tm / t) * (tm / t)
  }

  /** `percent * ((cmoe / count) ** 2 + (tmoe / total) ** 2) ** 0.5` */
  function PercentMoeOf(sqrt: real -> real, percent: Num, countMoe: Num, count: Num, totalMoe: Num, total: Num): (r: Num)
    requires IsSqrt(sqrt)
    ensures r.Defined? <==>
      percent.Defined? && countMoe.Defined? && count.Defined? && count.value != 0.0
      && totalMoe.Defined? && total.Defined? && total.value != 0.0
    ensures r.Defined? ==>
      r.value == percent.value * sqrt(RelativeError(countMoe.value, count.value, totalMoe.value, total.value))
  {
    var relative := Add(Square(Div(countMoe, count)), Square(Div(totalMoe, total)));
    if relative.Defined? then
      assert relative.value == RelativeError(countMoe.value, count.value, totalMoe.value, total.value);
      Mul(percent, Root(sqrt, relative))
    else
      Undefined
  }

  /** The derivation, column by column, in the order the scripts assign them. */
  function Derive(sqrt: real -> real, e: Estimates): (d: Indicator)
    requires IsSqrt(sqrt)
    ensures d.totalYouth == e.total && d.totalYouthMoe == e.totalMoe
    ensures d.neetCount.Defined? <==> e.maleNeet.Defined? && e.femaleNeet.Defined?
    ensures d.neetCount.Defined? ==> d.neetCount.value == e.maleNeet.value + e.femaleNeet.value
    ensures d.neetCountMoe.Defined? <==> e.maleNeetMoe.Defined? && e.femaleNeetMoe.Defined?
    ensures d.neetCountMoe.Defined? ==>
      0.0 <= d.neetCountMoe.value && d.neetCountMoe.value * d.neetCountMoe.value == CountMoeSquared(e)
    ensures d.neetPercent.Defined? <==> d.neetCount.Defined? && e.total.Defined? && e.total.value != 0.0
    ensures d.neetPercent.Defined? ==> d.neetPercent.value == d.neetCount.value / e.total.value * 100.0
    ensures d.neetPercentMoe.Defined? <==>
      d.neetPercent.Defined? && d.neetCountMoe.Defined? && e.totalMoe.Defined? && d.neetCount.value != 0.0
    ensures d.neetPercentMoe.Defined? ==>
      d.neetPercentMoe.value == d.neetPercent.value *
        sqrt(RelativeError(d.neetCountMoe.value, d.neetCount.value, e.totalMoe.value, e.total.value))
    ensures d.neetPercentCv.Defined? <==> d.neetPercentMoe.Defined?
    ensures d.neetPercentCv == Div(d.neetPercentMoe, d.neetPercent)
  {
    var count := Add(e.maleNeet, e.femaleNeet);
    var total := e.total;
    var percent := PercentOf(count, total);
    var countMoe := CountMoeOf(sqrt, e.maleNeetMoe, e.femaleNeetMoe);
    var totalMoe := e.totalMoe;
    var percentMoe := PercentMoeOf(sqrt, percent, countMoe, count, totalMoe, total);
    var cv := Div(percentMoe, percent);
    Indicator(count, countMoe, total, totalMoe, percent, percentMoe, cv)
  }

  /** c^2 * ((cm / c)^2 + (tm / t)^2) == cm^2 + (c / t)^2 * tm^2 */
  lemma ScaledRelativeError(c: real, t: real, cm: real, tm: real)
    requires c != 0.0 && t != 0.0
    ensures c * c * RelativeError(cm, c, tm, t) == cm * cm + c / t * (c / t) * (tm * tm)
  {
    var u, v := cm / c, tm / t;
    assert c * u == cm;
    assert c * c * (u * u) == (c * u) * (c * u);
    assert c * v == c / t * tm;
    assert c * c * (v * v) == (c * v) * (c * v);
    assert (c / t * tm) * (c / t * tm) == c / t * (c / t) * (tm * tm);
  }

  lemma RootOfScaledRelativeError(sqrt: real -> real, c: real, t: real, cm: real, tm: real)
    requires IsSqrt(sqrt)
    requires 0.0 < c && 0.0 < t
    ensures sqrt(cm * cm + c / t * (c / t) * (tm * tm)) == c * sqrt(RelativeError(cm, c, tm, t))
  {
    ScaledRelativeError(c, t, cm, tm);
    RootOfScaled(sqrt, c, RelativeError(cm, c, tm, t), cm * cm + c / t * (c / t) * (tm * tm));
  }

  lemma Regroup(c: real, t: real, s: real)
    requires t != 0.0
    ensures c / t * 100.0 * s == 100.0 / t * (c * s)
  {
  }

  /**
    The ACS approximation of the MOE of a ratio C / T of two estimates with
    MOEs cm and tm, scaled to a percentage: (100 / T) * sqrt(cm^2 + (C / T)^2 * tm^2).
   */
  function AcsRatioMoe(sqrt: real -> real, c: real, t: real, cm: real, tm: real): real
    requires t != 0.0
  {
    100.0 / t * sqrt(cm * cm + c / t * (c / t) * (tm * tm))
  }

  /** The percent MOE as written equals the ACS ratio MOE. */
  lemma RatioForm(sqrt: real -> real, c: real, t: real, cm: real, tm: real)
    requires IsSqrt(sqrt)
    requires 0.0 < c && 0.0 < t
    ensures c / t * 100.0 * sqrt(RelativeError(cm, c, tm, t)) == AcsRatioMoe(sqrt, c, t, cm, tm)
  {
    RootOfScaledRelativeError(sqrt, c, t, cm, tm);
    Regroup(c, t, sqrt(RelativeError(cm, c, tm, t)));
  }

  /**
    For a positive count and total the percent MOE is the ACS MOE of the ratio
    count / total (times 100), with the count MOE as the numerator's MOE.
   */
  lemma PercentMoeIsRatioMoe(sqrt: real -> real, e: Estimates)
    requires IsSqrt(sqrt)
    requires AllDefined(e)
    requires 0.0 < e.maleNeet.value + e.femaleNeet.value && 0.0 < e.total.value
    ensures Derive(sqrt, e).neetCountMoe.Defined?
    ensures Derive(sqrt, e).neetPercentMoe == Defined(AcsRatioMoe(sqrt,
      Derive(sqrt, e).neetCount.value, e.total.value, Derive(sqrt, e).neetCountMoe.value, e.totalMoe.value))
  {
    var d := Derive(sqrt, e);
    var c, t, tm, cm := d.neetCount.value, e.total.value, e.totalMoe.value, d.neetCountMoe.value;
    assert d.neetPercentMoe == Defined(c / t * 100.0 * sqrt(RelativeError(cm, c, tm, t)));
    RatioForm(sqrt, c, t, cm, tm);
  }

  lemma CancelFactor(p: real, s: real)
    requires p != 0.0
    ensures p * s / p == s
  {
  }

  /**
    Where the CV is defined it is sqrt((cmoe / count)^2 + (tmoe / total)^2),
    the root of the summed squared relative errors: the x100 scaling of the
    percentage cancels.
   */
  lemma CvIsRelativeError(sqrt: real -> real, e: Estimates)
    requires IsSqrt(sqrt)
    requires Derive(sqrt, e).neetPercentCv.Defined?
    ensures AllDefined(e)
    ensures Derive(sqrt, e).neetCount.value != 0.0 && e.total.value != 0.0
    ensures Derive(sqrt, e).neetPercentCv == Defined(sqrt(RelativeError(
      Derive(sqrt, e).neetCountMoe.value, Derive(sqrt, e).neetCount.value, e.totalMoe.value, e.total.value)))
  {
    var d := Derive(sqrt, e);
    var c, t, tm, cm := d.neetCount.value, e.total.value, e.totalMoe.value, d.neetCountMoe.value;
    var p, s := d.neetPercent.value, sqrt(RelativeError(cm, c, tm, t));
    assert p != 0.0;
    assert d.neetPercentMoe == Defined(p * s);
    CancelFactor(p, s);
  }

  lemma ZeroSquares(z: Num)
    requires z == Defined(0.0)
    ensures Add(Square(z), Square(z)) == Defined(0.0)
  {
    assert Square(z) == Defined(0.0 * 0.0);
    assert Add(Square(z), Square(z)) == Defined(0.0 * 0.0 + 0.0 * 0.0);
  }

  /** Both MOEs zero gives a zero count MOE. */
  lemma CountMoeOfZeros(sqrt: real -> real, e: Estimates)
    requires IsSqrt(sqrt)
    requires e.maleNeetMoe == Defined(0.0) && e.femaleNeetMoe == Defined(0.0)
    ensures Derive(sqrt, e).neetCountMoe == Defined(0.0)
  {
    ZeroSquares(e.maleNeetMoe);
    RootOfZero(sqrt);
    assert Root(sqrt, Defined(0.0)) == Defined(0.0);
    assert CountMoeOf(sqrt, e.maleNeetMoe, e.femaleNeetMoe) == Defined(0.0);
  }

  /** A count between zero and the total gives a percentage between 0 and 100. */
  lemma PercentBounds(sqrt: real -> real, e: Estimates)
    requires IsSqrt(sqrt)
    requires e.maleNeet.Defined? && e.femaleNeet.Defined? && e.total.Defined?
    requires 0.0 <= e.maleNeet.value + e.femaleNeet.value <= e.total.value && 0.0 < e.total.value
    ensures Derive(sqrt, e).neetPercent.Defined?
    ensures 0.0 <= Derive(sqrt, e).neetPercent.value <= 100.0
  {
    var c, t := Derive(sqrt, e).neetCount.value, e.total.value;
    FractionBounds(c, t);
  }

  lemma FractionBounds(c: real, t: real)
    requires 0.0 <= c <= t && 0.0 < t
    ensures 0.0 <= c / t * 100.0 <= 100.0
  {
    assert c / t * t == c;
  }

  /**
    An undefined estimate leaves the count, the percentage, its MOE and the CV
    undefined; the count MOE and both total columns are what they would be
    with any defined value in its place.
   */
  lemma UndefinedEstimateIsolated(sqrt: real -> real, e: Estimates, x: real)
    requires IsSqrt(sqrt)
    requires e.maleNeet.Undefined?
    ensures
      var d := Derive(sqrt, e);
      var d' := Derive(sqrt, e.(maleNeet := Defined(x)));
      && d.neetCount.Undefined? && d.neetPercent.Undefined?
      && d.neetPercentMoe.Undefined? && d.neetPercentCv.Undefined?
      && d.neetCountMoe == d'.neetCountMoe
      && d.totalYouth == d'.totalYouth && d.totalYouthMoe == d'.totalYouthMoe
  {
  }

  /**
    An undefined count MOE leaves the count MOE, the percent MOE and the CV
    undefined; the count, the total, its MOE and the percentage are unaffected.
   */
  lemma UndefinedMoeIsolated(sqrt: real -> real, e: Estimates, x: real)
    requires IsSqrt(sqrt)
    requires e.maleNeetMoe.Undefined?
    ensures
      var d := Derive(sqrt, e);
      var d' := Derive(sqrt, e.(maleNeetMoe := Defined(x)));
      && d.neetCountMoe.Undefined? && d.neetPercentMoe.Undefined? && d.neetPercentCv.Undefined?
      && d.neetCount == d'.neetCount && d.neetPercent == d'.neetPercent
      && d.totalYouth == d'.totalYouth && d.totalYouthMoe == d'.totalYouthMoe
  {
  }

  /** A unit with no youth at all gets an undefined percentage, MOE and CV rather than an error. */
  lemma ZeroTotalIsUndefined(sqrt: real -> real, e: Estimates)
    requires IsSqrt(sqrt)
    requires e.total == Defined(0.0)
    ensures Derive(sqrt, e).neetPercent.Undefined?
    ensures Derive(sqrt, e).neetPercentMoe.Undefined?
    ensures Derive(sqrt, e).neetPercentCv.Undefined?
  {
  }

  lemma QuotientSquare(x: real, c: real, m: real, k: real)
    requires c != 0.0 && k != 0.0 && k == c * c && x * x == m
    ensures (x / c) * (x / c) == m / k
  {
    var q := x / c;
    assert x == q * c;
    assert (q * c) * (q * c) == (q * q) * (c * c);
    assert m == (q * q) * k;
  }

  /**
    A unit with E008 = 40, E015 = 35, E001 = 500, M008 = 10, M015 = 8 and
    M001 = 20: count 75, percentage 15, count MOE sqrt(164), percent MOE
    15 * sqrt(173 / 5625) (about 2.631) and CV sqrt(173 / 5625) (about 0.1754).
   */
  lemma WorkedExample(sqrt: real -> real, e: Estimates)
    requires IsSqrt(sqrt)
    requires e == Estimates(Defined(40.0), Defined(35.0), Defined(500.0), Defined(10.0), Defined(8.0), Defined(20.0))
    ensures Derive(sqrt, e).neetCount == Defined(75.0)
    ensures Derive(sqrt, e).neetPercent == Defined(15.0)
    ensures Derive(sqrt, e).neetCountMoe.Defined?
    ensures Derive(sqrt, e).neetCountMoe.value * Derive(sqrt, e).neetCountMoe.value == 164.0
    ensures Derive(sqrt, e).neetPercentCv.Defined?
    ensures 0.1753 < Derive(sqrt, e).neetPercentCv.value < 0.1754
    ensures Derive(sqrt, e).neetPercentMoe.Defined?
    ensures 2.6295 < Derive(sqrt, e).neetPercentMoe.value < 2.631
  {
    var d := Derive(sqrt, e);
    assert d.neetCount == Defined(75.0);
    assert d.neetPercent == Defined(15.0);
    var cm := d.neetCountMoe.value;
    assert cm * cm == 164.0;
    CvIsRelativeError(sqrt, e);
    QuotientSquare(cm, 75.0, 164.0, 5625.0);
    var s := RelativeError(cm, 75.0, 20.0, 500.0);
    assert s == 173.0 / 5625.0;
    var v := sqrt(s);
    assert d.neetPercentCv == Defined(v);
    RootBracket(v, s, 0.1753, 0.1754);
    assert d.neetPercentMoe == Defined(15.0 * v);
  }
}
