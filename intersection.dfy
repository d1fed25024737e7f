// One frame crossing a centerline branch (core/lib/intersection.hpp) and the set of crossings
// of one branch with its estimators (core/intersection_set.hpp).
//
// An Intersection is a value: the source copies it into the std::vector that an
// IntersectionSet is, and mutates the copies in place. Its state changes are therefore
// functions (and, where the source loops, methods) from the old value to the new one. The
// back-reference to the spline is generic (S), since the spline type is defined on top of this
// module; the image is a reference to the frame. A division that the source performs on a zero
// denominator is an explicit case, never a silent NaN.
module Intersections {
  import opened Helpers
  import opened Frames

  /** std::accumulate(..., 0.0, plus<T>()): the sum of the samples, in order. */
  function Sum(s: seq<real>): real
  {
    if s == [] then 0.0 else Sum(s[..|s| - 1]) + s[|s| - 1]
  }

  /** The mean of the samples; 0 for none, the value the source stores in that case. */
  function Mean(s: seq<real>): (r: real)
    ensures s != [] ==> r * (|s| as real) == Sum(s)
  {
    if s == [] then 0.0 else Sum(s) / |s| as real
  }

  /** The mean lies between any bounds of the samples. */
  lemma MeanWithin(s: seq<real>, lo: real, hi: real)
    requires s != [] && forall k :: 0 <= k < |s| ==> lo <= s[k] <= hi
    ensures lo <= Mean(s) <= hi
  {
    SumWithin(s, lo, hi);
    var n := |s| as real;
    assert lo * n <= Sum(s) <= hi * n;
    DivideBounds(Sum(s), n, lo, hi);
  }

  lemma {:induction false} SumWithin(s: seq<real>, lo: real, hi: real)
    requires forall k :: 0 <= k < |s| ==> lo <= s[k] <= hi
    ensures lo * (|s| as real) <= Sum(s) <= hi * (|s| as real)
  {
    if s != [] {
      SumWithin(s[..|s| - 1], lo, hi);
    }
  }

  lemma DivideBounds(x: real, n: real, lo: real, hi: real)
    requires n > 0.0 && lo * n <= x <= hi * n
    ensures lo <= x / n <= hi
  {
    var q := x / n;
    assert q * n == x;
  }

  /**
   * The state of an intersection: the spline and frame it belongs to, its parameter position on
   * the spline, cos(theta) between the beam axis and the spline tangent, the region-grown
   * samples, the validity flag and the cached average.
   */
  datatype Intersection<S> = Intersection(
    spline: Option<S>,
    pos: real,
    cosTheta: real,
    avgValue: real,
    image: MetaImage?,
    points: seq<real>,
    valid: bool,
    avgComputed: bool,
    origAvgValue: real)

  /**
   * Intersection() as written: every field but m_avgValue and m_avg_computed is set; those two
   * hold whatever the memory held, here the arguments.
   */
  function UninitializedIntersection<S>(avgComputed: bool, avgValue: real): (x: Intersection<S>)
    ensures !x.valid && x.spline.None? && x.image == null && x.points == []
    ensures x.pos == 0.0 && x.cosTheta == 0.0 && x.origAvgValue == 0.0
  {
    Intersection(None, 0.0, 0.0, avgValue, null, [], false, avgComputed, 0.0)
  }

  /** Intersection() as its comment intends ("everything to 0, false or NULL"). */
  function NewIntersection<S>(): (x: Intersection<S>)
    ensures !x.valid && x.spline.None? && x.image == null && x.points == []
    ensures x.pos == 0.0 && x.cosTheta == 0.0 && x.origAvgValue == 0.0
    ensures !x.avgComputed
  {
    UninitializedIntersection(false, 0.0)
  }

  /** setPoints: new samples, and the cached average is stale. */
  function SetPoints<S>(x: Intersection<S>, pts: seq<real>): (r: Intersection<S>)
    ensures r.points == pts && !r.avgComputed
  {
    x.(points := pts, avgComputed := false)
  }

  /**
   * __computeAverage: caches the mean of the samples and stores their SUM as the original
   * average; with no samples the average is 0 and the intersection becomes invalid.
   */
  function ComputeAverage<S>(x: Intersection<S>): (r: Intersection<S>)
    ensures r.avgComputed && r.points == x.points
    ensures r.avgValue == Mean(x.points) && r.origAvgValue == Sum(x.points)
    ensures r.valid <==> x.valid && x.points != []
  {
    var sum := Sum(x.points);
    if x.points == [] then x.(avgValue := 0.0, origAvgValue := sum, avgComputed := true, valid := false)
    else x.(avgValue := sum / |x.points| as real, origAvgValue := sum, avgComputed := true)
  }

  /** getAverage: the cached average, computed first when the cache flag is clear. */
  function GetAverage<S>(x: Intersection<S>): (r: (Intersection<S>, real))
    ensures r.1 == r.0.avgValue && r.0.points == x.points && r.0.avgComputed
    ensures x.avgComputed ==> r.0 == x
    ensures !x.avgComputed ==> r.1 == Mean(x.points)
  {
    if x.avgComputed then (x, x.avgValue) else var y := ComputeAverage(x); (y, y.avgValue)
  }

  /** A second getAverage changes nothing and returns the same value. */
  lemma GetAverageIdempotent<S>(x: Intersection<S>)
    ensures GetAverage(GetAverage(x).0) == GetAverage(x)
  {
  }

  /** After setPoints, getAverage returns the mean of the new samples. */
  lemma AverageAfterSetPoints<S>(x: Intersection<S>, pts: seq<real>)
    ensures GetAverage(SetPoints(x, pts)).1 == Mean(pts)
  {
  }

  /**
   * With the flag left uninitialized, a crossing that the flag happens to mark as computed
   * reports the stale garbage average after region growing has given it samples.
   */
  lemma UninitializedFlagGivesStaleAverage()
    ensures GetAverage(UninitializedIntersection<int>(true, 7.0).(points := [1.0])).1 == 7.0
    ensures Mean([1.0]) == 1.0
  {
    assert [1.0][..0] == [];
  }

  /** With the intended initialization, the average is the mean of whatever samples were added. */
  lemma NewIntersectionAveragesSamples<S>(pts: seq<real>)
    ensures GetAverage(NewIntersection<S>().(points := pts)).1 == Mean(pts)
  {
  }

  /** The number of samples > 0 (the accumulate in sampleWeight). */
  function CountPositive(s: seq<real>): (r: nat)
    ensures r <= |s|
  {
    if s == [] then 0 else CountPositive(s[..|s| - 1]) + (if s[|s| - 1] > 0.0 then 1 else 0)
  }

  /** All samples positive exactly when every one is counted; zeros count as negative. */
  lemma {:induction false} CountPositiveAll(s: seq<real>)
    ensures CountPositive(s) == |s| <==> forall k :: 0 <= k < |s| ==> s[k] > 0.0
    ensures CountPositive(s) == 0 <==> forall k :: 0 <= k < |s| ==> s[k] <= 0.0
  {
    if s != [] {
      var init := s[..|s| - 1];
      CountPositiveAll(init);
      assert forall k :: 0 <= k < |init| ==> init[k] == s[k];
    }
  }

  /** Whether |cos(theta)| lies strictly inside (a, b): the band bonus of the sample weight. */
  predicate InOpenBand(c: real, a: real, b: real) { Abs(c) > a && Abs(c) < b }

  /**
   * sampleWeight(A, a, b) = A * ((pos - neg) / (pos + neg))^2 + (1 if a < |cos| < b else 0).
   * With no samples the source computes 0/0; here that is None.
   */
  function SampleWeight<S>(x: Intersection<S>, bigA: real, a: real, b: real): (r: Option<real>)
    ensures r.None? <==> x.points == []
  {
    if x.points == [] then None
    else
      var ratio := SampleRatio(x.points);
      Some(bigA * (ratio * ratio) + (if InOpenBand(x.cosTheta, a, b) then 1.0 else 0.0))
  }

  /** (pos - neg) / (pos + neg) over the samples; zeros count as negative. */
  function SampleRatio(s: seq<real>): real
    requires s != []
  {
    var positive := CountPositive(s);
    var negative := |s| - positive;
    (positive - negative) as real / (positive + negative) as real
  }

  /**
   * The squared ratio is in [0, 1], so for A >= 0 the weight lies between the band bonus and
   * A plus the band bonus; unanimous samples reach the top, a tie the bottom.
   */
  lemma SampleWeightBounds<S>(x: Intersection<S>, bigA: real, a: real, b: real)
    requires bigA >= 0.0 && x.points != []
    ensures var bonus := if InOpenBand(x.cosTheta, a, b) then 1.0 else 0.0;
      bonus <= SampleWeight(x, bigA, a, b).value <= bigA + bonus
    ensures (forall k :: 0 <= k < |x.points| ==> x.points[k] > 0.0) ==>
      SampleWeight(x, bigA, a, b).value == bigA + (if InOpenBand(x.cosTheta, a, b) then 1.0 else 0.0)
    ensures 2 * CountPositive(x.points) == |x.points| ==>
      SampleWeight(x, bigA, a, b).value == (if InOpenBand(x.cosTheta, a, b) then 1.0 else 0.0)
  {
    var positive := CountPositive(x.points);
    var n := |x.points|;
    var d := positive - (n - positive);
    var ratio := SampleRatio(x.points);
    assert ratio == d as real / n as real;
    RatioSquareInUnit(d, n);
    var bonus := if InOpenBand(x.cosTheta, a, b) then 1.0 else 0.0;
    assert SampleWeight(x, bigA, a, b).value == bigA * (ratio * ratio) + bonus;
    WeightBounds(bigA, ratio * ratio, bonus);
    CountPositiveAll(x.points);
    if forall k :: 0 <= k < n ==> x.points[k] > 0.0 {
      UnitRatio(d, n);
      WeightAtSquare(bigA, ratio, 1.0, bonus);
    }
    if 2 * positive == n {
      assert d == 0;
      WeightAtSquare(bigA, ratio, 0.0, bonus);
    }
  }

  lemma WeightBounds(bigA: real, sq: real, bonus: real)
    requires bigA >= 0.0 && 0.0 <= sq <= 1.0
    ensures bonus <= bigA * sq + bonus <= bigA + bonus
  {
    MulAtMostOne(bigA, sq);
    MulPositiveOrZero(bigA, sq);
  }

  lemma UnitRatio(d: int, n: int)
    requires n > 0 && d == n
    ensures d as real / n as real == 1.0
  {
  }

  lemma WeightAtSquare(bigA: real, ratio: real, r: real, bonus: real)
    requires ratio == r && (r == 0.0 || r == 1.0)
    ensures bigA * (ratio * ratio) + bonus == bigA * r + bonus
  {
  }

  lemma RatioSquareInUnit(d: int, n: int)
    requires n > 0 && -n <= d <= n
    ensures 0.0 <= (d as real / n as real) * (d as real / n as real) <= 1.0
  {
    var q := d as real / n as real;
    DivideBounds(d as real, n as real, -1.0, 1.0);
    ProductWithSelf(q, q);
    SquareAtMostOne(q, q);
  }

  lemma SquareAtMostOne(q: real, q': real)
    requires q == q' && -1.0 <= q <= 1.0
    ensures q * q' <= 1.0
  {
    if q >= 0.0 {
      MulAtMostOne(q, q');
    } else {
      var p := -q;
      MulAtMostOne(p, p);
      assert q * q' == p * p;
    }
  }

  lemma MulAtMostOne(x: real, y: real)
    requires x >= 0.0 && 0.0 <= y <= 1.0
    ensures x * y <= x
  {
    assert x - x * y == x * (1.0 - y);
    MulPositiveOrZero(x, 1.0 - y);
  }

  lemma MulPositiveOrZero(x: real, y: real)
    requires x >= 0.0 && y >= 0.0
    ensures x * y >= 0.0
  {
    if x > 0.0 && y > 0.0 {
      MulPositive(x, y);
    }
  }

  /**
   * One sample through correctAliasing: when the assumed flow direction and cos(theta) have
   * the same sign a negative sample is unwrapped by +2 Vnyq, otherwise a positive sample by
   * -2 Vnyq; zeros and samples of the expected sign stay.
   */
  function CorrectSample(v: real, same: bool, vnyq: real): (r: real)
    ensures r == v || r == v + 2.0 * vnyq || r == v - 2.0 * vnyq
    ensures v == 0.0 ==> r == 0.0
    ensures vnyq >= 0.0 && -2.0 * vnyq <= v <= 2.0 * vnyq ==> if same then r >= 0.0 else r <= 0.0
  {
    if v < 0.0 && same then v + 2.0 * vnyq
    else if v > 0.0 && !same then v - 2.0 * vnyq
    else v
  }

  function Corrected(s: seq<real>, same: bool, vnyq: real): (r: seq<real>)
    ensures |r| == |s|
    ensures forall k :: 0 <= k < |s| ==> r[k] == CorrectSample(s[k], same, vnyq)
  {
    seq(|s|, k requires 0 <= k < |s| => CorrectSample(s[k], same, vnyq))
  }

  /**
   * For samples aliased by at most one wrap (|v| <= 2 Vnyq), the corrected samples all carry
   * the expected sign, and zeros are left as they are.
   */
  lemma CorrectedSigns(s: seq<real>, same: bool, vnyq: real)
    requires vnyq >= 0.0 && forall k :: 0 <= k < |s| ==> -2.0 * vnyq <= s[k] <= 2.0 * vnyq
    ensures same ==> forall k :: 0 <= k < |s| ==> Corrected(s, same, vnyq)[k] >= 0.0
    ensures !same ==> forall k :: 0 <= k < |s| ==> Corrected(s, same, vnyq)[k] <= 0.0
    ensures forall k :: 0 <= k < |s| && s[k] == 0.0 ==> Corrected(s, same, vnyq)[k] == 0.0
  {
  }

  /** The state correctAliasing(direction, Vnyq) leaves. */
  function AliasCorrected<S>(x: Intersection<S>, direction: real, vnyq: real): (r: Intersection<S>)
    ensures r.points == Corrected(x.points, Sgn(direction) == Sgn(x.cosTheta), vnyq)
    ensures r.avgValue == Mean(r.points)
    ensures r.valid <==> x.valid && x.points != []
    ensures r.avgComputed == x.avgComputed && r.origAvgValue == x.origAvgValue
    ensures r.cosTheta == x.cosTheta && r.spline == x.spline && r.image == x.image && r.pos == x.pos
  {
    var pts := Corrected(x.points, Sgn(direction) == Sgn(x.cosTheta), vnyq);
    if pts == [] then x.(points := pts, avgValue := 0.0, valid := false)
    else x.(points := pts, avgValue := Sum(pts) / |pts| as real)
  }

  /** correctAliasing: the in-place pass over the samples, summing the corrected values. */
  method CorrectIntersectionAliasing<S>(x: Intersection<S>, direction: real, vnyq: real) returns (r: Intersection<S>)
    ensures r == AliasCorrected(x, direction, vnyq)
  {
    var pts := x.points;
    var avg := 0.0;
    var same := Sgn(direction) == Sgn(x.cosTheta);
    var i := 0;
    while i < |pts|
      invariant 0 <= i <= |pts| == |x.points|
      invariant forall k :: 0 <= k < i ==> pts[k] == CorrectSample(x.points[k], same, vnyq)
      invariant forall k :: i <= k < |pts| ==> pts[k] == x.points[k]
      invariant avg == Sum(pts[..i])
    {
      if pts[i] < 0.0 && same {
        pts := pts[i := pts[i] + 2.0 * vnyq];
      } else if pts[i] > 0.0 && !same {
        pts := pts[i := pts[i] - 2.0 * vnyq];
      }
      assert pts[i] == CorrectSample(x.points[i], same, vnyq);
      avg := avg + pts[i];
      assert pts[..i + 1][..i] == pts[..i];
      i := i + 1;
    }
    assert pts[..i] == pts;
    assert pts == Corrected(x.points, same, vnyq);
    if |pts| == 0 {
      r := x.(points := pts, avgValue := 0.0, valid := false);
    } else {
      r := x.(points := pts, avgValue := avg / |pts| as real);
    }
  }

  /**
   * estimateVelocitySimple: average / cos(theta) for a valid crossing, 0 otherwise. The source
   * divides by a zero cos(theta) as well; here that quotient is None.
   */
  function EstimateVelocitySimple<S>(x: Intersection<S>): (r: (Intersection<S>, Option<real>))
    ensures !x.valid ==> r == (x, Some(0.0))
    ensures x.valid ==> r.0 == GetAverage(x).0
    ensures x.valid ==> (r.1.None? <==> x.cosTheta == 0.0)
    ensures x.valid && r.1.Some? ==> r.1.value * x.cosTheta == GetAverage(x).1
  {
    if !x.valid then (x, Some(0.0))
    else
      var (y, avg) := GetAverage(x);
      if x.cosTheta == 0.0 then (y, None) else (y, Some(avg / x.cosTheta))
  }

  // ---- the set's estimators ----

  /**
   * A member's contribution to estimateDirection: its vote weight * sgn(avg * cos) and its
   * weight; nothing when avg * cos = 0 or the weight is undefined (0/0 in the source).
   */
  function Vote<S>(x: Intersection<S>, bigA: real, a: real, b: real): (r: (real, real))
    ensures r.1 == 0.0 ==> r.0 == 0.0
  {
    var w := SampleWeight(x, bigA, a, b);
    var tmp := GetAverage(x).1 * x.cosTheta;
    if tmp == 0.0 || w.None? then (0.0, 0.0) else (w.value * (Sgn(tmp) as real), w.value)
  }

  /** The sums of votes and of weights over the members, in order. */
  function Tally<S>(items: seq<Intersection<S>>, bigA: real, a: real, b: real): (r: (real, real))
    ensures bigA >= 0.0 ==> r.1 >= 0.0
  {
    if items == [] then (0.0, 0.0)
    else
      var t := Tally(items[..|items| - 1], bigA, a, b);
      var x := items[|items| - 1];
      var v := Vote(x, bigA, a, b);
      if bigA >= 0.0 && x.points != [] then
        SampleWeightBounds(x, bigA, a, b);
        (t.0 + v.0, t.1 + v.1)
      else (t.0 + v.0, t.1 + v.1)
  }

  /** The direction estimate: votes / weights, 0 where that quotient is undefined. */
  function DirectionOf<S>(items: seq<Intersection<S>>, bigA: real, a: real, b: real): (r: real)
    ensures Tally(items, bigA, a, b).1 == 0.0 ==> r == 0.0
    ensures Tally(items, bigA, a, b).1 != 0.0 && Tally(items, bigA, a, b).0 == Tally(items, bigA, a, b).1 ==> r == 1.0
  {
    var t := Tally(items, bigA, a, b);
    if t.1 == 0.0 then 0.0 else t.0 / t.1
  }

  /** With A >= 0 every weight is non-negative and bounds its vote. */
  lemma {:induction false} TallyBounded<S>(items: seq<Intersection<S>>, bigA: real, a: real, b: real)
    requires bigA >= 0.0
    ensures -Tally(items, bigA, a, b).1 <= Tally(items, bigA, a, b).0 <= Tally(items, bigA, a, b).1
  {
    if items != [] {
      TallyBounded(items[..|items| - 1], bigA, a, b);
      var x := items[|items| - 1];
      if x.points != [] {
        SampleWeightBounds(x, bigA, a, b);
      }
    }
  }

  /** The direction estimate of any set of crossings lies in [-1, 1] when A >= 0. */
  lemma DirectionBounded<S>(items: seq<Intersection<S>>, bigA: real, a: real, b: real)
    requires bigA >= 0.0
    ensures -1.0 <= DirectionOf(items, bigA, a, b) <= 1.0
  {
    TallyBounded(items, bigA, a, b);
    var t := Tally(items, bigA, a, b);
    if t.1 != 0.0 {
      DivideBounds(t.0, t.1, -1.0, 1.0);
    }
  }

  /**
   * When every member's average agrees in sign with its cos(theta), the votes equal the
   * weights, so the direction is 1 unless no member carries weight.
   */
  lemma {:induction false} TallyUnanimous<S>(items: seq<Intersection<S>>, bigA: real, a: real, b: real)
    requires forall k :: 0 <= k < |items| ==> GetAverage(items[k]).1 * items[k].cosTheta >= 0.0
    ensures Tally(items, bigA, a, b).0 == Tally(items, bigA, a, b).1
  {
    if items != [] {
      TallyUnanimous(items[..|items| - 1], bigA, a, b);
    }
  }

  lemma DirectionUnanimous<S>(items: seq<Intersection<S>>, bigA: real, a: real, b: real)
    requires forall k :: 0 <= k < |items| ==> GetAverage(items[k]).1 * items[k].cosTheta >= 0.0
    ensures DirectionOf(items, bigA, a, b) == 1.0 || Tally(items, bigA, a, b).1 == 0.0
  {
    TallyUnanimous(items, bigA, a, b);
    if Tally(items, bigA, a, b).1 != 0.0 {
      SelfQuotient(Tally(items, bigA, a, b));
    }
  }

  lemma SelfQuotient(p: (real, real))
    requires p.1 != 0.0 && p.0 == p.1
    ensures p.0 / p.1 == 1.0
  {
  }

  /** Whether |cos(theta)| lies in the closed band [a, b] used by estimateVelocityLS. */
  predicate InClosedBand(c: real, a: real, b: real) { !(Abs(c) < a || Abs(c) > b) }

  /** A member's terms avg * cos and cos^2 for the least-squares velocity, if inside the band. */
  function LsTerms<S>(x: Intersection<S>, a: real, b: real): (real, real)
  {
    if !InClosedBand(x.cosTheta, a, b) then (0.0, 0.0)
    else (GetAverage(x).1 * x.cosTheta, x.cosTheta * x.cosTheta)
  }

  /** Inside the band, the terms are the two products the accumulator adds. */
  lemma LsTermsInBand<S>(x: Intersection<S>, a: real, b: real, avg: real)
    requires InClosedBand(x.cosTheta, a, b) && avg == GetAverage(x).1
    ensures LsTerms(x, a, b) == (avg * x.cosTheta, x.cosTheta * x.cosTheta)
  {
    assert LsTerms(x, a, b).0 == avg * x.cosTheta;
    assert LsTerms(x, a, b).1 == x.cosTheta * x.cosTheta;
  }

  function LsTally<S>(items: seq<Intersection<S>>, a: real, b: real): (real, real)
  {
    if items == [] then (0.0, 0.0)
    else
      var t := LsTally(items[..|items| - 1], a, b);
      var v := LsTerms(items[|items| - 1], a, b);
      (t.0 + v.0, t.1 + v.1)
  }

  /** The least-squares velocity sum(avg cos) / sum(cos^2), 0 where the quotient is undefined. */
  function LsVelocity<S>(items: seq<Intersection<S>>, a: real, b: real): (r: real)
    ensures LsTally(items, a, b).1 != 0.0 ==> r * LsTally(items, a, b).1 == LsTally(items, a, b).0
    ensures LsTally(items, a, b).1 == 0.0 ==> r == 0.0
  {
    var t := LsTally(items, a, b);
    if t.1 == 0.0 then 0.0 else t.0 / t.1
  }

  /** The member LS touches: it calls getAverage only inside the band. */
  function LsTouched<S>(x: Intersection<S>, a: real, b: real): Intersection<S>
  {
    if InClosedBand(x.cosTheta, a, b) then GetAverage(x).0 else x
  }

  /** The member measured avg = v * cos(theta), or lies outside the band. */
  predicate Measured<S>(x: Intersection<S>, a: real, b: real, v: real)
  {
    InClosedBand(x.cosTheta, a, b) ==> GetAverage(x).1 == v * x.cosTheta
  }

  /** A numerator/denominator pair whose numerator is v times its denominator. */
  predicate Proportional(p: (real, real), v: real)
  {
    p.0 == v * p.1
  }

  /**
   * If every member inside the band measured avg = v * cos(theta), the sums are v * sum(cos^2)
   * and sum(cos^2); in particular a zero denominator comes with a zero numerator, so the
   * source's 0/0 is the only undefined case.
   */
  lemma {:induction false} LsTallyProportional<S>(items: seq<Intersection<S>>, a: real, b: real, v: real)
    requires forall k :: 0 <= k < |items| ==> Measured(items[k], a, b, v)
    ensures Proportional(LsTally(items, a, b), v)
  {
    if items != [] {
      var init := items[..|items| - 1];
      var x := items[|items| - 1];
      forall k | 0 <= k < |init| ensures Measured(init[k], a, b, v) {
        assert init[k] == items[k];
      }
      LsTallyProportional(init, a, b, v);
      assert Measured(x, a, b, v);
      TermProportional(x, a, b, v);
      SumProportional(LsTally(init, a, b), LsTerms(x, a, b), v);
    }
  }

  lemma TermProportional<S>(x: Intersection<S>, a: real, b: real, v: real)
    requires Measured(x, a, b, v)
    ensures Proportional(LsTerms(x, a, b), v)
  {
    if InClosedBand(x.cosTheta, a, b) {
      ProportionalTerm(GetAverage(x).1, x.cosTheta, v);
    }
  }

  lemma ProportionalTerm(avg: real, c: real, v: real)
    requires avg == v * c
    ensures Proportional((avg * c, c * c), v)
  {
  }

  lemma SumProportional(t: (real, real), l: (real, real), v: real)
    requires Proportional(t, v) && Proportional(l, v)
    ensures Proportional((t.0 + l.0, t.1 + l.1), v)
  {
  }

  lemma {:induction false} LsDenominatorZero<S>(items: seq<Intersection<S>>, a: real, b: real)
    ensures LsTally(items, a, b).1 >= 0.0
    ensures LsTally(items, a, b).1 == 0.0 ==> LsTally(items, a, b).0 == 0.0
  {
    if items != [] {
      var init := items[..|items| - 1];
      LsDenominatorZero(init, a, b);
      var x := items[|items| - 1];
      var c := x.cosTheta;
      SquareZeroIff(c, c);
    }
  }

  lemma SquareZeroIff(c: real, c': real)
    requires c == c'
    ensures c * c' >= 0.0 && (c * c' == 0.0 <==> c == 0.0)
  {
    ProductWithSelf(c, c');
    var p := c * c';
    if c == 0.0 {
      assert p == 0.0;
    } else {
      assert p > 0.0;
    }
    assert p == 0.0 <==> c == 0.0;
  }

  /** The least-squares estimate recovers v exactly when every used member measured v * cos. */
  lemma LsVelocityExact<S>(items: seq<Intersection<S>>, a: real, b: real, v: real)
    requires forall k :: 0 <= k < |items| ==> Measured(items[k], a, b, v)
    requires LsTally(items, a, b).1 != 0.0
    ensures LsVelocity(items, a, b) == v
  {
    LsTallyProportional(items, a, b, v);
    CancelFactor(LsTally(items, a, b), v);
  }

  lemma CancelFactor(p: (real, real), v: real)
    requires p.1 != 0.0 && Proportional(p, v)
    ensures p.0 / p.1 == v
  {
  }

  /** Every member after getAverage. */
  function Averaged<S>(items: seq<Intersection<S>>): (r: seq<Intersection<S>>)
    ensures |r| == |items| && forall k :: 0 <= k < |items| ==> r[k] == GetAverage(items[k]).0
  {
    seq(|items|, k requires 0 <= k < |items| => GetAverage(items[k]).0)
  }

  /** Every member after estimateVelocityLS's pass. */
  function LsAveraged<S>(items: seq<Intersection<S>>, a: real, b: real): (r: seq<Intersection<S>>)
    ensures |r| == |items| && forall k :: 0 <= k < |items| ==> r[k] == LsTouched(items[k], a, b)
  {
    seq(|items|, k requires 0 <= k < |items| => LsTouched(items[k], a, b))
  }

  /** Every member after correctAliasing(direction, Vnyq). */
  function AllAliasCorrected<S>(items: seq<Intersection<S>>, direction: real, vnyq: real): (r: seq<Intersection<S>>)
    ensures |r| == |items|
    ensures forall k :: 0 <= k < |items| ==> r[k] == AliasCorrected(items[k], direction, vnyq)
  {
    seq(|items|, k requires 0 <= k < |items| => AliasCorrected(items[k], direction, vnyq))
  }

  lemma TallyStep<S>(items: seq<Intersection<S>>, i: int, bigA: real, a: real, b: real)
    requires 0 <= i < |items|
    ensures Tally(items[..i + 1], bigA, a, b)
         == (Tally(items[..i], bigA, a, b).0 + Vote(items[i], bigA, a, b).0,
             Tally(items[..i], bigA, a, b).1 + Vote(items[i], bigA, a, b).1)
  {
    assert items[..i + 1][..i] == items[..i];
  }

  lemma LsTallyStep<S>(items: seq<Intersection<S>>, i: int, a: real, b: real)
    requires 0 <= i < |items|
    ensures LsTally(items[..i + 1], a, b)
         == (LsTally(items[..i], a, b).0 + LsTerms(items[i], a, b).0,
             LsTally(items[..i], a, b).1 + LsTerms(items[i], a, b).1)
  {
    assert items[..i + 1][..i] == items[..i];
  }

  /**
   * The loop of estimateDirection: each member's average is fetched and cached, and its
   * weighted sign vote is added up; the sums are the tally of the members.
   */
  method DirectionPass<S>(members: seq<Intersection<S>>, bigA: real, a: real, b: real)
    returns (xs: seq<Intersection<S>>, votes: real, weights: real)
    ensures xs == Averaged(members)
    ensures (votes, weights) == Tally(members, bigA, a, b)
  {
    xs := members;
    votes := 0.0;
    weights := 0.0;
    var i := 0;
    while i < |xs|
      invariant 0 <= i <= |xs| == |members|
      invariant forall k :: 0 <= k < i ==> xs[k] == GetAverage(members[k]).0
      invariant forall k :: i <= k < |xs| ==> xs[k] == members[k]
      invariant (votes, weights) == Tally(members[..i], bigA, a, b)
    {
      var x := xs[i];
      ghost var before := (votes, weights);
      var w := SampleWeight(x, bigA, a, b);
      var (y, avg) := GetAverage(x);
      xs := xs[i := y];
      var tmp := avg * x.cosTheta;
      VoteIs(x, bigA, a, b, w, tmp);
      if tmp != 0.0 && w.Some? {
        votes := votes + w.value * (Sgn(tmp) as real);
        weights := weights + w.value;
      }
      assert (votes, weights) == (before.0 + Vote(x, bigA, a, b).0, before.1 + Vote(x, bigA, a, b).1);
      TallyStep(members, i, bigA, a, b);
      i := i + 1;
    }
    assert members[..i] == members;
  }

  lemma VoteIs<S>(x: Intersection<S>, bigA: real, a: real, b: real, w: Option<real>, tmp: real)
    requires w == SampleWeight(x, bigA, a, b) && tmp == GetAverage(x).1 * x.cosTheta
    ensures Vote(x, bigA, a, b)
         == if tmp != 0.0 && w.Some? then (w.value * (Sgn(tmp) as real), w.value) else (0.0, 0.0)
  {
  }

  /**
   * The loop of estimateVelocityLS: members inside the closed band have their average fetched
   * and contribute avg * cos and cos^2; the sums are the least-squares tally of the members.
   */
  method LsPass<S>(members: seq<Intersection<S>>, a: real, b: real)
    returns (xs: seq<Intersection<S>>, top: real, bottom: real)
    ensures xs == LsAveraged(members, a, b)
    ensures (top, bottom) == LsTally(members, a, b)
  {
    xs := members;
    top := 0.0;
    bottom := 0.0;
    var i := 0;
    while i < |xs|
      invariant 0 <= i <= |xs| == |members|
      invariant forall k :: 0 <= k < i ==> xs[k] == LsTouched(members[k], a, b)
      invariant forall k :: i <= k < |xs| ==> xs[k] == members[k]
      invariant (top, bottom) == LsTally(members[..i], a, b)
    {
      var x := xs[i];
      ghost var before := (top, bottom);
      if InClosedBand(x.cosTheta, a, b) {
        var (y, avg) := GetAverage(x);
        xs := xs[i := y];
        top := top + avg * x.cosTheta;
        bottom := bottom + x.cosTheta * x.cosTheta;
        LsTermsInBand(x, a, b, avg);
      } else {
        assert LsTerms(x, a, b) == (0.0, 0.0);
      }
      assert (top, bottom) == (before.0 + LsTerms(x, a, b).0, before.1 + LsTerms(x, a, b).1);
      LsTallyStep(members, i, a, b);
      i := i + 1;
    }
    assert members[..i] == members;
  }

  class IntersectionSet<S> {
    /** The std::vector the set is. */
    var items: seq<Intersection<S>>
    var direction: real
    var haveDirection: bool
    var haveVelocity: bool
    var velocityLS: real
    var dirA: real
    var dirB: real
    var dirBigA: real
    var velA: real
    var velB: real

    /** IntersectionSet(): empty, no estimates, the default estimation parameters. */
    constructor ()
      ensures items == [] && direction == 0.0 && velocityLS == 0.0
      ensures !haveDirection && !haveVelocity
      ensures dirA == 0.07 && dirB == 0.9 && dirBigA == 10.0 && velA == 0.17 && velB == 1.0
    {
      items := [];
      direction := 0.0;
      haveDirection := false;
      haveVelocity := false;
      velocityLS := 0.0;
      dirA := 0.07;
      dirB := 0.9;
      dirBigA := 10.0;
      velA := 0.17;
      velB := 1.0;
    }

    /** Everything but the members: the cached estimates, their flags and the parameters. */
    ghost function Settings(): (real, bool, real, bool, real, real, real, real, real)
      reads this
    {
      (direction, haveDirection, velocityLS, haveVelocity, dirA, dirB, dirBigA, velA, velB)
    }

    /** push_back. */
    method Push(x: Intersection<S>)
      modifies this
      ensures items == old(items) + [x] && Settings() == old(Settings())
      ensures direction == old(direction) && haveDirection == old(haveDirection)
      ensures velocityLS == old(velocityLS) && haveVelocity == old(haveVelocity)
      ensures dirA == old(dirA) && dirB == old(dirB) && dirBigA == old(dirBigA)
      ensures velA == old(velA) && velB == old(velB)
    {
      items := items + [x];
    }

    /**
     * estimateDirection: the weighted sign vote over the members; every member's average is
     * fetched (and cached) on the way.
     */
    method EstimateDirection()
      modifies this
      ensures items == Averaged(old(items))
      ensures direction == DirectionOf(old(items), dirBigA, dirA, dirB) && haveDirection
      ensures velocityLS == old(velocityLS) && haveVelocity == old(haveVelocity)
      ensures dirA == old(dirA) && dirB == old(dirB) && dirBigA == old(dirBigA)
      ensures velA == old(velA) && velB == old(velB)
    {
      var xs, votes, weights := DirectionPass(items, dirBigA, dirA, dirB);
      items := xs;
      direction := if weights == 0.0 then 0.0 else votes / weights;
      haveDirection := true;
    }

    /**
     * estimateVelocityLS: sum(avg cos) / sum(cos^2) over the members with a <= |cos| <= b;
     * only those have their average fetched.
     */
    method EstimateVelocityLS()
      modifies this
      ensures items == LsAveraged(old(items), velA, velB)
      ensures velocityLS == LsVelocity(old(items), velA, velB) && haveVelocity
      ensures direction == old(direction) && haveDirection == old(haveDirection)
      ensures dirA == old(dirA) && dirB == old(dirB) && dirBigA == old(dirBigA)
      ensures velA == old(velA) && velB == old(velB)
    {
      var xs, top, bottom := LsPass(items, velA, velB);
      items := xs;
      velocityLS := if bottom == 0.0 then 0.0 else top / bottom;
      haveVelocity := true;
    }

    /** correctAliasing(Vnyq): every member corrected against the current direction, in order. */
    method CorrectAliasing(vnyq: real)
      modifies this
      ensures items == AllAliasCorrected(old(items), direction, vnyq)
      ensures direction == old(direction) && haveDirection == old(haveDirection)
      ensures velocityLS == old(velocityLS) && haveVelocity == old(haveVelocity)
      ensures dirA == old(dirA) && dirB == old(dirB) && dirBigA == old(dirBigA)
      ensures velA == old(velA) && velB == old(velB)
    {
      var i := 0;
      while i < |items|
        invariant 0 <= i <= |items| == |old(items)|
        invariant forall k :: 0 <= k < i ==> items[k] == AliasCorrected(old(items)[k], direction, vnyq)
        invariant forall k :: i <= k < |items| ==> items[k] == old(items)[k]
        invariant direction == old(direction) && haveDirection == old(haveDirection)
        invariant velocityLS == old(velocityLS) && haveVelocity == old(haveVelocity)
        invariant dirA == old(dirA) && dirB == old(dirB) && dirBigA == old(dirBigA)
        invariant velA == old(velA) && velB == old(velB)
      {
        var y := CorrectIntersectionAliasing(items[i], direction, vnyq);
        items := items[i := y];
        i := i + 1;
      }
    }

    /** setDirectionEstimationParameters(A, lower, upper): the cached estimate stays. */
    method SetDirectionEstimationParameters(bigA: real, lower: real, upper: real)
      modifies this
      ensures dirBigA == bigA && dirA == lower && dirB == upper
      ensures items == old(items) && direction == old(direction) && haveDirection == old(haveDirection)
      ensures velocityLS == old(velocityLS) && haveVelocity == old(haveVelocity)
      ensures velA == old(velA) && velB == old(velB)
    {
      dirBigA := bigA;
      dirA := lower;
      dirB := upper;
    }

    /** setVelocityEstimationCutoff(lower, upper): the cached estimate stays. */
    method SetVelocityEstimationCutoff(lower: real, upper: real)
      modifies this
      ensures velA == lower && velB == upper
      ensures items == old(items) && direction == old(direction) && haveDirection == old(haveDirection)
      ensures velocityLS == old(velocityLS) && haveVelocity == old(haveVelocity)
      ensures dirA == old(dirA) && dirB == old(dirB) && dirBigA == old(dirBigA)
    {
      velA := lower;
      velB := upper;
    }

    /** getEstimatedDirection: the cached direction, estimated first if there is none. */
    method GetEstimatedDirection() returns (d: real)
      modifies this
      ensures d == direction && haveDirection
      ensures old(haveDirection) ==> direction == old(direction) && items == old(items)
      ensures !old(haveDirection) ==> d == DirectionOf(old(items), dirBigA, dirA, dirB)
      ensures velocityLS == old(velocityLS) && haveVelocity == old(haveVelocity)
      ensures dirA == old(dirA) && dirB == old(dirB) && dirBigA == old(dirBigA)
      ensures velA == old(velA) && velB == old(velB)
    {
      if !haveDirection {
        EstimateDirection();
      }
      d := direction;
    }

    /** getEstimatedVelocity: the cached LS velocity, estimated first if there is none. */
    method GetEstimatedVelocity() returns (v: real)
      modifies this
      ensures v == velocityLS && haveVelocity
      ensures old(haveVelocity) ==> velocityLS == old(velocityLS) && items == old(items)
      ensures !old(haveVelocity) ==> v == LsVelocity(old(items), velA, velB)
      ensures direction == old(direction) && haveDirection == old(haveDirection)
      ensures dirA == old(dirA) && dirB == old(dirB) && dirBigA == old(dirBigA)
      ensures velA == old(velA) && velB == old(velB)
    {
      if !haveVelocity {
        EstimateVelocityLS();
      }
      v := velocityLS;
    }
  }
}
