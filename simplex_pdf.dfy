/** The SimplexPDF class: a probability distribution over support points in
    [0, 1], held in a TreeMap from point to mass that its methods fill,
    rescale and reassign in place. */
module SimplexPdf {
  import opened RealSeqs
  import opened TreeMaps
  import opened Simplex

  class SimplexPDF {
    /** The TreeMap<Double, Double>, as its entries in ascending key order. */
    var supports: seq<Entry>

    ghost predicate Valid()
      reads this
    {
      Increasing(supports)
    }

    /** An empty distribution. */
    constructor ()
      ensures Valid() && supports == []
    {
      supports := [];
    }

    /** Puts each (point, probability) pair in turn; a repeated point keeps
        the last probability given for it. */
    constructor FromArrays(supportPoints: seq<real>, probabilities: seq<real>)
      requires |probabilities| >= |supportPoints|
      ensures Valid() && supports == FromPairs(supportPoints, probabilities)
    {
      var m: seq<Entry> := [];
      for i := 0 to |supportPoints|
        invariant m == FromPairs(supportPoints[..i], probabilities)
      {
        assert supportPoints[..i + 1][..i] == supportPoints[..i];
        m := Put(m, supportPoints[i], probabilities[i]);
      }
      assert supportPoints[..|supportPoints|] == supportPoints;
      supports := m;
    }

    /** A random distribution on numSupports points that span [0, 1]. */
    constructor Random(numSupports: int)
      requires numSupports >= 2
      ensures Valid() && |supports| == numSupports && IsDistribution(supports)
      ensures supports[0].point == 0.0 && supports[|supports| - 1].point == 1.0
      ensures forall i :: 0 <= i < |supports| ==> supports[i].mass > 0.0
    {
      supports := [];
      new;
      GenerateRandom(numSupports);
    }

    /** getProbability: the mass of a support point; None where the Java
        code unboxes a missing key. */
    function Probability(supportPoint: real): (r: Option<real>)
      reads this
      requires Valid()
      ensures r.Some? <==> supportPoint in Keys(supports)
      ensures forall i :: 0 <= i < |supports| && supports[i].point == supportPoint ==>
        r == Some(supports[i].mass)
    {
      assert forall i :: 0 <= i < |supports| && supports[i].point == supportPoint ==>
        Lookup(supports, supportPoint) == Some(supports[i].mass)
      by {
        forall i | 0 <= i < |supports| && supports[i].point == supportPoint
          ensures Lookup(supports, supportPoint) == Some(supports[i].mass)
        {
          LookupAt(supports, i);
        }
      }
      Lookup(supports, supportPoint)
    }

    /** getSupportSize: the number of distinct support points. */
    function SupportSize(): (n: nat)
      reads this
      requires Valid()
      ensures n == |Keys(supports)|
    {
      KeysCount(supports);
      |supports|
    }

    /** getMedian: scans the points in ascending order, accumulating their
        masses, and returns the first point at which the total reaches one
        half, or -1 when it never does. */
    method Median() returns (m: real)
      requires Valid()
      ensures m == MedianOf(supports)
    {
      var cumulativeProbability := 0.0;
      for i := 0 to |supports|
        invariant cumulativeProbability == Mass(supports[..i])
        invariant forall j :: 0 <= j < i ==> CumulativeMass(supports, j) < 0.5
      {
        MassSnoc(supports, i);
        cumulativeProbability := cumulativeProbability + supports[i].mass;
        if cumulativeProbability >= 0.5 {
          assert CumulativeMass(supports, i) >= 0.5;
          assert FirstHalf(supports, 0) == i;
          return supports[i].point;
        }
      }
      m := -1.0;
    }

    /** getWinner: the candidate closer to the median, p2 on a tie. */
    method Winner(p1: real, p2: real) returns (w: real)
      requires Valid()
      ensures w == WinnerOf(supports, p1, p2)
    {
      var m1 := Median();
      var m2 := Median();
      w := if Abs(m1 - p1) < Abs(m2 - p2) then p1 else p2;
    }

    /** The social cost of p, summed over the support in ascending order. */
    method Cost(p: real) returns (sc: real)
      requires Valid()
      ensures sc == SocialCost(supports, p)
    {
      sc := 0.0;
      for i := 0 to |supports|
        invariant sc == Sum(Costs(supports, p)[..i])
      {
        SumSnoc(Costs(supports, p), i);
        sc := sc + supports[i].mass * Abs(supports[i].point - p);
      }
      assert Costs(supports, p)[..|supports|] == Costs(supports, p);
    }

    /** getDistortion: -100 when either point is not in the support;
        otherwise the winner's social cost over the loser's when the winner
        costs strictly more, and 1 when it does not. */
    method Distortion(p1: real, p2: real) returns (d: real)
      requires Valid() && IsDistribution(supports)
      ensures d == DistortionOf(supports, p1, p2)
    {
      if p1 !in Keys(supports) || p2 !in Keys(supports) {
        return -100.0;
      }
      var winner := Winner(p1, p2);
      var sc1 := Cost(p1);
      var sc2 := Cost(p2);
      LoserCostPositive(supports, p1, p2);
      if p1 == winner && sc1 > sc2 {
        d := sc1 / sc2;
      } else if p2 == winner && sc2 > sc1 {
        d := sc2 / sc1;
      } else {
        d := 1.0;
      }
    }

    /** getExpectedDistortion: over every ordered pair of support points,
        the diagonal included, adds mass * mass * distortion. */
    method ExpectedDistortion() returns (dist: real)
      requires Valid() && IsDistribution(supports)
      ensures dist == ExpectedDistortionOf(supports)
    {
      dist := 0.0;
      for i := 0 to |supports|
        invariant dist == Sum(RowTotals(supports)[..i])
      {
        ghost var before := dist;
        var sp1 := supports[i].point;
        for j := 0 to |supports|
          invariant dist == before + Sum(Row(supports, i)[..j])
        {
          var sp2 := supports[j].point;
          assert Probability(sp1) == Some(supports[i].mass) by { LookupAt(supports, i); }
          assert Probability(sp2) == Some(supports[j].mass) by { LookupAt(supports, j); }
          var m1, m2 := Probability(sp1).value, Probability(sp2).value;
          var d := Distortion(sp1, sp2);
          assert Masses(supports)[j] == m2 && Distortions(supports, i)[j] == d;
          WeightedRowSnoc(m1, Masses(supports), Distortions(supports, i), j, m2, d);
          dist := dist + m1 * m2 * d;
        }
        assert Row(supports, i)[..|supports|] == Row(supports, i);
        SumSnoc(RowTotals(supports), i);
      }
      assert RowTotals(supports)[..|supports|] == RowTotals(supports);
    }

    /** generateRandom: fresh support points, rescaled to span [0, 1], then
        masses drawn as the gaps between uniform cut points. */
    method GenerateRandom(numSupports: int)
      requires Valid() && numSupports >= 2
      modifies this
      ensures Valid() && |supports| == numSupports && IsDistribution(supports)
      ensures supports[0].point == 0.0 && supports[|supports| - 1].point == 1.0
      ensures forall i :: 0 <= i < |supports| ==> supports[i].mass > 0.0
    {
      GenerateSupports(numSupports);
      ghost var generated := supports;
      Normalize();
      NormalizedSpansUnitInterval(generated);
      ghost var normalized := supports;
      ghost var cuts := GenerateRandomUniformInterval();
      assert Points(supports)[0] == Points(normalized)[0];
      assert Points(supports)[|supports| - 1] == Points(normalized)[|supports| - 1];
    }

    /** generateSupports: numSupports distinct points drawn from [0, 1), each
        with mass 0; a draw that repeats a point already present is redrawn. */
    method GenerateSupports(numSupports: int)
      requires Valid()
      modifies this
      ensures Valid()
      ensures |supports| == if numSupports > 0 then numSupports else 0
      ensures forall i :: 0 <= i < |supports| ==>
        supports[i].mass == 0.0 && 0.0 <= supports[i].point < 1.0
    {
      supports := [];
      var i := 0;
      while i < numSupports
        invariant Valid() && 0 <= i && (i <= numSupports || i == 0)
        invariant |supports| == i
        invariant forall k :: 0 <= k < |supports| ==>
          supports[k].mass == 0.0 && 0.0 <= supports[k].point < 1.0
      {
        FreshPoint(Points(supports), 0.0, 1.0);
        var supportPoint :| 0.0 <= supportPoint < 1.0 && supportPoint !in Points(supports);
        PutFresh(supports, supportPoint, 0.0);
        var next := Put(supports, supportPoint, 0.0);
        forall k | 0 <= k < |next| ensures next[k].mass == 0.0 && 0.0 <= next[k].point < 1.0 {
          assert next[k] in next;
          if next[k] != Entry(supportPoint, 0.0) {
            var j :| 0 <= j < |supports| && supports[j] == next[k];
          }
        }
        supports := next;
        i := i + 1;
      }
    }

    /** normalize: rescales the points by the affine map sending the least to
        0 and the greatest to 1, leaving the masses; nothing changes when the
        points already run from 0 to 1. */
    method Normalize()
      requires Valid() && |supports| >= 2
      modifies this
      ensures Valid() && supports == NormalizedOf(old(supports))
    {
      var s := supports;
      var supportMin := MinKey(s);
      var supportMax := MaxKey(s);
      if supportMin == 0.0 && supportMax == 1.0 {
        return;
      }
      assert s[0].point < s[1].point;
      var newSupports: seq<Entry> := [];
      for i := 0 to |s|
        invariant newSupports == Rescaled(s[..i], supportMin, supportMax)
      {
        var x := (s[i].point - supportMin) / (supportMax - supportMin);
        RescaledPut(s, i, supportMin, supportMax, x, s[i].mass);
        newSupports := Put(newSupports, x, s[i].mass);
      }
      assert s[..|s|] == s;
      RescaledIncreasing(s, supportMin, supportMax);
      supports := newSupports;
    }

    /** generateRandomNormal: draws a weight in (0, 1) for every point, then
        divides each by the total, so the masses are positive and sum to 1. */
    method GenerateRandomNormal() returns (ghost weights: seq<real>)
      requires Valid()
      modifies this
      ensures Valid() && |weights| == |supports| == |old(supports)|
      ensures forall i :: 0 <= i < |weights| ==> 0.0 < weights[i] < 1.0
      ensures |weights| > 0 ==> Sum(weights) > 0.0 && supports == WithMasses(old(supports), Shares(weights))
      ensures |weights| > 0 ==> Mass(supports) == 1.0
      ensures forall i :: 0 <= i < |supports| ==> supports[i].mass > 0.0
    {
      ghost var s0 := supports;
      var totalProbability := 0.0;
      weights := [];
      ReassignedEnds(s0, Masses(s0));
      for i := 0 to |supports|
        invariant |weights| == i && supports == Reassigned(s0, weights)
        invariant forall k :: 0 <= k < i ==> InOpenUnit(weights[k])
        invariant totalProbability == Sum(weights)
      {
        assert InOpenUnit(0.5);
        var probability :| InOpenUnit(probability);
        ReassignedStep(s0, weights, probability);
        supports := Put(supports, supports[i].point, probability);
        SumConcat(weights, [probability]);
        totalProbability := totalProbability + probability;
        weights := weights + [probability];
      }
      ghost var s1 := supports;
      ReassignedEnds(s0, weights);
      if |weights| > 0 {
        SharesSumToOne(weights);
        ReassignedEnds(s1, Shares(weights));
      }
      for i := 0 to |supports|
        invariant |supports| == |s1|
        invariant |weights| > 0 ==> supports == Reassigned(s1, Shares(weights)[..i])
        invariant |weights| == 0 ==> supports == s1
      {
        ReassignedPrefixStep(s1, Shares(weights), i);
        supports := Put(supports, supports[i].point, supports[i].mass / totalProbability);
      }
      if |weights| > 0 {
        assert Shares(weights)[..|weights|] == Shares(weights);
      }
    }

    /** The first loop of generateRandomUniformInterval: starts from the
        cut points 0 and 1 and adds count points drawn from (0, 1), each
        different from every point already there. */
    method DrawCuts(count: int) returns (intervals: seq<real>)
      ensures |intervals| == (if count > 0 then count else 0) + 2
      ensures intervals[0] == 0.0 && intervals[1] == 1.0
      ensures Distinct(intervals)
      ensures forall k :: 2 <= k < |intervals| ==> 0.0 < intervals[k] < 1.0
    {
      intervals := [0.0, 1.0];
      var i := 0;
      while i < count
        invariant 0 <= i && (i <= count || i == 0)
        invariant |intervals| == i + 2 && intervals[0] == 0.0 && intervals[1] == 1.0
        invariant Distinct(intervals)
        invariant forall k :: 2 <= k < |intervals| ==> 0.0 < intervals[k] < 1.0
      {
        FreshPoint(intervals, 0.5, 1.0);
        var ip :| 0.0 < ip < 1.0 && ip !in intervals;
        DistinctSnoc(intervals, ip);
        intervals := intervals + [ip];
        i := i + 1;
      }
    }

    /** generateRandomUniformInterval: cuts [0, 1] at size - 1 distinct
        points drawn from (0, 1) and gives the i-th support point the length
        of the i-th piece, so the masses are positive and sum to 1. */
    method GenerateRandomUniformInterval() returns (ghost bounds: seq<real>)
      requires Valid()
      modifies this
      ensures Valid() && |supports| == |old(supports)| && Points(supports) == Points(old(supports))
      ensures |supports| > 0 ==>
        && |bounds| == |supports| + 1 && StrictlyIncreasing(bounds)
        && bounds[0] == 0.0 && bounds[|supports|] == 1.0
        && supports == WithMasses(old(supports), Gaps(bounds))
        && Mass(supports) == 1.0
      ensures forall i :: 0 <= i < |supports| ==> supports[i].mass > 0.0
    {
      var intervals := DrawCuts(|supports| - 1);
      assert 0.0 == intervals[0] && 1.0 == intervals[1];
      assert forall k :: 0 <= k < |intervals| ==> 0.0 <= intervals[k] <= 1.0;
      SortedCutsSpanUnit(intervals);
      var sorted := Sort(intervals);
      ghost var s0 := supports;
      ghost var gaps := Gaps(sorted);
      assert |s0| > 0 ==> |gaps| == |s0| && |sorted| == |s0| + 1;
      if |s0| > 0 {
        ReassignedEnds(s0, gaps);
      }
      for k := 0 to |supports|
        invariant |supports| == |s0| && k <= |gaps|
        invariant supports == Reassigned(s0, gaps[..k])
      {
        ReassignedPrefixStep(s0, gaps, k);
        var gap := sorted[k + 1] - sorted[k];
        assert gap == gaps[k];
        var next := Put(supports, supports[k].point, gap);
        assert next == Reassigned(s0, gaps[..k + 1]);
        supports := next;
      }
      bounds := sorted;
      if |s0| > 0 {
        assert gaps[..|s0|] == gaps;
        GapMasses(s0, bounds);
      }
    }
  }
}
