/** What a simplex PDF computes: its median, the head-to-head winner of two
    points, their social costs and distortion, the expected distortion, and
    the arithmetic of the generation and normalisation steps, stated as
    functions of the ordered entry sequence with the lemmas that say what
    they mean. */
module Simplex {
  import opened RealSeqs
  import opened TreeMaps

  /** A simplex PDF proper: distinct ascending support points carrying
      nonnegative masses that sum to one. */
  predicate IsDistribution(s: seq<Entry>)
  {
    Increasing(s) && NonNegative(s) && Mass(s) == 1.0
  }

  // ---------------------------------------------------------------- median

  /** The cumulative mass of the entries up to and including index k. */
  function CumulativeMass(s: seq<Entry>, k: nat): real
    requires k < |s|
  {
    Mass(s[..k + 1])
  }

  /** The first index k >= i at which the cumulative mass, summed in
      ascending point order, reaches one half; |s| when there is none. */
  function FirstHalf(s: seq<Entry>, i: nat): (k: nat)
    requires i <= |s|
    ensures i <= k <= |s|
    ensures k < |s| ==> CumulativeMass(s, k) >= 0.5
    ensures forall j :: i <= j < k ==> CumulativeMass(s, j) < 0.5
    decreases |s| - i
  {
    if i == |s| then |s|
    else if CumulativeMass(s, i) >= 0.5 then i
    else FirstHalf(s, i + 1)
  }

  /** getMedian: the first support point whose cumulative mass reaches one
      half, or the sentinel -1 when no prefix does. */
  function MedianOf(s: seq<Entry>): real
  {
    var k := FirstHalf(s, 0);
    if k < |s| then s[k].point else -1.0
  }

  /** The median is the point at the first index whose cumulative mass
      reaches one half, and -1 when there is no such index. */
  lemma MedianIsFirstHalfPoint(s: seq<Entry>)
    ensures (forall k :: 0 <= k < |s| ==> CumulativeMass(s, k) < 0.5) ==> MedianOf(s) == -1.0
    ensures forall k ::
      (0 <= k < |s| && CumulativeMass(s, k) >= 0.5 && (forall j :: 0 <= j < k ==> CumulativeMass(s, j) < 0.5))
      ==> MedianOf(s) == s[k].point
  {
    var f := FirstHalf(s, 0);
    forall k | 0 <= k < |s| && CumulativeMass(s, k) >= 0.5 &&
      (forall j :: 0 <= j < k ==> CumulativeMass(s, j) < 0.5)
      ensures MedianOf(s) == s[k].point
    {
      assert f <= k;
    }
  }

  /** A distribution's median is one of its support points. */
  lemma MedianInSupport(s: seq<Entry>)
    requires IsDistribution(s) && |s| > 0
    ensures MedianOf(s) in Keys(s)
  {
    assert s[..|s|] == s;
    assert CumulativeMass(s, |s| - 1) == 1.0;
  }

  // ---------------------------------------------------------------- winner

  /** getWinner: p1 when it is strictly closer to the median than p2,
      otherwise p2, so a tie goes to p2. */
  function WinnerOf(s: seq<Entry>, p1: real, p2: real): (w: real)
    ensures w == p1 || w == p2
    ensures Abs(MedianOf(s) - w) <= Abs(MedianOf(s) - p1)
    ensures Abs(MedianOf(s) - w) <= Abs(MedianOf(s) - p2)
    ensures w == p1 && p1 != p2 ==> Abs(MedianOf(s) - p1) < Abs(MedianOf(s) - p2)
    ensures Abs(MedianOf(s) - p1) == Abs(MedianOf(s) - p2) ==> w == p2
  {
    if Abs(MedianOf(s) - p1) < Abs(MedianOf(s) - p2) then p1 else p2
  }

  // ----------------------------------------------------------- social cost

  /** The terms mass(x) * |x - p| of the social cost of p. */
  function Costs(s: seq<Entry>, p: real): (r: seq<real>)
    ensures |r| == |s|
  {
    seq(|s|, i requires 0 <= i < |s| => s[i].mass * Abs(s[i].point - p))
  }

  /** The social cost of p: the sum over the support of mass(x) * |x - p|. */
  function SocialCost(s: seq<Entry>, p: real): real
  {
    Sum(Costs(s, p))
  }

  lemma SocialCostNonNegative(s: seq<Entry>, p: real)
    requires NonNegative(s)
    ensures SocialCost(s, p) >= 0.0
  {
    SumNonNegative(Costs(s, p));
  }

  lemma MassOfZeros(s: seq<Entry>)
    requires forall i :: 0 <= i < |s| ==> s[i].mass == 0.0
    ensures Mass(s) == 0.0
  {
    SumMonotone(Masses(s), seq(|s|, i => 0.0));
    SumMonotone(seq(|s|, i => 0.0), Masses(s));
    SumScaled(0.0, seq(|s|, i => 0.0));
    assert Scaled(0.0, seq(|s|, i => 0.0)) == seq(|s|, i => 0.0);
  }

  /** When p costs nothing, every other point carries no mass. */
  lemma ZeroCostMassAtPoint(s: seq<Entry>, p: real)
    requires NonNegative(s) && SocialCost(s, p) == 0.0
    ensures forall i :: 0 <= i < |s| && s[i].point != p ==> s[i].mass == 0.0
  {
    var c := Costs(s, p);
    forall i | 0 <= i < |s| ensures c[i] >= 0.0 {
      assert c[i] == s[i].mass * Abs(s[i].point - p);
    }
    SumZeroTerms(c);
    forall i | 0 <= i < |s| && s[i].point != p ensures s[i].mass == 0.0 {
      assert c[i] == s[i].mass * Abs(s[i].point - p) == 0.0;
    }
  }

  /** When p costs nothing, all of the mass sits on p, so p is the median. */
  lemma ZeroCostIsMedian(s: seq<Entry>, p: real)
    requires Increasing(s) && NonNegative(s) && Mass(s) >= 0.5
    requires p in Keys(s) && SocialCost(s, p) == 0.0
    ensures MedianOf(s) == p
  {
    ZeroCostMassAtPoint(s, p);
    var idx :| 0 <= idx < |s| && s[idx].point == p;
    forall j | 0 <= j < idx ensures CumulativeMass(s, j) == 0.0 {
      MassOfZeros(s[..j + 1]);
    }
    MassBeforeEmptyTail(s, idx);
    var f := FirstHalf(s, 0);
    assert f == idx;
  }

  /** When no mass lies above index k, the mass up to k is all of it. */
  lemma MassBeforeEmptyTail(s: seq<Entry>, k: nat)
    requires k < |s| && forall i :: k < i < |s| ==> s[i].mass == 0.0
    ensures CumulativeMass(s, k) == Mass(s)
  {
    assert s == s[..k + 1] + s[k + 1..];
    assert Masses(s) == Masses(s[..k + 1]) + Masses(s[k + 1..]);
    SumConcat(Masses(s[..k + 1]), Masses(s[k + 1..]));
    MassOfZeros(s[k + 1..]);
  }

  /** The ratio the distortion divides by is never taken over a zero cost:
      a loser with zero cost would hold all the mass and be the median, and
      could not have lost. */
  lemma LoserCostPositive(s: seq<Entry>, p1: real, p2: real)
    requires Increasing(s) && NonNegative(s) && Mass(s) >= 0.5
    requires p1 in Keys(s) && p2 in Keys(s)
    ensures WinnerOf(s, p1, p2) == p1 && SocialCost(s, p1) > SocialCost(s, p2) ==> SocialCost(s, p2) > 0.0
    ensures WinnerOf(s, p1, p2) == p2 && SocialCost(s, p2) > SocialCost(s, p1) ==> SocialCost(s, p1) > 0.0
  {
    SocialCostNonNegative(s, p1);
    SocialCostNonNegative(s, p2);
    if SocialCost(s, p2) == 0.0 {
      ZeroCostIsMedian(s, p2);
    }
    if SocialCost(s, p1) == 0.0 {
      ZeroCostIsMedian(s, p1);
    }
  }

  // ------------------------------------------------------------ distortion

  /** getDistortion: -100 when either point is not a key; otherwise the
      winner's social cost over the loser's when the winner costs strictly
      more, and 1 in every other case. */
  function DistortionOf(s: seq<Entry>, p1: real, p2: real): (r: real)
    requires IsDistribution(s)
    ensures p1 !in Keys(s) || p2 !in Keys(s) ==> r == -100.0
    ensures p1 in Keys(s) && p2 in Keys(s) ==> r >= 1.0
    ensures p1 in Keys(s) && p1 == p2 ==> r == 1.0
  {
    if p1 !in Keys(s) || p2 !in Keys(s) then -100.0
    else
      var winner := WinnerOf(s, p1, p2);
      var sc1 := SocialCost(s, p1);
      var sc2 := SocialCost(s, p2);
      LoserCostPositive(s, p1, p2);
      if p1 == winner && sc1 > sc2 then sc1 / sc2
      else if p2 == winner && sc2 > sc1 then sc2 / sc1
      else 1.0
  }

  /** For two distinct support points the distortion is the winner's cost
      over the loser's exactly when the winner costs strictly more, and 1
      otherwise; the loser's cost is then positive. */
  lemma DistortionIsCostRatio(s: seq<Entry>, p1: real, p2: real)
    requires IsDistribution(s) && p1 in Keys(s) && p2 in Keys(s) && p1 != p2
    ensures var w := WinnerOf(s, p1, p2);
            var l := if w == p1 then p2 else p1;
            if SocialCost(s, w) > SocialCost(s, l)
            then SocialCost(s, l) > 0.0 && DistortionOf(s, p1, p2) == SocialCost(s, w) / SocialCost(s, l)
            else DistortionOf(s, p1, p2) == 1.0
  {
    LoserCostPositive(s, p1, p2);
  }

  // -------------------------------------------------- expected distortion

  /** The distortions of p_i against every support point, in key order. */
  function Distortions(s: seq<Entry>, i: nat): (r: seq<real>)
    requires IsDistribution(s) && i < |s|
    ensures |r| == |s|
  {
    seq(|s|, j requires 0 <= j < |s| => DistortionOf(s, s[i].point, s[j].point))
  }

  /** Each of them is at least 1, as both points are keys. */
  lemma DistortionsAtLeastOne(s: seq<Entry>, i: nat)
    requires IsDistribution(s) && i < |s|
    ensures forall j :: 0 <= j < |s| ==> Distortions(s, i)[j] >= 1.0
  {
    forall j | 0 <= j < |s| ensures Distortions(s, i)[j] >= 1.0 {
      assert s[i].point in Keys(s) && s[j].point in Keys(s);
    }
  }

  /** The weight of one ordered pair in the expected distortion. */
  function PairTerm(m1: real, m2: real, d: real): real
  {
    m1 * m2 * d
  }

  /** The terms m * ms[j] * ds[j]: one row of the double sum. */
  function WeightedRow(m: real, ms: seq<real>, ds: seq<real>): (r: seq<real>)
    requires |ds| == |ms|
    ensures |r| == |ms|
  {
    seq(|ms|, j requires 0 <= j < |ms| => PairTerm(m, ms[j], ds[j]))
  }

  /** Adding a row's terms one at a time, as getExpectedDistortion does. */
  lemma WeightedRowSnoc(m: real, ms: seq<real>, ds: seq<real>, j: nat, w: real, d: real)
    requires |ds| == |ms| && j < |ms| && ms[j] == w && ds[j] == d
    ensures Sum(WeightedRow(m, ms, ds)[..j + 1]) == Sum(WeightedRow(m, ms, ds)[..j]) + m * w * d
  {
    SumSnoc(WeightedRow(m, ms, ds), j);
  }

  lemma WeightAtMostTerm(a: real, b: real, d: real)
    requires a >= 0.0 && b >= 0.0 && d >= 1.0
    ensures a * b <= PairTerm(a, b, d)
  {
    var p := a * b;
    assert p >= 0.0;
    assert p * d - p == p * (d - 1.0);
  }

  /** With nonnegative weights and factors of at least 1, each term of a row
      is at least m times its weight, and so is the row's sum. */
  lemma WeightedRowAtLeast(m: real, ms: seq<real>, ds: seq<real>)
    requires |ds| == |ms| && m >= 0.0
    requires forall j :: 0 <= j < |ms| ==> ms[j] >= 0.0 && ds[j] >= 1.0
    ensures Sum(Scaled(m, ms)) <= Sum(WeightedRow(m, ms, ds))
  {
    var lower, row := Scaled(m, ms), WeightedRow(m, ms, ds);
    forall j | 0 <= j < |ms| ensures lower[j] <= row[j] {
      WeightAtMostTerm(m, ms[j], ds[j]);
    }
    SumMonotone(lower, row);
  }

  /** The terms mass(p_i) * mass(p_j) * distortion(p_i, p_j), j ascending. */
  function Row(s: seq<Entry>, i: nat): (r: seq<real>)
    requires IsDistribution(s) && i < |s|
    ensures |r| == |s|
  {
    WeightedRow(s[i].mass, Masses(s), Distortions(s, i))
  }

  function RowTotals(s: seq<Entry>): (r: seq<real>)
    requires IsDistribution(s)
    ensures |r| == |s|
  {
    seq(|s|, i requires 0 <= i < |s| => Sum(Row(s, i)))
  }

  /** getExpectedDistortion: the sum over all ordered pairs of support
      points, the diagonal included, of mass * mass * distortion. */
  function ExpectedDistortionOf(s: seq<Entry>): real
    requires IsDistribution(s)
  {
    Sum(RowTotals(s))
  }

  /** A row adds up to at least the mass of its point. */
  lemma RowAtLeastMass(s: seq<Entry>, i: nat)
    requires IsDistribution(s) && i < |s|
    ensures s[i].mass <= RowTotals(s)[i]
  {
    DistortionsAtLeastOne(s, i);
    WeightedRowAtLeast(s[i].mass, Masses(s), Distortions(s, i));
    assert Sum(Scaled(s[i].mass, Masses(s))) == s[i].mass by {
      SumScaled(s[i].mass, Masses(s));
    }
  }

  /** Every pairwise distortion is at least 1 and the pair weights sum to 1,
      so the expected distortion is at least 1. */
  lemma ExpectedDistortionAtLeastOne(s: seq<Entry>)
    requires IsDistribution(s)
    ensures ExpectedDistortionOf(s) >= 1.0
  {
    forall i | 0 <= i < |s| ensures Masses(s)[i] <= RowTotals(s)[i] {
      RowAtLeastMass(s, i);
    }
    SumMonotone(Masses(s), RowTotals(s));
  }

  // ------------------------------------------------------------- normalize

  /** Collections.min over the key set. */
  function MinKey(s: seq<Entry>): (r: real)
    requires Increasing(s) && |s| > 0
    ensures r in Keys(s) && forall i :: 0 <= i < |s| ==> r <= s[i].point
  {
    s[0].point
  }

  /** Collections.max over the key set. */
  function MaxKey(s: seq<Entry>): (r: real)
    requires Increasing(s) && |s| > 0
    ensures r in Keys(s) && forall i :: 0 <= i < |s| ==> s[i].point <= r
  {
    s[|s| - 1].point
  }

  /** The affine map taking lo to 0 and hi to 1. */
  function Scale(x: real, lo: real, hi: real): real
    requires lo < hi
  {
    (x - lo) / (hi - lo)
  }

  lemma ScaleMonotone(x: real, y: real, lo: real, hi: real)
    requires lo < hi && x < y
    ensures Scale(x, lo, hi) < Scale(y, lo, hi)
  {
    var d := hi - lo;
    assert Scale(y, lo, hi) - Scale(x, lo, hi) == (y - x) / d;
  }

  /** Every key rescaled, every mass kept. */
  function Rescaled(s: seq<Entry>, lo: real, hi: real): (r: seq<Entry>)
    requires lo < hi
    ensures |r| == |s|
  {
    seq(|s|, i requires 0 <= i < |s| => Entry(Scale(s[i].point, lo, hi), s[i].mass))
  }

  lemma RescaledIncreasing(s: seq<Entry>, lo: real, hi: real)
    requires lo < hi && Increasing(s)
    ensures Increasing(Rescaled(s, lo, hi))
  {
    forall i, j | 0 <= i < j < |s|
      ensures Rescaled(s, lo, hi)[i].point < Rescaled(s, lo, hi)[j].point
    {
      ScaleMonotone(s[i].point, s[j].point, lo, hi);
    }
  }

  /** Rescaling an increasing map one entry at a time, in key order,
      appends each rescaled entry above all the earlier ones. */
  lemma RescaledSnoc(s: seq<Entry>, i: nat, lo: real, hi: real)
    requires lo < hi && Increasing(s) && i < |s|
    ensures Increasing(Rescaled(s[..i], lo, hi))
    ensures forall k :: 0 <= k < i ==> Rescaled(s[..i], lo, hi)[k].point < Scale(s[i].point, lo, hi)
    ensures Rescaled(s[..i + 1], lo, hi) == Rescaled(s[..i], lo, hi) + [Entry(Scale(s[i].point, lo, hi), s[i].mass)]
  {
    assert Increasing(s[..i]);
    RescaledIncreasing(s[..i], lo, hi);
    forall k | 0 <= k < i ensures Rescaled(s[..i], lo, hi)[k].point < Scale(s[i].point, lo, hi) {
      ScaleMonotone(s[k].point, s[i].point, lo, hi);
    }
  }

  /** The put of one rescaled entry in that loop. */
  lemma RescaledPut(s: seq<Entry>, i: nat, lo: real, hi: real, x: real, m: real)
    requires lo < hi && Increasing(s) && i < |s|
    requires x == Scale(s[i].point, lo, hi) && m == s[i].mass
    ensures Increasing(Rescaled(s[..i], lo, hi))
    ensures Put(Rescaled(s[..i], lo, hi), x, m) == Rescaled(s[..i + 1], lo, hi)
  {
    RescaledSnoc(s, i, lo, hi);
    PutLast(Rescaled(s[..i], lo, hi), x, m);
  }

  /** normalize: unchanged when the keys already span [0, 1], otherwise
      rescaled by the affine map taking the least key to 0 and the greatest
      to 1. */
  function NormalizedOf(s: seq<Entry>): seq<Entry>
    requires Increasing(s) && |s| >= 2
  {
    var lo, hi := MinKey(s), MaxKey(s);
    if lo == 0.0 && hi == 1.0 then s else Rescaled(s, lo, hi)
  }

  /** The normalised PDF keeps the order and every mass, sends each key x
      to (x - min) / (max - min), and so spans exactly [0, 1]. */
  lemma NormalizedSpansUnitInterval(s: seq<Entry>)
    requires Increasing(s) && |s| >= 2
    ensures var r := NormalizedOf(s);
      && |r| == |s| && Increasing(r)
      && Masses(r) == Masses(s)
      && (forall i :: 0 <= i < |s| ==>
            r[i].point == Scale(s[i].point, MinKey(s), MaxKey(s)) && 0.0 <= r[i].point <= 1.0)
      && r[0].point == 0.0 && r[|r| - 1].point == 1.0
  {
    var lo, hi := MinKey(s), MaxKey(s);
    assert lo < hi;
    RescaledIncreasing(s, lo, hi);
    var r := NormalizedOf(s);
    assert Scale(lo, lo, hi) == 0.0 && Scale(hi, lo, hi) == 1.0;
    forall i | 0 <= i < |s|
      ensures r[i].point == Scale(s[i].point, lo, hi) && 0.0 <= r[i].point <= 1.0
    {
      if lo == 0.0 && hi == 1.0 {
        assert Scale(s[i].point, lo, hi) == s[i].point;
      }
      if s[i].point < hi {
        ScaleMonotone(s[i].point, hi, lo, hi);
      }
      if lo < s[i].point {
        ScaleMonotone(lo, s[i].point, lo, hi);
      }
    }
  }

  /** Normalising twice is normalising once. */
  lemma NormalizeIdempotent(s: seq<Entry>)
    requires Increasing(s) && |s| >= 2
    ensures Increasing(NormalizedOf(s)) && |NormalizedOf(s)| >= 2
    ensures NormalizedOf(NormalizedOf(s)) == NormalizedOf(s)
  {
    NormalizedSpansUnitInterval(s);
  }

  // ------------------------------------------------- probability assignment

  /** The same keys, in the same order, with the masses ms. */
  function WithMasses(s: seq<Entry>, ms: seq<real>): (r: seq<Entry>)
    requires |ms| == |s|
    ensures |r| == |s| && Points(r) == Points(s) && Masses(r) == ms
    ensures Increasing(s) ==> Increasing(r)
  {
    seq(|s|, i requires 0 <= i < |s| => Entry(s[i].point, ms[i]))
  }

  /** The map s part-way through having its masses reassigned in key order:
      the first |ms| points carry the masses ms, the rest their old ones. */
  function Reassigned(s: seq<Entry>, ms: seq<real>): (r: seq<Entry>)
    requires |ms| <= |s|
    ensures |r| == |s|
    ensures Increasing(s) ==> Increasing(r)
  {
    seq(|s|, i requires 0 <= i < |s| => Entry(s[i].point, if i < |ms| then ms[i] else s[i].mass))
  }

  /** Nothing reassigned is the map itself; everything reassigned is the
      map with the new masses. */
  lemma ReassignedEnds(s: seq<Entry>, ms: seq<real>)
    requires |ms| == |s|
    ensures Reassigned(s, []) == s
    ensures Reassigned(s, ms) == WithMasses(s, ms)
  {
  }

  /** Putting the next point's new mass extends the reassigned prefix. */
  lemma ReassignedStep(s: seq<Entry>, ms: seq<real>, m: real)
    requires Increasing(s) && |ms| < |s|
    ensures Reassigned(s, ms)[|ms|].point == s[|ms|].point
    ensures Put(Reassigned(s, ms), s[|ms|].point, m) == Reassigned(s, ms + [m])
  {
    var t := Reassigned(s, ms);
    PutAt(t, |ms|, m);
    assert t[|ms| := Entry(t[|ms|].point, m)] == Reassigned(s, ms + [m]);
  }

  /** The same step, reassigning from a sequence fixed in advance. */
  lemma ReassignedPrefixStep(s: seq<Entry>, ms: seq<real>, k: nat)
    requires Increasing(s) && |ms| == |s| && k < |s|
    ensures Reassigned(s, ms[..k])[k].point == s[k].point
    ensures Put(Reassigned(s, ms[..k]), s[k].point, ms[k]) == Reassigned(s, ms[..k + 1])
  {
    ReassignedStep(s, ms[..k], ms[k]);
    assert ms[..k] + [ms[k]] == ms[..k + 1];
  }

  /** The lengths of the intervals between consecutive cut points. */
  function Gaps(b: seq<real>): (r: seq<real>)
    requires |b| >= 1
    ensures |r| == |b| - 1
    ensures StrictlyIncreasing(b) ==> forall i :: 0 <= i < |r| ==> r[i] > 0.0
  {
    seq(|b| - 1, i requires 0 <= i < |b| - 1 => b[i + 1] - b[i])
  }

  /** The interval lengths telescope to the distance between the end points. */
  lemma {:induction false} GapsTelescope(b: seq<real>)
    requires |b| >= 1
    ensures Sum(Gaps(b)) == b[|b| - 1] - b[0]
  {
    if |b| > 1 {
      GapsTelescope(b[1..]);
      assert Gaps(b)[1..] == Gaps(b[1..]);
    }
  }

  /** Sorting the cut points together with 0 and 1, all of them distinct and
      in [0, 1], puts 0 first and 1 last. */
  lemma SortedCutsSpanUnit(cuts: seq<real>)
    requires Distinct(cuts) && 0.0 in cuts && 1.0 in cuts
    requires forall k :: 0 <= k < |cuts| ==> 0.0 <= cuts[k] <= 1.0
    ensures var b := Sort(cuts);
      |b| == |cuts| && StrictlyIncreasing(b) && b[0] == 0.0 && b[|b| - 1] == 1.0
  {
    var b := Sort(cuts);
    SortSorted(cuts);
    assert 0.0 in multiset(b) && 1.0 in multiset(b);
    var i :| 0 <= i < |b| && b[i] == 0.0;
    var j :| 0 <= j < |b| && b[j] == 1.0;
    AllInUnit(cuts, b, 0);
    AllInUnit(cuts, b, |b| - 1);
  }

  lemma AllInUnit(cuts: seq<real>, b: seq<real>, k: nat)
    requires multiset(b) == multiset(cuts) && k < |b|
    requires forall k :: 0 <= k < |cuts| ==> 0.0 <= cuts[k] <= 1.0
    ensures 0.0 <= b[k] <= 1.0
  {
    assert b[k] in multiset(cuts);
  }

  /** A value Math.random() can return once 0 is redrawn. */
  predicate InOpenUnit(p: real)
  {
    0.0 < p < 1.0
  }

  /** Masses taken as the gaps between cut points that rise strictly from
      0 to 1 are positive and sum to 1. */
  lemma GapMasses(s: seq<Entry>, b: seq<real>)
    requires |s| > 0 && |b| == |s| + 1 && StrictlyIncreasing(b)
    requires b[0] == 0.0 && b[|s|] == 1.0
    ensures Mass(WithMasses(s, Gaps(b))) == 1.0
    ensures forall i :: 0 <= i < |s| ==> WithMasses(s, Gaps(b))[i].mass > 0.0
  {
    GapsTelescope(b);
  }

  /** The weights divided by their total. */
  function Shares(w: seq<real>): (r: seq<real>)
    requires Sum(w) != 0.0
    ensures |r| == |w|
  {
    seq(|w|, i requires 0 <= i < |w| => w[i] / Sum(w))
  }

  lemma SumPositive(w: seq<real>)
    requires |w| > 0 && forall i :: 0 <= i < |w| ==> w[i] > 0.0
    ensures Sum(w) > 0.0
  {
    SumNonNegative(w[1..]);
  }

  /** Positive weights give positive shares that sum to one. */
  lemma SharesSumToOne(w: seq<real>)
    requires |w| > 0 && forall i :: 0 <= i < |w| ==> w[i] > 0.0
    ensures Sum(w) > 0.0
    ensures Sum(Shares(w)) == 1.0
    ensures forall i :: 0 <= i < |w| ==> Shares(w)[i] > 0.0
  {
    SumPositive(w);
    var t := Sum(w);
    SharesAreScaled(w, t);
    SumScaled(1.0 / t, w);
    InverseTimes(t);
  }

  /** With positive weights and total t, the shares are the weights scaled
      by 1 / t, and positive. */
  lemma SharesAreScaled(w: seq<real>, t: real)
    requires forall i :: 0 <= i < |w| ==> w[i] > 0.0
    requires t == Sum(w) && t > 0.0
    ensures Shares(w) == Scaled(1.0 / t, w)
    ensures forall i :: 0 <= i < |w| ==> Shares(w)[i] > 0.0
  {
    forall i | 0 <= i < |w| ensures Shares(w)[i] == Scaled(1.0 / t, w)[i] && Shares(w)[i] > 0.0 {
      DivideAsScale(w[i], t);
    }
  }

  lemma DivideAsScale(a: real, t: real)
    requires a > 0.0 && t > 0.0
    ensures a / t == (1.0 / t) * a && a / t > 0.0
  {
  }

  lemma InverseTimes(t: real)
    requires t > 0.0
    ensures (1.0 / t) * t == 1.0
  {
  }

  // --------------------------------------------------- explicit construction

  /** The map built by putting each (point, probability) pair in turn, so a
      later pair overwrites an earlier one with the same point. */
  function FromPairs(points: seq<real>, probabilities: seq<real>): (r: seq<Entry>)
    requires |probabilities| >= |points|
    ensures Increasing(r)
  {
    if |points| == 0 then []
    else
      var n := |points| - 1;
      Put(FromPairs(points[..n], probabilities), points[n], probabilities[n])
  }

  lemma KeySetSnoc(ps: seq<real>)
    requires |ps| > 0
    ensures KeySet(ps) == KeySet(ps[..|ps| - 1]) + {ps[|ps| - 1]}
  {
    var pre := ps[..|ps| - 1];
    forall x | x in KeySet(ps) ensures x in KeySet(pre) + {ps[|ps| - 1]} {
      var i :| 0 <= i < |ps| && ps[i] == x;
      if i < |ps| - 1 { assert pre[i] == x; }
    }
    forall x | x in KeySet(pre) ensures x in KeySet(ps) {
      var i :| 0 <= i < |pre| && pre[i] == x;
      assert ps[i] == x;
    }
  }

  /** The keys are exactly the given points. */
  lemma {:induction false} FromPairsKeys(points: seq<real>, probabilities: seq<real>)
    requires |probabilities| >= |points|
    ensures Keys(FromPairs(points, probabilities)) == KeySet(points)
  {
    if |points| > 0 {
      var n := |points| - 1;
      var pre := points[..n];
      FromPairsKeys(pre, probabilities);
      PutLookup(FromPairs(pre, probabilities), points[n], probabilities[n]);
      KeySetSnoc(points);
    }
  }

  /** Each point holds the probability of its last occurrence. */
  lemma {:induction false} FromPairsLookup(points: seq<real>, probabilities: seq<real>, i: nat)
    requires |probabilities| >= |points|
    requires i < |points| && points[i] !in points[i + 1..]
    ensures Lookup(FromPairs(points, probabilities), points[i]) == Some(probabilities[i])
  {
    var n := |points| - 1;
    var pre := points[..n];
    PutLookup(FromPairs(pre, probabilities), points[n], probabilities[n]);
    if i < n {
      assert points[i + 1..] == pre[i + 1..] + [points[n]];
      assert pre[i] == points[i];
      FromPairsLookup(pre, probabilities, i);
    }
  }
}
