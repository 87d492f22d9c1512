/** The Gerrymanderer class: it draws a list of party points, moves the mass
    of every support point of a distribution onto its nearest party, and
    searches random party lists for the collapse of greatest expected
    distortion. */
module Gerrymandering {
  import opened RealSeqs
  import opened TreeMaps
  import opened Simplex
  import opened Parties
  import opened SimplexPdf

  class Gerrymanderer {
    /** The ArrayList<Double> of party points. */
    var partyPoints: seq<real>

    constructor ()
      ensures partyPoints == []
    {
      partyPoints := [];
    }

    /** solve: 100 rounds, each drawing fresh random parties and collapsing
        f onto them; a collapse replaces the best distribution so far only
        when its expected distortion is strictly greater. So the result is
        at least as good as f and as every collapse tried, and when it is a
        collapse it is the first one tried that reaches its value. The
        ghost result lists the party lists drawn, round by round. */
    method Solve(f: SimplexPDF, numParties: int) returns (best: SimplexPDF, ghost tried: seq<seq<real>>)
      requires f.Valid() && IsDistribution(f.supports) && numParties >= 1
      modifies this
      ensures best.Valid() && IsDistribution(best.supports)
      ensures |tried| == 100
      ensures forall k :: 0 <= k < |tried| ==>
        |tried[k]| == numParties && StrictlyIncreasing(tried[k]) && InUnitInterval(tried[k])
      ensures partyPoints == tried[99]
      ensures ExpectedDistortionOf(best.supports) >= ExpectedDistortionOf(f.supports)
      ensures forall k :: 0 <= k < |tried| ==>
        CollapsedDistortion(f.supports, tried[k]) <= ExpectedDistortionOf(best.supports)
      ensures best == f || fresh(best)
      ensures best != f ==>
        ExpectedDistortionOf(best.supports) > ExpectedDistortionOf(f.supports) &&
        exists k ::
          0 <= k < |tried| && best.supports == Collapse(f.supports, tried[k]) &&
          forall j :: 0 <= j < k ==>
            CollapsedDistortion(f.supports, tried[j]) < ExpectedDistortionOf(best.supports)
    {
      best := f;
      tried := [];
      ghost var bestRound := 0;
      for i := 0 to 100
        invariant best.Valid() && IsDistribution(best.supports)
        invariant |tried| == i
        invariant i > 0 ==> partyPoints == tried[i - 1]
        invariant best == f || fresh(best)
        invariant KeepsBest(f.supports, tried, numParties, best.supports, best != f, bestRound)
      {
        var parties := GenerateRandomParties(numParties);
        var g := Gerrymander(f);
        CollapseKeepsDistribution(f.supports, parties);
        var candidate := g.ExpectedDistortion();
        var incumbent := best.ExpectedDistortion();
        if candidate > incumbent {
          KeepsBestReplace(f.supports, tried, numParties, best.supports, best != f, bestRound, parties, g.supports);
          best := g;
          bestRound := i;
        } else {
          KeepsBestRetain(f.supports, tried, numParties, best.supports, best != f, bestRound, parties, g.supports);
        }
        tried := tried + [parties];
      }
    }

    /** gerrymander: a fresh distribution holding every party point with
        mass 0, to which each support point of f, in ascending order, adds
        its mass at the nearest party point. f is only read. */
    method Gerrymander(f: SimplexPDF) returns (g: SimplexPDF)
      requires f.Valid() && (|partyPoints| > 0 || |f.supports| == 0)
      ensures fresh(g) && g.Valid()
      ensures g.supports == Collapse(f.supports, partyPoints)
      ensures Keys(g.supports) == KeySet(partyPoints)
    {
      var ps := partyPoints;
      g := new SimplexPDF();
      var m := PartyMapOf(ps);
      m := RouteSupports(f, ps, m);
      g.supports := m;
    }

    /** generateRandomParties: empties the list, then appends numParties
        draws from [0, 1), a draw already on the list being redrawn, and
        sorts the list, which it also returns. */
    method GenerateRandomParties(numParties: int) returns (r: seq<real>)
      modifies this
      ensures r == partyPoints
      ensures |partyPoints| == if numParties > 0 then numParties else 0
      ensures StrictlyIncreasing(partyPoints)
      ensures InUnitInterval(partyPoints)
    {
      partyPoints := [];
      FreshPoint(partyPoints, 0.0, 1.0);
      var partyPoint :| 0.0 <= partyPoint < 1.0;
      var i := 0;
      while i < numParties
        invariant 0 <= i && (i <= numParties || i == 0)
        invariant |partyPoints| == i && Distinct(partyPoints)
        invariant 0.0 <= partyPoint < 1.0
        invariant forall k :: 0 <= k < |partyPoints| ==> 0.0 <= partyPoints[k] < 1.0
      {
        if partyPoint in partyPoints {
          FreshPoint(partyPoints, 0.0, 1.0);
          partyPoint :| 0.0 <= partyPoint < 1.0 && partyPoint !in partyPoints;
        }
        DistinctSnoc(partyPoints, partyPoint);
        partyPoints := partyPoints + [partyPoint];
        i := i + 1;
      }
      var drawn := partyPoints;
      SortSorted(drawn);
      partyPoints := Sort(drawn);
      forall k | 0 <= k < |partyPoints| ensures 0.0 <= partyPoints[k] < 1.0 {
        assert partyPoints[k] in multiset(drawn);
      }
      r := partyPoints;
    }
  }

  /** The expected distortion of the collapse of a distribution s onto a
      nonempty party list, itself a distribution. */
  ghost function CollapsedDistortion(s: seq<Entry>, ps: seq<real>): real
    requires IsDistribution(s) && |ps| > 0
  {
    CollapseKeepsDistribution(s, ps);
    ExpectedDistortionOf(Collapse(s, ps))
  }

  /** Every party point lies in [0, 1), the range of Math.random(). */
  predicate InUnitInterval(ps: seq<real>)
  {
    forall j :: 0 <= j < |ps| ==> 0.0 <= ps[j] < 1.0
  }

  /** What solve keeps across its rounds, for the distribution s and the
      party lists tried so far: every list has n parties in ascending
      order, all in [0, 1); the incumbent b is a distribution at least as good as s and as
      every collapse tried; and once a collapse has replaced s (improved),
      b is the collapse of round r, strictly better than s and than every
      collapse before round r. */
  ghost predicate KeepsBest(s: seq<Entry>, tried: seq<seq<real>>, n: int, b: seq<Entry>, improved: bool, r: nat)
    requires IsDistribution(s)
  {
    n >= 1 && IsDistribution(b) &&
    (forall k :: 0 <= k < |tried| ==> |tried[k]| == n && StrictlyIncreasing(tried[k]) && InUnitInterval(tried[k])) &&
    ExpectedDistortionOf(b) >= ExpectedDistortionOf(s) &&
    (forall k :: 0 <= k < |tried| ==> CollapsedDistortion(s, tried[k]) <= ExpectedDistortionOf(b)) &&
    (improved ==>
      ExpectedDistortionOf(b) > ExpectedDistortionOf(s) &&
      r < |tried| && b == Collapse(s, tried[r]) &&
      forall j :: 0 <= j < r ==> CollapsedDistortion(s, tried[j]) < ExpectedDistortionOf(b))
  }

  /** A round of solve whose collapse c, onto the new party list ps, is
      strictly better than the incumbent makes c the incumbent. */
  lemma KeepsBestReplace(s: seq<Entry>, tried: seq<seq<real>>, n: int, b: seq<Entry>, improved: bool, r: nat,
                         ps: seq<real>, c: seq<Entry>)
    requires IsDistribution(s) && KeepsBest(s, tried, n, b, improved, r)
    requires |ps| == n && StrictlyIncreasing(ps) && InUnitInterval(ps)
    requires c == Collapse(s, ps) && IsDistribution(c)
    requires ExpectedDistortionOf(c) > ExpectedDistortionOf(b)
    ensures KeepsBest(s, tried + [ps], n, c, true, |tried|)
  {
  }

  /** A round whose collapse is not strictly better keeps the incumbent. */
  lemma KeepsBestRetain(s: seq<Entry>, tried: seq<seq<real>>, n: int, b: seq<Entry>, improved: bool, r: nat,
                        ps: seq<real>, c: seq<Entry>)
    requires IsDistribution(s) && KeepsBest(s, tried, n, b, improved, r)
    requires |ps| == n && StrictlyIncreasing(ps) && InUnitInterval(ps)
    requires c == Collapse(s, ps) && IsDistribution(c)
    requires ExpectedDistortionOf(c) <= ExpectedDistortionOf(b)
    ensures KeepsBest(s, tried + [ps], n, b, improved, r)
  {
  }

  /** The first loop of gerrymander: puts every party point with mass 0. */
  method PartyMapOf(ps: seq<real>) returns (m: seq<Entry>)
    ensures m == PartyMap(ps)
  {
    m := [];
    for k := 0 to |ps|
      invariant m == FromPairs(ps[..k], Zeros(|ps|))
    {
      assert ps[..k + 1][..k] == ps[..k];
      m := Put(m, ps[k], 0.0);
    }
    assert ps[..|ps|] == ps;
  }

  /** The second loop of gerrymander: each support point of f in ascending
      order adds its mass, read with getProbability, to the mass of its
      nearest party. */
  method RouteSupports(f: SimplexPDF, ps: seq<real>, m0: seq<Entry>) returns (m: seq<Entry>)
    requires f.Valid() && (|ps| > 0 || |f.supports| == 0) && m0 == PartyMap(ps)
    ensures m == Collapse(f.supports, ps)
  {
    m := m0;
    for i := 0 to |f.supports|
      invariant m == Collapse(f.supports[..i], ps)
    {
      m := RouteSupport(f, ps, m, i);
    }
    assert f.supports[..|f.supports|] == f.supports;
  }

  /** One round of that loop, for the support point of index i. */
  method RouteSupport(f: SimplexPDF, ps: seq<real>, m: seq<Entry>, i: nat) returns (next: seq<Entry>)
    requires f.Valid() && |ps| > 0 && i < |f.supports| && m == Collapse(f.supports[..i], ps)
    ensures next == Collapse(f.supports[..i + 1], ps)
  {
    var supportPoint := f.supports[i].point;
    var nearestPoint := NearestOf(ps, supportPoint);
    var mass := f.Probability(supportPoint).value;
    AddNearest(m, f.supports, i, ps, nearestPoint, mass);
    next := Put(m, nearestPoint, Lookup(m, nearestPoint).value + mass);
  }

  /** The scan of gerrymander for the party nearest to supportPoint: it
      starts from the first party and moves on only to a strictly nearer
      one. */
  method NearestOf(ps: seq<real>, supportPoint: real) returns (nearestPoint: real)
    requires |ps| > 0
    ensures nearestPoint == Nearest(ps, supportPoint)
  {
    nearestPoint := ps[0];
    for j := 0 to |ps|
      invariant j == 0 ==> nearestPoint == ps[0]
      invariant j > 0 ==> nearestPoint == ps[NearestIndex(ps[..j], supportPoint)]
    {
      assert ps[..j + 1][..j] == ps[..j];
      if Abs(ps[j] - supportPoint) < Abs(nearestPoint - supportPoint) {
        nearestPoint := ps[j];
      }
    }
    assert ps[..|ps|] == ps;
  }

  /** The put of gerrymander, adding the last support point's mass to the
      mass of its nearest party, takes the collapse one point further. */
  lemma AddNearest(g: seq<Entry>, s: seq<Entry>, i: nat, ps: seq<real>, n: real, w: real)
    requires |ps| > 0 && i < |s| && g == Collapse(s[..i], ps)
    requires n == Nearest(ps, s[i].point) && w == s[i].mass
    ensures Lookup(g, n).Some? && Put(g, n, Lookup(g, n).value + w) == Collapse(s[..i + 1], ps)
  {
    assert s[..i + 1][..i] == s[..i];
    var k := CollapseStep(s[..i + 1], ps);
    AddAt(g, k, w);
  }
}
