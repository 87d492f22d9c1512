/** What gerrymander computes: the party nearest to each support point, and
    the distribution obtained by moving every support point's mass onto its
    nearest party, with the lemmas that say where the mass goes. */
module Parties {
  import opened RealSeqs
  import opened TreeMaps
  import opened Simplex

  // --------------------------------------------------------- nearest party

  /** The index the scan of gerrymander settles on: the party nearest to x,
      and among equally near parties the earliest, since a later party
      replaces the current one only when it is strictly nearer. */
  function NearestIndex(ps: seq<real>, x: real): (k: nat)
    requires |ps| > 0
    ensures k < |ps|
  {
    if |ps| == 1 then 0
    else
      var k := NearestIndex(ps[..|ps| - 1], x);
      if Abs(ps[|ps| - 1] - x) < Abs(ps[k] - x) then |ps| - 1 else k
  }

  /** The scan's index is at least distance from x, and every earlier party
      is strictly farther. */
  lemma {:induction false} NearestIndexIsFirstNearest(ps: seq<real>, x: real)
    requires |ps| > 0
    ensures var k := NearestIndex(ps, x);
      && (forall j :: 0 <= j < |ps| ==> Abs(ps[k] - x) <= Abs(ps[j] - x))
      && (forall j :: 0 <= j < k ==> Abs(ps[k] - x) < Abs(ps[j] - x))
  {
    if |ps| > 1 {
      var n := |ps| - 1;
      var pre := ps[..n];
      NearestIndexIsFirstNearest(pre, x);
      var k := NearestIndex(ps, x);
      forall j | 0 <= j < |ps| ensures Abs(ps[k] - x) <= Abs(ps[j] - x) {
        if j < n {
          assert pre[j] == ps[j];
        }
      }
      forall j | 0 <= j < k ensures Abs(ps[k] - x) < Abs(ps[j] - x) {
        assert pre[j] == ps[j];
      }
    }
  }

  /** The party the mass at x goes to. */
  function Nearest(ps: seq<real>, x: real): real
    requires |ps| > 0
  {
    ps[NearestIndex(ps, x)]
  }

  /** Nearest is one of the parties, at the least distance from x. */
  lemma NearestIsClosestParty(ps: seq<real>, x: real)
    requires |ps| > 0
    ensures Nearest(ps, x) in KeySet(ps)
    ensures forall j :: 0 <= j < |ps| ==> Abs(Nearest(ps, x) - x) <= Abs(ps[j] - x)
  {
    NearestIndexIsFirstNearest(ps, x);
    assert ps[NearestIndex(ps, x)] == Nearest(ps, x);
  }

  /** A party standing at x itself takes the mass at x when the parties are
      distinct. */
  lemma NearestOwnPoint(ps: seq<real>, i: nat)
    requires Distinct(ps) && i < |ps|
    ensures NearestIndex(ps, ps[i]) == i
  {
    var k := NearestIndex(ps, ps[i]);
    NearestIndexIsFirstNearest(ps, ps[i]);
    assert Abs(ps[k] - ps[i]) <= Abs(ps[i] - ps[i]) == 0.0;
    assert ps[k] == ps[i];
  }

  // ---------------------------------------------------------- party map

  /** All-zero masses, one per party. */
  function Zeros(n: nat): (r: seq<real>)
    ensures |r| == n && forall j :: 0 <= j < n ==> r[j] == 0.0
  {
    seq(n, j => 0.0)
  }

  /** Every mass of FromPairs(points, probabilities) is one of the
      probabilities of the points. */
  lemma {:induction false} FromPairsMasses(points: seq<real>, probabilities: seq<real>)
    requires |probabilities| >= |points|
    ensures forall e :: e in FromPairs(points, probabilities) ==>
      exists j :: 0 <= j < |points| && e.mass == probabilities[j]
  {
    if |points| > 0 {
      var n := |points| - 1;
      var pre := points[..n];
      FromPairsMasses(pre, probabilities);
      forall e | e in FromPairs(points, probabilities)
        ensures exists j :: 0 <= j < |points| && e.mass == probabilities[j]
      {
        if e != Entry(points[n], probabilities[n]) {
          assert e in FromPairs(pre, probabilities);
          var j :| 0 <= j < |pre| && e.mass == probabilities[j];
          assert j < |points|;
        }
      }
    }
  }

  /** The first loop of gerrymander: every party point with mass 0. */
  function PartyMap(ps: seq<real>): (r: seq<Entry>)
    ensures Increasing(r) && Keys(r) == KeySet(ps)
    ensures forall j :: 0 <= j < |r| ==> r[j].mass == 0.0
  {
    FromPairsKeys(ps, Zeros(|ps|));
    FromPairsMasses(ps, Zeros(|ps|));
    var r := FromPairs(ps, Zeros(|ps|));
    assert forall j :: 0 <= j < |r| ==> r[j] in r;
    r
  }

  // -------------------------------------------------------------- collapse

  /** gerrymander on the first |s| support points: starting from the party
      map, each support point in ascending order adds its mass to the mass
      of its nearest party. */
  function Collapse(s: seq<Entry>, ps: seq<real>): (g: seq<Entry>)
    requires |ps| > 0 || |s| == 0
    ensures Increasing(g) && Keys(g) == KeySet(ps)
  {
    if |s| == 0 then PartyMap(ps)
    else
      var e := s[|s| - 1];
      var g := Collapse(s[..|s| - 1], ps);
      var n := Nearest(ps, e.point);
      NearestIsClosestParty(ps, e.point);
      var k := KeyIndex(g, n);
      KeysRemass(g, k, g[k].mass + e.mass);
      g[k := Entry(n, g[k].mass + e.mass)]
  }

  /** The reference for one party's mass: the total mass of the support
      points whose nearest party it is. */
  function RoutedMass(s: seq<Entry>, ps: seq<real>, q: real): real
    requires |ps| > 0
  {
    Sum(RoutedTerms(s, ps, q))
  }

  /** The mass of each support point if it goes to q, and 0 if not. */
  function RoutedTerms(s: seq<Entry>, ps: seq<real>, q: real): (r: seq<real>)
    requires |ps| > 0
    ensures |r| == |s|
  {
    seq(|s|, i requires 0 <= i < |s| => if Nearest(ps, s[i].point) == q then s[i].mass else 0.0)
  }

  lemma RoutedMassSnoc(s: seq<Entry>, ps: seq<real>, q: real)
    requires |ps| > 0 && |s| > 0
    ensures RoutedMass(s, ps, q) == RoutedMass(s[..|s| - 1], ps, q) +
      (if Nearest(ps, s[|s| - 1].point) == q then s[|s| - 1].mass else 0.0)
  {
    var n := |s| - 1;
    var t := RoutedTerms(s, ps, q);
    assert t[..n] == RoutedTerms(s[..n], ps, q);
    SumSnoc(t, n);
    assert t[..n + 1] == t;
  }

  lemma NothingRouted(s: seq<Entry>, ps: seq<real>, q: real)
    requires |ps| > 0 && |s| == 0
    ensures RoutedMass(s, ps, q) == 0.0
  {
    assert RoutedTerms(s, ps, q) == [];
  }

  /** One step of gerrymander: the last support point's mass is added to
      the entry of its nearest party. */
  lemma CollapseStep(s: seq<Entry>, ps: seq<real>) returns (k: nat)
    requires |ps| > 0 && |s| > 0
    ensures var g := Collapse(s[..|s| - 1], ps);
      && k < |g| && g[k].point == Nearest(ps, s[|s| - 1].point)
      && Collapse(s, ps) == g[k := Entry(g[k].point, g[k].mass + s[|s| - 1].mass)]
  {
    var g := Collapse(s[..|s| - 1], ps);
    NearestIsClosestParty(ps, s[|s| - 1].point);
    k := KeyIndex(g, Nearest(ps, s[|s| - 1].point));
  }

  /** Each party ends up with exactly the mass routed to it. */
  lemma {:induction false} CollapseRoutesMass(s: seq<Entry>, ps: seq<real>)
    requires |ps| > 0
    ensures var g := Collapse(s, ps);
      forall j :: 0 <= j < |g| ==> g[j].mass == RoutedMass(s, ps, g[j].point)
  {
    var g := Collapse(s, ps);
    if |s| == 0 {
      forall j | 0 <= j < |g| ensures g[j].mass == RoutedMass(s, ps, g[j].point) {
        NothingRouted(s, ps, g[j].point);
      }
    } else {
      var pre := s[..|s| - 1];
      var h := Collapse(pre, ps);
      var k := CollapseStep(s, ps);
      CollapseRoutesMass(pre, ps);
      forall j | 0 <= j < |g| ensures g[j].mass == RoutedMass(s, ps, g[j].point) {
        RoutedMassSnoc(s, ps, h[j].point);
        if j != k {
          assert h[j].point != h[k].point;
        }
      }
    }
  }

  /** The same, read through TreeMap.get: every party point maps to the
      mass routed to it. */
  lemma PartyMass(s: seq<Entry>, ps: seq<real>, q: real)
    requires |ps| > 0 && q in KeySet(ps)
    ensures Lookup(Collapse(s, ps), q) == Some(RoutedMass(s, ps, q))
  {
    var g := Collapse(s, ps);
    var k :| 0 <= k < |g| && g[k].point == q;
    LookupAt(g, k);
    CollapseRoutesMass(s, ps);
  }

  /** gerrymander conserves mass. */
  lemma {:induction false} CollapseConservesMass(s: seq<Entry>, ps: seq<real>)
    requires |ps| > 0 || |s| == 0
    ensures Mass(Collapse(s, ps)) == Mass(s)
  {
    if |s| == 0 {
      MassOfZeros(PartyMap(ps));
      assert Masses(s) == [];
    } else {
      var pre, e := s[..|s| - 1], s[|s| - 1];
      var h := Collapse(pre, ps);
      var k := CollapseStep(s, ps);
      CollapseConservesMass(pre, ps);
      var next := h[k := Entry(h[k].point, h[k].mass + e.mass)];
      assert Collapse(s, ps) == next;
      MassUpdate(h, k, Entry(h[k].point, h[k].mass + e.mass));
      assert Mass(next) == Mass(pre) + e.mass;
      MassSnoc(s, |s| - 1);
      assert s[..|s|] == s;
    }
  }

  /** Nonnegative masses stay nonnegative. */
  lemma {:induction false} CollapseNonNegative(s: seq<Entry>, ps: seq<real>)
    requires |ps| > 0 || |s| == 0
    requires NonNegative(s)
    ensures NonNegative(Collapse(s, ps))
  {
    if |s| > 0 {
      var pre := s[..|s| - 1];
      assert NonNegative(pre);
      CollapseNonNegative(pre, ps);
      var k := CollapseStep(s, ps);
    }
  }

  /** A distribution collapses to a distribution. */
  lemma CollapseKeepsDistribution(s: seq<Entry>, ps: seq<real>)
    requires |ps| > 0 && IsDistribution(s)
    ensures IsDistribution(Collapse(s, ps))
  {
    CollapseConservesMass(s, ps);
    CollapseNonNegative(s, ps);
  }

  // ------------------------------------------- parties at the support points

  /** FromPairs over strictly increasing points puts the pairs in order. */
  lemma {:induction false} FromPairsInOrder(points: seq<real>, probabilities: seq<real>)
    requires |probabilities| >= |points| && StrictlyIncreasing(points)
    ensures FromPairs(points, probabilities) ==
      seq(|points|, i requires 0 <= i < |points| => Entry(points[i], probabilities[i]))
  {
    if |points| > 0 {
      var n := |points| - 1;
      var pre := points[..n];
      FromPairsInOrder(pre, probabilities);
      PutLast(FromPairs(pre, probabilities), points[n], probabilities[n]);
    }
  }

  /** The party points with the masses of u at the first |u| of them and 0
      on the rest. */
  function Filled(u: seq<Entry>, ps: seq<real>): (r: seq<Entry>)
    requires |u| <= |ps|
    ensures |r| == |ps|
  {
    seq(|ps|, i requires 0 <= i < |ps| => Entry(ps[i], if i < |u| then u[i].mass else 0.0))
  }

  /** Support points u that stand at the first |u| party points, in order. */
  predicate AtOwnParties(u: seq<Entry>, ps: seq<real>)
  {
    |u| <= |ps| && forall i :: 0 <= i < |u| ==> u[i].point == ps[i]
  }

  lemma AtOwnPartiesPrefix(u: seq<Entry>, ps: seq<real>)
    requires AtOwnParties(u, ps) && |u| > 0
    ensures AtOwnParties(u[..|u| - 1], ps)
  {
    assert forall i :: 0 <= i < |u| - 1 ==> u[..|u| - 1][i] == u[i];
  }

  /** Routing support points that stand at the first party points, one
      each, fills in their masses one at a time. */
  lemma {:induction false} CollapseOntoOwnPrefix(u: seq<Entry>, ps: seq<real>)
    requires StrictlyIncreasing(ps) && AtOwnParties(u, ps)
    ensures Collapse(u, ps) == Filled(u, ps)
  {
    if |u| == 0 {
      FromPairsInOrder(ps, Zeros(|ps|));
    } else {
      var pre := u[..|u| - 1];
      var k := CollapseStep(u, ps);
      AtOwnPartiesPrefix(u, ps);
      CollapseOntoOwnPrefix(pre, ps);
      FilledStep(u, ps, Collapse(pre, ps), k);
    }
  }

  /** Adding the last mass of u at the entry of its nearest party, which is
      its own. */
  lemma FilledStep(u: seq<Entry>, ps: seq<real>, h: seq<Entry>, k: nat)
    requires StrictlyIncreasing(ps) && AtOwnParties(u, ps) && |u| > 0
    requires h == Filled(u[..|u| - 1], ps)
    requires k < |h| && h[k].point == Nearest(ps, u[|u| - 1].point)
    ensures h[k := Entry(h[k].point, h[k].mass + u[|u| - 1].mass)] == Filled(u, ps)
  {
    assert Distinct(ps);
    NearestOwnPoint(ps, |u| - 1);
    assert k == |u| - 1;
  }

  /** Parties placed exactly at the support points give back the
      distribution itself. */
  lemma CollapseOntoOwnSupport(s: seq<Entry>)
    requires Increasing(s)
    ensures Collapse(s, Points(s)) == s
  {
    PointsIncreasing(s);
    CollapseOntoOwnPrefix(s, Points(s));
    assert Filled(s, Points(s)) == s;
  }
}
