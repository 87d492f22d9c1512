/** The ordered map TreeMap<Double, Double> that holds a distribution: a
    sequence of (point, mass) entries whose points strictly increase, so a
    traversal of it is the TreeMap's ascending key order. */
module TreeMaps {
  import opened RealSeqs

  datatype Option<T> = None | Some(value: T)

  /** One key of the map with its value: a support point and its mass. */
  datatype Entry = Entry(point: real, mass: real)

  /** The TreeMap invariant: keys are distinct and kept in ascending order. */
  predicate Increasing(s: seq<Entry>)
  {
    forall i, j :: 0 <= i < j < |s| ==> s[i].point < s[j].point
  }

  /** The key set. */
  function Keys(s: seq<Entry>): set<real>
  {
    set i | 0 <= i < |s| :: s[i].point
  }

  /** The keys in ascending order. */
  function Points(s: seq<Entry>): (r: seq<real>)
    ensures |r| == |s|
  {
    seq(|s|, i requires 0 <= i < |s| => s[i].point)
  }

  lemma PointsAreKeys(s: seq<Entry>)
    ensures forall x :: x in Points(s) <==> x in Keys(s)
  {
    forall x ensures x in Points(s) <==> x in Keys(s) {
      if x in Keys(s) {
        var i :| 0 <= i < |s| && s[i].point == x;
        assert Points(s)[i] == x;
      }
    }
  }

  /** The keys of a TreeMap, listed in order, rise strictly. */
  lemma PointsIncreasing(s: seq<Entry>)
    requires Increasing(s)
    ensures StrictlyIncreasing(Points(s)) && Distinct(Points(s))
  {
  }

  /** The values, in key order. */
  function Masses(s: seq<Entry>): (r: seq<real>)
    ensures |r| == |s|
  {
    seq(|s|, i requires 0 <= i < |s| => s[i].mass)
  }

  /** The total mass of the map. */
  function Mass(s: seq<Entry>): real
  {
    Sum(Masses(s))
  }

  predicate NonNegative(s: seq<Entry>)
  {
    forall i :: 0 <= i < |s| ==> s[i].mass >= 0.0
  }

  function KeySet(ps: seq<real>): set<real>
  {
    set i | 0 <= i < |ps| :: ps[i]
  }

  lemma KeysCons(s: seq<Entry>)
    requires |s| > 0
    ensures Keys(s) == {s[0].point} + Keys(s[1..])
  {
    forall x | x in Keys(s) ensures x in {s[0].point} + Keys(s[1..]) {
      var i :| 0 <= i < |s| && s[i].point == x;
      if i > 0 {
        assert s[1..][i - 1].point == x;
      }
    }
    forall x | x in Keys(s[1..]) ensures x in Keys(s) {
      var i :| 0 <= i < |s[1..]| && s[1..][i].point == x;
      assert s[i + 1].point == x;
    }
  }

  /** TreeMap.get: the mass stored under x, or None when x is not a key. */
  function Lookup(s: seq<Entry>, x: real): (r: Option<real>)
    ensures r.Some? <==> x in Keys(s)
  {
    if |s| == 0 then None
    else
      KeysCons(s);
      if s[0].point == x then Some(s[0].mass) else Lookup(s[1..], x)
  }

  /** TreeMap.put: maps x to m, replacing the old value of x if x is a key,
      and keeps the keys in ascending order. */
  function Put(s: seq<Entry>, x: real, m: real): (r: seq<Entry>)
    requires Increasing(s)
    ensures Increasing(r)
    ensures forall e :: e in r ==> e == Entry(x, m) || e in s
  {
    if |s| == 0 || x < s[0].point then [Entry(x, m)] + s
    else if x == s[0].point then [Entry(x, m)] + s[1..]
    else
      var t := Put(s[1..], x, m);
      assert forall k :: 0 <= k < |t| ==> s[0].point < t[k].point by {
        forall k | 0 <= k < |t| ensures s[0].point < t[k].point {
          assert t[k] in t;
          if t[k] != Entry(x, m) {
            var j :| 0 <= j < |s[1..]| && s[1..][j] == t[k];
            assert s[j + 1] == t[k];
          }
        }
      }
      [s[0]] + t
  }

  /** After put, x maps to m and every other key keeps its value. */
  lemma {:induction false} PutLookup(s: seq<Entry>, x: real, m: real)
    requires Increasing(s)
    ensures Lookup(Put(s, x, m), x) == Some(m)
    ensures forall y :: y != x ==> Lookup(Put(s, x, m), y) == Lookup(s, y)
    ensures Keys(Put(s, x, m)) == Keys(s) + {x}
  {
    var r := Put(s, x, m);
    if |s| == 0 || x < s[0].point {
      assert r[1..] == s;
      KeysCons(r);
    } else if x == s[0].point {
      assert r[1..] == s[1..];
      KeysCons(r);
      KeysCons(s);
    } else {
      PutLookup(s[1..], x, m);
      assert r[1..] == Put(s[1..], x, m);
      KeysCons(r);
      KeysCons(s);
    }
  }

  /** The value stored under the key at index i is that entry's mass. */
  lemma {:induction false} LookupAt(s: seq<Entry>, i: nat)
    requires Increasing(s) && i < |s|
    ensures Lookup(s, s[i].point) == Some(s[i].mass)
  {
    if i > 0 {
      assert s[0].point < s[i].point;
      assert s[1..][i - 1] == s[i];
      LookupAt(s[1..], i - 1);
    }
  }

  /** Putting an existing key replaces its entry in place. */
  lemma {:induction false} PutAt(s: seq<Entry>, i: nat, m: real)
    requires Increasing(s) && i < |s|
    ensures Put(s, s[i].point, m) == s[i := Entry(s[i].point, m)]
  {
    if i > 0 {
      assert s[0].point < s[i].point;
      PutAt(s[1..], i - 1, m);
      assert s[1..][i - 1 := Entry(s[i].point, m)] == s[i := Entry(s[i].point, m)][1..];
    }
  }

  /** The index of key x. */
  function KeyIndex(s: seq<Entry>, x: real): (k: nat)
    requires x in Keys(s)
    ensures k < |s| && s[k].point == x
  {
    KeysCons(s);
    if s[0].point == x then 0 else 1 + KeyIndex(s[1..], x)
  }

  /** Changing the mass of one entry keeps the key set. */
  lemma KeysRemass(s: seq<Entry>, k: nat, m: real)
    requires k < |s|
    ensures Keys(s[k := Entry(s[k].point, m)]) == Keys(s)
  {
    var t := s[k := Entry(s[k].point, m)];
    assert forall i :: 0 <= i < |s| ==> t[i].point == s[i].point;
  }

  /** get followed by put of the sum, at the key of index k, adds m to that
      entry in place. */
  lemma AddAt(g: seq<Entry>, k: nat, m: real)
    requires Increasing(g) && k < |g|
    ensures Lookup(g, g[k].point) == Some(g[k].mass)
    ensures Put(g, g[k].point, Lookup(g, g[k].point).value + m) == g[k := Entry(g[k].point, g[k].mass + m)]
  {
    LookupAt(g, k);
    PutAt(g, k, g[k].mass + m);
  }

  /** Putting a key above every key appends it. */
  lemma {:induction false} PutLast(s: seq<Entry>, x: real, m: real)
    requires Increasing(s)
    requires forall i :: 0 <= i < |s| ==> s[i].point < x
    ensures Put(s, x, m) == s + [Entry(x, m)]
  {
    if |s| > 0 {
      PutLast(s[1..], x, m);
      assert s == [s[0]] + s[1..];
    }
  }

  /** A TreeMap's size is the number of its entries. */
  lemma {:induction false} KeysCount(s: seq<Entry>)
    requires Increasing(s)
    ensures |Keys(s)| == |s|
  {
    if |s| > 0 {
      KeysCons(s);
      KeysCount(s[1..]);
      assert s[0].point !in Keys(s[1..]);
    }
  }

  /** Putting a key that is not yet present adds one entry. */
  lemma PutFresh(s: seq<Entry>, x: real, m: real)
    requires Increasing(s) && x !in Points(s)
    ensures |Put(s, x, m)| == |s| + 1
  {
    PointsAreKeys(s);
    PutLookup(s, x, m);
    KeysCount(s);
    KeysCount(Put(s, x, m));
  }

  lemma MassUpdate(s: seq<Entry>, i: nat, e: Entry)
    requires i < |s|
    ensures Mass(s[i := e]) == Mass(s) - s[i].mass + e.mass
  {
    assert Masses(s[i := e]) == Masses(s)[i := e.mass];
    SumUpdate(Masses(s), i, e.mass);
  }

  lemma MassSnoc(s: seq<Entry>, i: nat)
    requires i < |s|
    ensures Mass(s[..i + 1]) == Mass(s[..i]) + s[i].mass
  {
    assert Masses(s[..i + 1]) == Masses(s)[..i + 1];
    assert Masses(s[..i]) == Masses(s)[..i];
    SumSnoc(Masses(s), i);
  }
}
