/** Sums, orderings and sorting of sequences of reals, and the existence of a
    value not yet drawn, which stands in for the rejection loops around
    Math.random(). */
module RealSeqs {

  function Abs(x: real): (r: real)
    ensures r >= 0.0
    ensures r == x || r == -x
  {
    if x < 0.0 then -x else x
  }

  /** The sum of the elements of xs. */
  function Sum(xs: seq<real>): real
  {
    if |xs| == 0 then 0.0 else xs[0] + Sum(xs[1..])
  }

  lemma {:induction false} SumConcat(a: seq<real>, b: seq<real>)
    ensures Sum(a + b) == Sum(a) + Sum(b)
  {
    if |a| == 0 {
      assert a + b == b;
    } else {
      assert (a + b)[1..] == a[1..] + b;
      SumConcat(a[1..], b);
    }
  }

  /** Adding the elements one at a time from the front, as a loop does. */
  lemma SumSnoc(xs: seq<real>, i: nat)
    requires i < |xs|
    ensures Sum(xs[..i + 1]) == Sum(xs[..i]) + xs[i]
  {
    assert xs[..i + 1] == xs[..i] + [xs[i]];
    SumConcat(xs[..i], [xs[i]]);
  }

  lemma SumUpdate(xs: seq<real>, i: nat, v: real)
    requires i < |xs|
    ensures Sum(xs[i := v]) == Sum(xs) - xs[i] + v
  {
    assert xs == xs[..i] + [xs[i]] + xs[i + 1..];
    assert xs[i := v] == xs[..i] + [v] + xs[i + 1..];
    SumConcat(xs[..i] + [xs[i]], xs[i + 1..]);
    SumConcat(xs[..i] + [v], xs[i + 1..]);
    SumConcat(xs[..i], [xs[i]]);
    SumConcat(xs[..i], [v]);
  }

  lemma {:induction false} SumMonotone(xs: seq<real>, ys: seq<real>)
    requires |xs| == |ys|
    requires forall i :: 0 <= i < |xs| ==> xs[i] <= ys[i]
    ensures Sum(xs) <= Sum(ys)
  {
    if |xs| > 0 {
      SumMonotone(xs[1..], ys[1..]);
    }
  }

  lemma {:induction false} SumNonNegative(xs: seq<real>)
    requires forall i :: 0 <= i < |xs| ==> xs[i] >= 0.0
    ensures Sum(xs) >= 0.0
  {
    if |xs| > 0 {
      SumNonNegative(xs[1..]);
    }
  }

  /** A sum of nonnegative terms is zero only when every term is. */
  lemma {:induction false} SumZeroTerms(xs: seq<real>)
    requires forall i :: 0 <= i < |xs| ==> xs[i] >= 0.0
    requires Sum(xs) == 0.0
    ensures forall i :: 0 <= i < |xs| ==> xs[i] == 0.0
  {
    if |xs| > 0 {
      SumNonNegative(xs[1..]);
      SumZeroTerms(xs[1..]);
      assert forall i :: 1 <= i < |xs| ==> xs[i] == xs[1..][i - 1];
    }
  }

  function Scaled(c: real, xs: seq<real>): (r: seq<real>)
    ensures |r| == |xs|
  {
    seq(|xs|, i requires 0 <= i < |xs| => c * xs[i])
  }

  lemma {:induction false} SumScaled(c: real, xs: seq<real>)
    ensures Sum(Scaled(c, xs)) == c * Sum(xs)
  {
    if |xs| > 0 {
      forall i | 0 <= i < |xs| - 1
        ensures Scaled(c, xs)[1..][i] == Scaled(c, xs[1..])[i]
      {
        assert xs[1..][i] == xs[i + 1];
      }
      assert Scaled(c, xs)[1..] == Scaled(c, xs[1..]);
      SumScaled(c, xs[1..]);
    }
  }

  predicate Sorted(xs: seq<real>)
  {
    forall i, j :: 0 <= i < j < |xs| ==> xs[i] <= xs[j]
  }

  predicate StrictlyIncreasing(xs: seq<real>)
  {
    forall i, j :: 0 <= i < j < |xs| ==> xs[i] < xs[j]
  }

  predicate Distinct(xs: seq<real>)
  {
    forall i, j :: 0 <= i < j < |xs| ==> xs[i] != xs[j]
  }

  lemma DistinctSnoc(xs: seq<real>, x: real)
    requires Distinct(xs) && x !in xs
    ensures Distinct(xs + [x])
  {
    var ys := xs + [x];
    forall i, j | 0 <= i < j < |ys| ensures ys[i] != ys[j] {
      if j == |xs| {
        assert ys[i] == xs[i];
      } else {
        assert ys[i] == xs[i] && ys[j] == xs[j];
      }
    }
  }

  /** Inserts x into a sorted sequence at its place. */
  function Insert(x: real, xs: seq<real>): (r: seq<real>)
    ensures multiset(r) == multiset(xs) + multiset{x}
  {
    if |xs| == 0 then [x]
    else if x <= xs[0] then [x] + xs
    else
      assert xs == [xs[0]] + xs[1..];
      [xs[0]] + Insert(x, xs[1..])
  }

  /** Every element of Insert(x, xs) is x or an element of xs. */
  lemma InsertElements(x: real, xs: seq<real>, y: real)
    requires y in Insert(x, xs)
    ensures y == x || y in xs
  {
    assert y in multiset(Insert(x, xs));
  }

  lemma {:induction false} InsertSorted(x: real, xs: seq<real>)
    requires Sorted(xs)
    ensures Sorted(Insert(x, xs))
  {
    if |xs| > 0 && xs[0] < x {
      var t := Insert(x, xs[1..]);
      InsertSorted(x, xs[1..]);
      forall j | 0 <= j < |t| ensures xs[0] <= t[j] {
        InsertElements(x, xs[1..], t[j]);
      }
      var r := [xs[0]] + t;
      assert Insert(x, xs) == r;
      forall i, j | 0 <= i < j < |r| ensures r[i] <= r[j] {
        if i > 0 {
          assert r[i] == t[i - 1] && r[j] == t[j - 1];
        }
      }
    }
  }

  lemma {:induction false} InsertIncreasing(x: real, xs: seq<real>)
    requires StrictlyIncreasing(xs) && x !in xs
    ensures StrictlyIncreasing(Insert(x, xs))
  {
    if |xs| > 0 && xs[0] < x {
      var t := Insert(x, xs[1..]);
      InsertIncreasing(x, xs[1..]);
      forall j | 0 <= j < |t| ensures xs[0] < t[j] {
        InsertElements(x, xs[1..], t[j]);
      }
      var r := [xs[0]] + t;
      assert Insert(x, xs) == r;
      forall i, j | 0 <= i < j < |r| ensures r[i] < r[j] {
        if i > 0 {
          assert r[i] == t[i - 1] && r[j] == t[j - 1];
        }
      }
    } else if |xs| > 0 {
      assert x < xs[0];
      var r := [x] + xs;
      forall i, j | 0 <= i < j < |r| ensures r[i] < r[j] {
        if i > 0 {
          assert r[i] == xs[i - 1] && r[j] == xs[j - 1];
        }
      }
    }
  }

  /** Collections.sort on a list of doubles, as insertion sort. */
  function Sort(xs: seq<real>): (r: seq<real>)
    ensures multiset(r) == multiset(xs)
  {
    if |xs| == 0 then []
    else
      assert xs == [xs[0]] + xs[1..];
      Insert(xs[0], Sort(xs[1..]))
  }

  /** Without repeats, the first element is not in the rest, which has no
      repeats either. */
  lemma DistinctTail(xs: seq<real>)
    requires Distinct(xs) && |xs| > 0
    ensures Distinct(xs[1..]) && xs[0] !in xs[1..]
  {
    forall i, j | 0 <= i < j < |xs[1..]| ensures xs[1..][i] != xs[1..][j] {
      assert xs[1..][i] == xs[i + 1] && xs[1..][j] == xs[j + 1];
    }
    forall k | 0 <= k < |xs[1..]| ensures xs[1..][k] != xs[0] {
      assert xs[1..][k] == xs[k + 1];
    }
  }

  /** The sorted list is ordered, and strictly so when no value repeats. */
  lemma {:induction false} SortSorted(xs: seq<real>)
    ensures |Sort(xs)| == |xs|
    ensures Sorted(Sort(xs))
    ensures Distinct(xs) ==> StrictlyIncreasing(Sort(xs))
  {
    assert |multiset(Sort(xs))| == |multiset(xs)|;
    if |xs| > 0 {
      var t := Sort(xs[1..]);
      SortSorted(xs[1..]);
      if Distinct(xs) {
        DistinctTail(xs);
        assert xs[0] !in multiset(t);
        InsertIncreasing(xs[0], t);
      }
      InsertSorted(xs[0], t);
    }
  }

  /** Whatever finitely many values have been drawn already, the half-open
      interval [a, b) still holds one that has not. */
  lemma {:induction false} FreshPoint(drawn: seq<real>, a: real, b: real)
    requires a < b
    ensures exists x :: a <= x < b && x !in drawn
  {
    if |drawn| == 0 {
      assert a !in drawn;
    } else {
      var y, rest := drawn[0], drawn[1..];
      assert drawn == [y] + rest;
      if y < a || b <= y {
        FreshPoint(rest, a, b);
        var x :| a <= x < b && x !in rest;
        assert x !in drawn;
      } else if a < y {
        FreshPoint(rest, a, y);
        var x :| a <= x < y && x !in rest;
        assert x !in drawn;
      } else {
        FreshPoint(rest, (a + b) / 2.0, b);
        var x :| (a + b) / 2.0 <= x < b && x !in rest;
        assert x !in drawn;
      }
    }
  }
}
