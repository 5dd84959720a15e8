/**
 * Properties of `computeDispersionBoundary` that relate several calls or
 * several inputs: the result is determined as a map, it does not depend on
 * which relation comes first, and self-pairing always produces the zero key.
 */
module DispersionLaws {
  import opened Results
  import opened Rounding
  import opened Continuum
  import opened Dispersion

  lemma MomentumKeySymmetric(p: Point, q: Point)
    ensures MomentumKey(p, q) == MomentumKey(q, p)
  {
    assert Abs(p.k - q.k) == Abs(q.k - p.k);
  }

  lemma KeySetSymmetric(a: seq<Point>, b: seq<Point>)
    ensures KeySet(a, b) == KeySet(b, a)
  {
    forall key | key in KeySet(a, b)
      ensures key in KeySet(b, a)
    {
      var i, j :| 0 <= i < |a| && 0 <= j < |b| && key == MomentumKey(a[i], b[j]);
      MomentumKeySymmetric(a[i], b[j]);
    }
    forall key | key in KeySet(b, a)
      ensures key in KeySet(a, b)
    {
      var j, i :| 0 <= j < |b| && 0 <= i < |a| && key == MomentumKey(b[j], a[i]);
      MomentumKeySymmetric(a[i], b[j]);
    }
  }

  lemma SumsAtSymmetric(a: seq<Point>, b: seq<Point>, key: real)
    ensures SumsAt(a, b, key) == SumsAt(b, a, key)
  {
    SumsAtSwapped(a, b, key);
    SumsAtSwapped(b, a, key);
  }

  lemma SumsAtSwapped(a: seq<Point>, b: seq<Point>, key: real)
    ensures SumsAt(a, b, key) <= SumsAt(b, a, key)
  {
    forall e | e in SumsAt(a, b, key)
      ensures e in SumsAt(b, a, key)
    {
      var i, j :| 0 <= i < |a| && 0 <= j < |b| && MomentumKey(a[i], b[j]) == key && e == a[i].e + b[j].e;
      MomentumKeySymmetric(a[i], b[j]);
      PairSumIn(b, a, j, i, Entry(b[j], a[i]));
    }
  }

  /** The upper list carries the same keys as the lower list, each once. */
  lemma UpperKeys(a: seq<Point>, b: seq<Point>, lower: seq<Point>, upper: seq<Point>)
    requires IsBoundary(a, b, lower, upper)
    ensures KeysOf(upper) == KeySet(a, b)
    ensures DistinctKeys(upper)
  {
    forall key | key in KeysOf(upper)
      ensures key in KeysOf(lower)
    {
      var n :| 0 <= n < |upper| && upper[n].k == key;
      assert lower[n].k == key;
    }
    forall key | key in KeysOf(lower)
      ensures key in KeysOf(upper)
    {
      var n :| 0 <= n < |lower| && lower[n].k == key;
      assert upper[n].k == key;
    }
  }

  /** Per key, the lower value is at most every pair sum, which is at most the upper value. */
  lemma {:induction false} LowerBelowUpper(a: seq<Point>, b: seq<Point>, lower: seq<Point>, upper: seq<Point>)
    requires IsBoundary(a, b, lower, upper)
    ensures forall n :: 0 <= n < |lower| ==> lower[n].e <= upper[n].e
    ensures forall n, i, j :: 0 <= n < |lower| && 0 <= i < |a| && 0 <= j < |b| && MomentumKey(a[i], b[j]) == lower[n].k ==>
      lower[n].e <= a[i].e + b[j].e <= upper[n].e
  {
    forall n, i, j | 0 <= n < |lower| && 0 <= i < |a| && 0 <= j < |b| && MomentumKey(a[i], b[j]) == lower[n].k
      ensures lower[n].e <= a[i].e + b[j].e <= upper[n].e
    {
      assert a[i].e + b[j].e in SumsAt(a, b, lower[n].k);
    }
  }

  /**
   * Any two results for the same relations describe the same key -> energy
   * map: the list order is the only freedom left.
   */
  lemma BoundaryUnique(a: seq<Point>, b: seq<Point>, lower: seq<Point>, upper: seq<Point>,
                       lower': seq<Point>, upper': seq<Point>)
    requires IsBoundary(a, b, lower, upper)
    requires IsBoundary(a, b, lower', upper')
    ensures SameMap(lower, lower')
    ensures SameMap(upper, upper')
  {
    UpperKeys(a, b, lower, upper);
    UpperKeys(a, b, lower', upper');
    DistinctKeysCount(lower);
    DistinctKeysCount(lower');
    DistinctKeysCount(upper);
    DistinctKeysCount(upper');
  }

  /** Swapping the roles of the two relations does not change the boundary. */
  lemma BoundarySwap(a: seq<Point>, b: seq<Point>, lower: seq<Point>, upper: seq<Point>)
    requires IsBoundary(a, b, lower, upper)
    ensures IsBoundary(b, a, lower, upper)
  {
    KeySetSymmetric(a, b);
    forall key {
      SumsAtSymmetric(a, b, key);
    }
  }

  /**
   * With two non-empty relations, `f(a, b)` and `f(b, a)` give the same
   * key -> (min, max) map; only the list order may differ.
   */
  lemma SwapRelations(a: seq<Point>, b: seq<Point>, lower: seq<Point>, upper: seq<Point>,
                      lower': seq<Point>, upper': seq<Point>)
    requires a != [] && b != []
    requires IsBoundary(a, Partner(a, Some(b)), lower, upper)
    requires IsBoundary(b, Partner(b, Some(a)), lower', upper')
    ensures SameMap(lower, lower')
    ensures SameMap(upper, upper')
  {
    BoundarySwap(b, a, lower', upper');
    BoundaryUnique(a, b, lower, upper, lower', upper');
  }

  /**
   * Self-pairing a non-empty relation always yields the key 0, whose lower
   * value is at most, and whose upper value at least, twice every energy.
   */
  lemma SelfPairing(a: seq<Point>, lower: seq<Point>, upper: seq<Point>)
    requires a != []
    requires IsBoundary(a, a, lower, upper)
    ensures 0.0 in KeysOf(lower)
    ensures forall n, i :: 0 <= n < |lower| && lower[n].k == 0.0 && 0 <= i < |a| ==>
      lower[n].e <= 2.0 * a[i].e <= upper[n].e
  {
    forall i | 0 <= i < |a|
      ensures MomentumKey(a[i], a[i]) == 0.0
    {
      assert Abs(a[i].k - a[i].k) == 0.0;
    }
    assert MomentumKey(a[0], a[0]) in KeySet(a, a);
    LowerBelowUpper(a, a, lower, upper);
  }

  /** An omitted or empty second relation makes a non-empty first relation self-pair. */
  lemma DefaultSecondNotEmpty(a: seq<Point>, second: Option<seq<Point>>, lower: seq<Point>, upper: seq<Point>)
    requires a != []
    requires second == None || second == Some([])
    requires IsBoundary(a, Partner(a, second), lower, upper)
    ensures |lower| > 0 && |upper| > 0
    ensures 0.0 in KeysOf(lower)
  {
    SelfPairing(a, lower, upper);
  }

  /** A single point `(k, E)` paired with itself gives exactly `[(0, 2E)]` in both bounds. */
  lemma SinglePoint(p: Point, lower: seq<Point>, upper: seq<Point>)
    requires IsBoundary([p], [p], lower, upper)
    ensures lower == [Point(0.0, 2.0 * p.e)]
    ensures upper == [Point(0.0, 2.0 * p.e)]
  {
    var a := [p];
    assert Abs(p.k - p.k) == 0.0;
    assert MomentumKey(a[0], a[0]) == 0.0;
    assert KeySet(a, a) == {0.0} by {
      forall key | key in KeySet(a, a)
        ensures key == 0.0
      {
        var i, j :| 0 <= i < 1 && 0 <= j < 1 && key == MomentumKey(a[i], a[j]);
      }
      assert MomentumKey(a[0], a[0]) in KeySet(a, a);
    }
    assert SumsAt(a, a, 0.0) == {2.0 * p.e};
    DistinctKeysCount(lower);
    assert |lower| == 1;
    assert lower[0].k in KeysOf(lower);
  }

  /** Two relations `[(0,0), (1,1)]` and `[(0,2)]` give the buckets `{0: 2, 1: 3}`. */
  lemma TwoRelationsExample(lower: seq<Point>, upper: seq<Point>)
    requires IsBoundary([Point(0.0, 0.0), Point(1.0, 1.0)], [Point(0.0, 2.0)], lower, upper)
    ensures SameMap(lower, [Point(0.0, 2.0), Point(1.0, 3.0)])
    ensures SameMap(upper, [Point(0.0, 2.0), Point(1.0, 3.0)])
  {
    var a, b := [Point(0.0, 0.0), Point(1.0, 1.0)], [Point(0.0, 2.0)];
    var expected := [Point(0.0, 2.0), Point(1.0, 3.0)];
    assert Round4(1.0) == 1.0 by {
      assert (1.0 * Scale + 0.5).Floor == 10000;
    }
    assert MomentumKey(a[0], b[0]) == 0.0;
    assert MomentumKey(a[1], b[0]) == 1.0;
    assert KeySet(a, b) == {0.0, 1.0};
    assert SumsAt(a, b, 0.0) == {2.0};
    assert SumsAt(a, b, 1.0) == {3.0};
    assert KeysOf(expected) == {0.0, 1.0} by {
      assert expected[0].k in KeysOf(expected);
      assert expected[1].k in KeysOf(expected);
    }
    assert IsBoundary(a, b, expected, expected);
    BoundaryUnique(a, b, lower, upper, expected, expected);
  }
}
