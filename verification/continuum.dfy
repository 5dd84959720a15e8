/**
 * The bucket dictionary of `computeDispersionBoundary` (a default-dict of
 * lists keyed by rounded momentum) and its reduction to the lower and upper
 * boundary lists.
 */
module Continuum {

  /** A `(k, E)` tuple: momentum and energy. Boundary entries have the same shape. */
  datatype Point = Point(k: real, e: real)

  /** The keys a boundary list carries. */
  ghost function KeysOf(bound: seq<Point>): set<real> {
    set i | 0 <= i < |bound| :: bound[i].k
  }

  ghost predicate DistinctKeys(bound: seq<Point>) {
    forall i, j :: 0 <= i < j < |bound| ==> bound[i].k != bound[j].k
  }

  // ---------------------------------------------------------------------
  // Reductions of one bucket: Python's `min(value)` and `max(value)`.

  function Min(s: seq<real>): (m: real)
    requires |s| > 0
    ensures m in s
    ensures forall x :: x in s ==> m <= x
  {
    if |s| == 1 then s[0]
    else
      var rest := Min(s[1..]);
      assert forall x :: x in s ==> x == s[0] || x in s[1..];
      if s[0] <= rest then s[0] else rest
  }

  function Max(s: seq<real>): (m: real)
    requires |s| > 0
    ensures m in s
    ensures forall x :: x in s ==> x <= m
  {
    if |s| == 1 then s[0]
    else
      var rest := Max(s[1..]);
      assert forall x :: x in s ==> x == s[0] || x in s[1..];
      if s[0] >= rest then s[0] else rest
  }

  lemma KeysOfSnoc(s: seq<Point>, x: Point)
    ensures KeysOf(s + [x]) == KeysOf(s) + {x.k}
  {
    var t := s + [x];
    forall key | key in KeysOf(t)
      ensures key in KeysOf(s) + {x.k}
    {
      var i :| 0 <= i < |t| && t[i].k == key;
      if i < |s| {
        assert t[i] == s[i];
      }
    }
    forall key | key in KeysOf(s) + {x.k}
      ensures key in KeysOf(t)
    {
      if key == x.k {
        assert t[|s|].k == key;
      } else {
        var i :| 0 <= i < |s| && s[i].k == key;
        assert t[i].k == key;
      }
    }
  }

  lemma DistinctKeysSnoc(s: seq<Point>, x: Point)
    requires DistinctKeys(s)
    requires x.k !in KeysOf(s)
    ensures DistinctKeys(s + [x])
  {
    forall i | 0 <= i < |s|
      ensures (s + [x])[i].k != x.k
    {
      assert s[i].k in KeysOf(s);
    }
  }

  /** A list with distinct keys has exactly as many keys as entries. */
  lemma {:induction false} DistinctKeysCount(s: seq<Point>)
    requires DistinctKeys(s)
    ensures |KeysOf(s)| == |s|
  {
    if s != [] {
      var init := s[..|s| - 1];
      assert s == init + [s[|s| - 1]];
      assert DistinctKeys(init);
      DistinctKeysCount(init);
      KeysOfSnoc(init, s[|s| - 1]);
      forall i | 0 <= i < |init|
        ensures init[i].k != s[|s| - 1].k
      {
        assert init[i] == s[i];
      }
    }
  }

  lemma SetAddOne<T>(s: set<T>, x: T)
    ensures |s + {x}| <= |s| + 1
  {
    if x in s {
      assert s + {x} == s;
    }
  }

  /** Non-empty buckets: every key of the accumulator holds at least one sum. */
  ghost predicate NonEmptyBuckets(continuum: map<real, seq<real>>) {
    forall key :: key in continuum ==> |continuum[key]| > 0
  }

  /**
   * `dispersionContinuum[key].append(energy)` on a default-dict of lists: a
   * missing key starts as an empty list, the energy goes on the end of the
   * key's list, and every other bucket is left as it was.
   */
  function Append(continuum: map<real, seq<real>>, key: real, energy: real): (r: map<real, seq<real>>)
    ensures r.Keys == continuum.Keys + {key}
    ensures |r[key]| > 0 && r[key][|r[key]| - 1] == energy
    ensures key in continuum ==> r[key][..|r[key]| - 1] == continuum[key]
    ensures key !in continuum ==> r[key] == [energy]
    ensures forall other :: other in continuum && other != key ==> r[other] == continuum[other]
  {
    continuum[key := (if key in continuum then continuum[key] else []) + [energy]]
  }

  /** A non-empty set of keys has an element to visit next. */
  lemma HasElement(s: set<real>)
    requires s != {}
    ensures exists x :: x in s
  {
    if forall x :: x !in s {
      assert false;
    }
  }

  /** Entry `n` of both lists is the `(key, min)` and `(key, max)` of one bucket. */
  ghost predicate Reduced(continuum: map<real, seq<real>>, lower: seq<Point>, upper: seq<Point>) {
    && NonEmptyBuckets(continuum)
    && |lower| == |upper|
    && DistinctKeys(lower)
    && forall n :: 0 <= n < |lower| ==>
      && lower[n].k == upper[n].k
      && lower[n].k in continuum
      && lower[n].e == Min(continuum[lower[n].k])
      && upper[n].e == Max(continuum[upper[n].k])
  }

  /** Emitting a bucket not emitted before keeps both lists reduced. */
  lemma ReducedSnoc(continuum: map<real, seq<real>>, lower: seq<Point>, upper: seq<Point>, key: real)
    requires Reduced(continuum, lower, upper)
    requires key in continuum && |continuum[key]| > 0
    requires key !in KeysOf(lower)
    ensures Reduced(continuum, lower + [Point(key, Min(continuum[key]))], upper + [Point(key, Max(continuum[key]))])
    ensures KeysOf(lower + [Point(key, Min(continuum[key]))]) == KeysOf(lower) + {key}
  {
    var low := Point(key, Min(continuum[key]));
    KeysOfSnoc(lower, low);
    DistinctKeysSnoc(lower, low);
  }

  /**
   * The reduction loop of `computeDispersionBoundary`, over the items of the
   * accumulated dictionary: one `(key, min)` and one `(key, max)`
   * entry per bucket, visiting the buckets in an order of the method's choosing.
   */
  method Reduce(continuum: map<real, seq<real>>) returns (lower: seq<Point>, upper: seq<Point>)
    requires NonEmptyBuckets(continuum)
    ensures |lower| == |upper| == |continuum.Keys|
    ensures KeysOf(lower) == continuum.Keys
    ensures DistinctKeys(lower)
    ensures forall n :: 0 <= n < |lower| ==>
      && lower[n].k == upper[n].k
      && lower[n].k in continuum
      && lower[n].e == Min(continuum[lower[n].k])
      && upper[n].e == Max(continuum[upper[n].k])
  {
    lower, upper := [], [];
    var remaining := continuum.Keys;
    while |remaining| > 0
      invariant remaining <= continuum.Keys
      invariant |lower| + |remaining| == |continuum.Keys|
      invariant KeysOf(lower) == continuum.Keys - remaining
      invariant Reduced(continuum, lower, upper)
      decreases |remaining|
    {
      HasElement(remaining);
      var key :| key in remaining;
      var sums := continuum[key];
      ReducedSnoc(continuum, lower, upper, key);
      lower, upper := lower + [Point(key, Min(sums))], upper + [Point(key, Max(sums))];
      remaining := remaining - {key};
    }
  }
}
