/**
 * Two-particle continuum boundaries of one or two dispersion relations
 * (`computeDispersionBoundary`). Every ordered pair of points is bucketed
 * under its rounded momentum difference; each bucket contributes its least
 * energy sum to the lower bound and its greatest to the upper bound.
 */
module Dispersion {
  import opened Results
  import opened Rounding
  import opened Continuum

  /** The bucket key of a pair: `round(abs(k1 - k2), 4)`. */
  function MomentumKey(p: Point, q: Point): (r: real)
    ensures r >= 0.0 && OnGrid(r)
    ensures Abs(r - Abs(p.k - q.k)) <= 0.00005
    ensures Abs(r - Abs(p.k - q.k)) == 0.00005 ==> r > Abs(p.k - q.k)
  {
    Round4(Abs(p.k - q.k))
  }

  /** What the accumulation loop records for a pair: its key and its energy sum. */
  function Entry(p: Point, q: Point): Point {
    Point(MomentumKey(p, q), p.e + q.e)
  }

  /**
   * The relation actually paired with `first`: an omitted or empty (falsy)
   * second relation is replaced by `first` itself.
   */
  function Partner(first: seq<Point>, second: Option<seq<Point>>): (b: seq<Point>)
    ensures second == None ==> b == first
    ensures second == Some([]) ==> b == first
    ensures second.Some? && second.value != [] ==> b == second.value
  {
    match second
    case None => first
    case Some(s) => if s == [] then first else s
  }

  // ---------------------------------------------------------------------
  // Reference definitions, stated over index pairs.

  /** Every key some pair of `a x b` produces. */
  ghost function KeySet(a: seq<Point>, b: seq<Point>): set<real> {
    set i, j | 0 <= i < |a| && 0 <= j < |b| :: MomentumKey(a[i], b[j])
  }

  /** The energy sums of the pairs of `a x b` whose key is `key`. */
  ghost function SumsAt(a: seq<Point>, b: seq<Point>, key: real): set<real> {
    set i, j | 0 <= i < |a| && 0 <= j < |b| && MomentumKey(a[i], b[j]) == key :: a[i].e + b[j].e
  }

  ghost predicate IsLeast(s: set<real>, x: real) {
    x in s && forall y :: y in s ==> x <= y
  }

  ghost predicate IsGreatest(s: set<real>, x: real) {
    x in s && forall y :: y in s ==> y <= x
  }

  /**
   * `(lower, upper)` is a continuum boundary of `a` paired with `b`: both
   * lists hold one entry per key, in the same key order, the keys are exactly
   * those of the pairs, and each entry holds the least (resp. greatest)
   * energy sum among the pairs with its key.
   */
  ghost predicate IsBoundary(a: seq<Point>, b: seq<Point>, lower: seq<Point>, upper: seq<Point>) {
    && |lower| == |upper|
    && (forall i :: 0 <= i < |lower| ==> lower[i].k == upper[i].k)
    && DistinctKeys(lower)
    && KeysOf(lower) == KeySet(a, b)
    && (forall i :: 0 <= i < |lower| ==> IsLeast(SumsAt(a, b, lower[i].k), lower[i].e))
    && (forall i :: 0 <= i < |upper| ==> IsGreatest(SumsAt(a, b, upper[i].k), upper[i].e))
  }

  /** Two boundary lists describe the same key -> energy map (order aside). */
  ghost predicate SameMap(s: seq<Point>, t: seq<Point>) {
    && |s| == |t|
    && KeysOf(s) == KeysOf(t)
    && forall i, j :: 0 <= i < |s| && 0 <= j < |t| && s[i].k == t[j].k ==> s[i].e == t[j].e
  }

  // ---------------------------------------------------------------------
  // The enumeration order of the nested loop.

  /** The entries the inner loop records for one point of the first relation. */
  function Row(p: Point, b: seq<Point>): (r: seq<Point>)
    ensures |r| == |b|
    ensures forall j :: 0 <= j < |b| ==> r[j] == Entry(p, b[j])
  {
    seq(|b|, j requires 0 <= j < |b| => Entry(p, b[j]))
  }

  /** The entries the nested loop records, in loop order. */
  function Pairs(a: seq<Point>, b: seq<Point>): seq<Point> {
    if a == [] then [] else Pairs(a[..|a| - 1], b) + Row(a[|a| - 1], b)
  }

  lemma {:induction false} PairsLength(a: seq<Point>, b: seq<Point>)
    ensures |Pairs(a, b)| == |a| * |b|
  {
    if a != [] {
      PairsLength(a[..|a| - 1], b);
      assert |Pairs(a, b)| == (|a| - 1) * |b| + |b|;
    }
  }

  /** Every recorded entry comes from some pair of `a x b`. */
  lemma {:induction false} PairsSound(a: seq<Point>, b: seq<Point>, x: Point) returns (i: int, j: int)
    requires x in Pairs(a, b)
    ensures 0 <= i < |a| && 0 <= j < |b|
    ensures x == Entry(a[i], b[j])
  {
    var a' := a[..|a| - 1];
    var row := Row(a[|a| - 1], b);
    if x in Pairs(a', b) {
      i, j := PairsSound(a', b, x);
      assert a'[i] == a[i];
    } else {
      assert x in row;
      var n :| 0 <= n < |row| && row[n] == x;
      i, j := |a| - 1, n;
    }
  }

  /** Every pair of `a x b` has its entry recorded. */
  lemma {:induction false} PairsComplete(a: seq<Point>, b: seq<Point>, i: int, j: int)
    requires 0 <= i < |a| && 0 <= j < |b|
    ensures Entry(a[i], b[j]) in Pairs(a, b)
  {
    var a' := a[..|a| - 1];
    var row := Row(a[|a| - 1], b);
    assert Pairs(a, b) == Pairs(a', b) + row;
    if i < |a'| {
      PairsComplete(a', b, i, j);
      assert a'[i] == a[i];
    } else {
      assert row[j] == Entry(a[i], b[j]);
    }
  }

  /** The loop's bookkeeping: `acc` buckets exactly the recorded entries. */
  ghost predicate Accumulates(acc: map<real, seq<real>>, done: seq<Point>) {
    && (forall x :: x in done ==> x.k in acc && x.e in acc[x.k])
    && (forall key :: key in acc ==> |acc[key]| > 0 && forall e :: e in acc[key] ==> Point(key, e) in done)
  }

  lemma BucketKeys(a: seq<Point>, b: seq<Point>, acc: map<real, seq<real>>)
    requires Accumulates(acc, Pairs(a, b))
    ensures acc.Keys == KeySet(a, b)
  {
    forall key | key in acc
      ensures key in KeySet(a, b)
    {
      var i, j := PairsSound(a, b, Point(key, acc[key][0]));
      assert key == MomentumKey(a[i], b[j]);
    }
    forall key | key in KeySet(a, b)
      ensures key in acc
    {
      var i, j :| 0 <= i < |a| && 0 <= j < |b| && key == MomentumKey(a[i], b[j]);
      PairsComplete(a, b, i, j);
    }
  }

  lemma PairSumIn(a: seq<Point>, b: seq<Point>, i: int, j: int, x: Point)
    requires 0 <= i < |a| && 0 <= j < |b|
    requires x == Entry(a[i], b[j])
    ensures x.e in SumsAt(a, b, x.k)
  {
  }

  /** Every sum in a bucket is the energy sum of some pair with that key. */
  lemma BucketSound(a: seq<Point>, b: seq<Point>, acc: map<real, seq<real>>, key: real, e: real)
    requires Accumulates(acc, Pairs(a, b))
    requires key in acc
    requires e in acc[key]
    ensures e in SumsAt(a, b, key)
  {
    var i, j := PairsSound(a, b, Point(key, e));
    PairSumIn(a, b, i, j, Point(key, e));
  }

  /** The energy sum of every pair lands in the bucket of its key. */
  lemma BucketComplete(a: seq<Point>, b: seq<Point>, acc: map<real, seq<real>>, key: real, e: real)
    requires Accumulates(acc, Pairs(a, b))
    requires key in acc
    requires e in SumsAt(a, b, key)
    ensures e in acc[key]
  {
    var i, j :| 0 <= i < |a| && 0 <= j < |b| && MomentumKey(a[i], b[j]) == key && e == a[i].e + b[j].e;
    PairsComplete(a, b, i, j);
    assert Entry(a[i], b[j]) == Point(key, e);
  }

  /** Appending one sum keeps the accumulator in step with the recorded entries. */
  lemma AppendAccumulates(continuum: map<real, seq<real>>, done: seq<Point>, key: real, energy: real)
    requires Accumulates(continuum, done)
    ensures Accumulates(Append(continuum, key, energy), done + [Point(key, energy)])
    ensures |Append(continuum, key, energy).Keys| <= |continuum.Keys| + 1
  {
    SetAddOne(continuum.Keys, key);
    assert Append(continuum, key, energy).Keys == continuum.Keys + {key};
  }

  /** One step of the inner loop records the next entry of the row and adds at most one bucket. */
  lemma RowStep(acc: map<real, seq<real>>, p: Point, b: seq<Point>, done: seq<Point>, j: int)
    requires 0 <= j < |b|
    requires Accumulates(acc, done + Row(p, b)[..j])
    requires |acc.Keys| <= |done| + j
    ensures Accumulates(Append(acc, MomentumKey(p, b[j]), p.e + b[j].e), done + Row(p, b)[..j + 1])
    ensures |Append(acc, MomentumKey(p, b[j]), p.e + b[j].e).Keys| <= |done| + j + 1
  {
    AppendAccumulates(acc, done + Row(p, b)[..j], MomentumKey(p, b[j]), p.e + b[j].e);
    assert Row(p, b)[..j + 1] == Row(p, b)[..j] + [Entry(p, b[j])];
    assert done + Row(p, b)[..j + 1] == (done + Row(p, b)[..j]) + [Entry(p, b[j])];
  }

  /**
   * The inner loop of `computeDispersionBoundary` for one point `p` of the
   * first relation: each point `q` of the second adds the sum of the two
   * energies to the bucket of their rounded momentum difference.
   */
  method AccumulateRow(continuum: map<real, seq<real>>, p: Point, b: seq<Point>, ghost done: seq<Point>)
    returns (next: map<real, seq<real>>)
    requires Accumulates(continuum, done)
    requires |continuum.Keys| <= |done|
    ensures Accumulates(next, done + Row(p, b))
    ensures |next.Keys| <= |done| + |b|
  {
    next := continuum;
    var j := 0;
    while j < |b|
      invariant 0 <= j <= |b|
      invariant Accumulates(next, done + Row(p, b)[..j])
      invariant |next.Keys| <= |done| + j
    {
      RowStep(next, p, b, done, j);
      next := Append(next, MomentumKey(p, b[j]), p.e + b[j].e);
      j := j + 1;
    }
    assert Row(p, b)[..|b|] == Row(p, b);
  }

  /**
   * The nested loop of `computeDispersionBoundary`: for every ordered pair, append the energy
   * sum to the bucket of its momentum key.
   */
  method Accumulate(first: seq<Point>, b: seq<Point>) returns (continuum: map<real, seq<real>>)
    ensures Accumulates(continuum, Pairs(first, b))
    ensures |continuum.Keys| <= |first| * |b|
  {
    continuum := map[];
    var i := 0;
    while i < |first|
      invariant 0 <= i <= |first|
      invariant Accumulates(continuum, Pairs(first[..i], b))
      invariant |continuum.Keys| <= |Pairs(first[..i], b)|
    {
      continuum := AccumulateRow(continuum, first[i], b, Pairs(first[..i], b));
      assert first[..i + 1][..i] == first[..i];
      assert Pairs(first[..i + 1], b) == Pairs(first[..i], b) + Row(first[i], b);
      i := i + 1;
    }
    assert first[..|first|] == first;
    PairsLength(first, b);
  }

  /**
   * `computeDispersionBoundary(first, second)`. The result lists are in the
   * (unspecified) order in which the buckets are visited; the contract holds
   * for every order.
   */
  method ComputeDispersionBoundary(first: seq<Point>, second: Option<seq<Point>>)
    returns (lower: seq<Point>, upper: seq<Point>)
    ensures IsBoundary(first, Partner(first, second), lower, upper)
    ensures |lower| <= |first| * |Partner(first, second)|
    ensures first == [] ==> lower == [] && upper == []
  {
    var b := Partner(first, second);
    var continuum := Accumulate(first, b);
    BucketKeys(first, b, continuum);
    lower, upper := Reduce(continuum);

    forall n | 0 <= n < |lower|
      ensures IsLeast(SumsAt(first, b, lower[n].k), lower[n].e)
      ensures IsGreatest(SumsAt(first, b, upper[n].k), upper[n].e)
    {
      var key := lower[n].k;
      forall e | e in continuum[key]
        ensures e in SumsAt(first, b, key)
      {
        BucketSound(first, b, continuum, key, e);
      }
      forall e | e in SumsAt(first, b, key)
        ensures e in continuum[key]
      {
        BucketComplete(first, b, continuum, key, e);
      }
    }
  }
}
