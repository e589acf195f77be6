/** Order-theoretic and arithmetic properties of the bounding-box algebra:
    containment is a partial order, union is its least upper bound, the
    sequence fold agrees with pairwise union, volume is monotone, and the
    relative overlap is a symmetric score in [0, 1/2] that is positive exactly
    when the boxes overlap with positive extent on every axis. */
module MbrProperties {
  import opened Mbr

  // ---------------------------------------------------------------------
  // Containment and intersection

  lemma ContainsReflexive(a: Box)
    ensures Contains(a, a)
  {
  }

  lemma ContainsTransitive(a: Box, b: Box, c: Box)
    requires Contains(a, b) && Contains(b, c)
    ensures Contains(a, c)
  {
  }

  /** Mutual containment is exact equality of the bounds. */
  lemma ContainsAntisymmetric(a: Box, b: Box)
    requires Contains(a, b) && Contains(b, a)
    ensures a == b
  {
    assert a.min == b.min;
    assert a.max == b.max;
  }

  /** A point lies in a box exactly when the degenerate box at that point does. */
  lemma ContainsPointAsDegenerate(b: Box, p: seq<real>)
    ensures ContainsPoint(b, p) <==> Contains(b, Degenerate(p))
  {
  }

  lemma IntersectsSymmetric(a: Box, b: Box)
    ensures Intersects(a, b) <==> Intersects(b, a)
  {
  }

  lemma IntersectsReflexive(a: Box)
    requires Ordered(a)
    ensures Intersects(a, a)
  {
  }

  /** A well-formed box meets every box that encloses it. */
  lemma ContainsImpliesIntersects(outer: Box, inner: Box)
    requires Ordered(inner) && Contains(outer, inner)
    ensures Intersects(outer, inner) && Intersects(inner, outer)
  {
  }

  // ---------------------------------------------------------------------
  // Union

  lemma UnionContainsOperands(a: Box, b: Box)
    requires SameDim(a, b)
    ensures Contains(Union(a, b), a) && Contains(Union(a, b), b)
  {
  }

  /** Every box enclosing both operands encloses their union. */
  lemma UnionIsLeast(a: Box, b: Box, c: Box)
    requires SameDim(a, b)
    ensures Contains(c, a) && Contains(c, b) <==> Contains(c, Union(a, b))
  {
  }

  lemma UnionCommutative(a: Box, b: Box)
    requires SameDim(a, b)
    ensures Union(a, b) == Union(b, a)
  {
    assert Union(a, b).min == Union(b, a).min;
    assert Union(a, b).max == Union(b, a).max;
  }

  lemma UnionAssociative(a: Box, b: Box, c: Box)
    requires SameDim(a, b) && SameDim(b, c)
    ensures Union(Union(a, b), c) == Union(a, Union(b, c))
  {
    assert Union(Union(a, b), c).min == Union(a, Union(b, c)).min;
    assert Union(Union(a, b), c).max == Union(a, Union(b, c)).max;
  }

  lemma UnionIdempotent(a: Box)
    ensures Union(a, a) == a
  {
    assert Union(a, a).min == a.min;
    assert Union(a, a).max == a.max;
  }

  /** The union of a well-formed box with itself or anything is well formed. */
  lemma UnionOrdered(a: Box, b: Box)
    requires SameDim(a, b) && Ordered(a)
    ensures Ordered(Union(a, b))
  {
  }

  // ---------------------------------------------------------------------
  // Union of a sequence

  lemma UnionAllSingleton(b: Box)
    ensures UnionAll([b]) == b
  {
  }

  /** Folding a two-element sequence is the pairwise union. */
  lemma UnionAllPair(a: Box, b: Box)
    requires SameDim(a, b)
    ensures Uniform([a, b]) && UnionAll([a, b]) == Union(a, b)
  {
    assert [a, b][..1] == [a];
  }

  /** The fold encloses every element. */
  lemma {:induction false} UnionAllContainsEach(bs: seq<Box>, i: nat)
    requires |bs| > 0 && Uniform(bs) && i < |bs|
    ensures Contains(UnionAll(bs), bs[i])
    decreases |bs|
  {
    var n := |bs|;
    if n > 1 {
      var init := bs[..n - 1];
      assert Uniform(init) && init[0] == bs[0];
      if i < n - 1 {
        UnionAllContainsEach(init, i);
        assert init[i] == bs[i];
        ContainsTransitive(UnionAll(bs), UnionAll(init), bs[i]);
      }
    } else {
      ContainsReflexive(bs[0]);
    }
  }

  /** Every box enclosing all elements encloses the fold: the fold is the
      smallest enclosing box. */
  lemma {:induction false} UnionAllIsLeast(bs: seq<Box>, c: Box)
    requires |bs| > 0 && Uniform(bs)
    requires forall i :: 0 <= i < |bs| ==> Contains(c, bs[i])
    ensures Contains(c, UnionAll(bs))
    decreases |bs|
  {
    var n := |bs|;
    if n > 1 {
      var init := bs[..n - 1];
      assert Uniform(init) && init[0] == bs[0];
      forall i | 0 <= i < |init|
        ensures Contains(c, init[i])
      {
        assert init[i] == bs[i];
      }
      UnionAllIsLeast(init, c);
      UnionIsLeast(UnionAll(init), bs[n - 1], c);
    }
  }

  /** Splitting the sequence anywhere and uniting the two folds gives the fold
      of the whole: the order of accumulation does not matter. */
  lemma {:induction false} UnionAllAppend(xs: seq<Box>, ys: seq<Box>)
    requires |xs| > 0 && |ys| > 0 && Uniform(xs + ys)
    ensures Uniform(xs) && Uniform(ys) && SameDim(UnionAll(xs), UnionAll(ys))
    ensures UnionAll(xs + ys) == Union(UnionAll(xs), UnionAll(ys))
    decreases |ys|
  {
    var all := xs + ys;
    assert forall i :: 0 <= i < |xs| ==> all[i] == xs[i];
    assert forall j :: 0 <= j < |ys| ==> all[|xs| + j] == ys[j];
    assert Uniform(xs);
    assert Uniform(ys);
    var n := |all|;
    assert all[..n - 1][0] == all[0];
    if |ys| == 1 {
      assert all[..n - 1] == xs;
    } else {
      var init := ys[..|ys| - 1];
      assert all[..n - 1] == xs + init;
      assert Uniform(xs + init) by {
        assert forall i :: 0 <= i < |xs + init| ==> (xs + init)[i] == all[i];
      }
      UnionAllAppend(xs, init);
      assert init[0] == ys[0];
      UnionAssociative(UnionAll(xs), UnionAll(init), ys[|ys| - 1]);
    }
  }

  // ---------------------------------------------------------------------
  // Flat layout

  lemma FlatLayout(b: Box, d: nat)
    requires d < Dim(b)
    ensures |Flat(b)| == 2 * Dim(b)
    ensures Flat(b)[d] == b.min[d] && Flat(b)[Dim(b) + d] == b.max[d]
  {
  }

  /** Reading the flat layout back gives the box that was written. */
  lemma UnflatFlat(b: Box)
    ensures |Flat(b)| == 2 * Dim(b)
    ensures Unflat(Flat(b)) == b
  {
    var s := Flat(b);
    assert s[..|s| / 2] == b.min;
    assert s[|s| / 2..] == b.max;
  }

  /** Every even-length vector is the flat layout of exactly one box. */
  lemma FlatUnflat(s: seq<real>)
    requires |s| % 2 == 0
    ensures Flat(Unflat(s)) == s
  {
    assert s[..|s| / 2] + s[|s| / 2..] == s;
  }

  // ---------------------------------------------------------------------
  // Volume and perimeter

  lemma MulMonotone(x: real, xx: real, y: real, yy: real)
    requires 0.0 <= x <= xx && 0.0 <= y <= yy
    ensures 0.0 <= x * y <= xx * yy
  {
    assert x * y <= xx * y;
    assert xx * y <= xx * yy;
  }

  lemma {:induction false} VolumeUpToMonotone(outer: Box, inner: Box, k: nat)
    requires Ordered(inner) && Contains(outer, inner) && k <= Dim(inner)
    ensures 0.0 <= VolumeUpTo(inner, k) <= VolumeUpTo(outer, k)
  {
    if k > 0 {
      VolumeUpToMonotone(outer, inner, k - 1);
      MulMonotone(VolumeUpTo(inner, k - 1), VolumeUpTo(outer, k - 1), Width(inner, k - 1), Width(outer, k - 1));
    }
  }

  /** A well-formed box has a non-negative volume no larger than that of any
      box enclosing it. */
  lemma VolumeMonotone(outer: Box, inner: Box)
    requires Ordered(inner) && Contains(outer, inner)
    ensures 0.0 <= Volume(inner) <= Volume(outer)
  {
    VolumeUpToMonotone(outer, inner, Dim(inner));
  }

  /** Enlarging a well-formed box by a union never shrinks its volume. */
  lemma UnionVolumeAtLeastOperands(a: Box, b: Box)
    requires SameDim(a, b) && Ordered(a) && Ordered(b)
    ensures Volume(a) <= Volume(Union(a, b)) && Volume(b) <= Volume(Union(a, b))
  {
    UnionContainsOperands(a, b);
    VolumeMonotone(Union(a, b), a);
    VolumeMonotone(Union(a, b), b);
  }

  /** A 0-dimensional box has the empty product as volume and the empty sum
      as edge-length sum. */
  lemma ZeroDimensionalVolume(b: Box)
    requires Dim(b) == 0
    ensures Volume(b) == 1.0 && Perimeter(b) == 0.0
  {
  }

  /** A box with an axis of zero width has zero volume. */
  lemma {:induction false} FlatAxisVolumeZero(b: Box, k: nat, i: nat)
    requires i < k <= Dim(b) && b.min[i] == b.max[i]
    ensures VolumeUpTo(b, k) == 0.0
  {
    if i < k - 1 {
      FlatAxisVolumeZero(b, k - 1, i);
    } else {
      assert Width(b, k - 1) == 0.0;
    }
  }

  lemma {:induction false} PerimeterUpToMonotone(outer: Box, inner: Box, k: nat)
    requires Ordered(inner) && Contains(outer, inner) && k <= Dim(inner)
    ensures 0.0 <= PerimeterUpTo(inner, k) <= PerimeterUpTo(outer, k)
  {
    if k > 0 {
      PerimeterUpToMonotone(outer, inner, k - 1);
    }
  }

  /** A well-formed box has a non-negative edge-length sum no larger than that
      of any box enclosing it. */
  lemma PerimeterMonotone(outer: Box, inner: Box)
    requires Ordered(inner) && Contains(outer, inner)
    ensures 0.0 <= Perimeter(inner) <= Perimeter(outer)
  {
    PerimeterUpToMonotone(outer, inner, Dim(inner));
  }

  // ---------------------------------------------------------------------
  // Relative overlap

  lemma {:induction false} OverlapUpToSymmetric(a: Box, b: Box, k: nat)
    requires SameDim(a, b) && k <= Dim(a)
    ensures OverlapUpTo(a, b, k) == OverlapUpTo(b, a, k)
  {
    if k > 0 {
      OverlapUpToSymmetric(a, b, k - 1);
    }
  }

  lemma OverlappingSymmetric(a: Box, b: Box)
    requires SameDim(a, b)
    ensures Overlapping(a, b) <==> Overlapping(b, a)
  {
    forall i | 0 <= i < Dim(a)
      ensures OverlapMin(a, b, i) == OverlapMin(b, a, i) && OverlapMax(a, b, i) == OverlapMax(b, a, i)
    {
    }
  }

  lemma RelativeOverlapSymmetric(a: Box, b: Box)
    requires SameDim(a, b)
    ensures RelativeOverlap(a, b) == RelativeOverlap(b, a)
  {
    OverlappingSymmetric(a, b);
    OverlapUpToSymmetric(a, b, Dim(a));
  }

  /** Boxes that do not intersect have no overlap of positive extent. */
  lemma RelativeOverlapZeroWhenDisjoint(a: Box, b: Box)
    requires SameDim(a, b) && !Intersects(a, b)
    ensures RelativeOverlap(a, b) == 0.0
  {
    var i :| 0 <= i < Dim(a) && !(a.min[i] <= b.max[i] && b.min[i] <= a.max[i]);
    assert !(OverlapMin(a, b, i) < OverlapMax(a, b, i));
  }

  /** Overlap of positive extent implies intersection. */
  lemma OverlappingIntersects(a: Box, b: Box)
    requires SameDim(a, b) && Overlapping(a, b)
    ensures Intersects(a, b)
  {
    forall i | 0 <= i < Dim(a)
      ensures a.min[i] <= b.max[i] && b.min[i] <= a.max[i]
    {
      assert OverlapMin(a, b, i) < OverlapMax(a, b, i);
    }
  }

  lemma {:induction false} OverlapUpToPositive(a: Box, b: Box, k: nat)
    requires SameDim(a, b) && k <= Dim(a) && Overlapping(a, b)
    ensures 0.0 < OverlapUpTo(a, b, k)
  {
    if k > 0 {
      OverlapUpToPositive(a, b, k - 1);
      var o, w := OverlapUpTo(a, b, k - 1), OverlapMax(a, b, k - 1) - OverlapMin(a, b, k - 1);
      assert 0.0 < w;
      assert 0.0 < o * w;
    }
  }

  /** On every axis the overlap is no wider than the box itself, so the
      accumulated overlap never exceeds the box's own volume. */
  lemma {:induction false} OverlapUpToAtMostVolume(a: Box, b: Box, k: nat)
    requires SameDim(a, b) && k <= Dim(a) && Overlapping(a, b)
    ensures OverlapUpTo(a, b, k) <= VolumeUpTo(a, k)
  {
    if k > 0 {
      OverlapUpToAtMostVolume(a, b, k - 1);
      OverlapUpToPositive(a, b, k - 1);
      var w := OverlapMax(a, b, k - 1) - OverlapMin(a, b, k - 1);
      assert 0.0 < w <= Width(a, k - 1);
      MulMonotone(OverlapUpTo(a, b, k - 1), VolumeUpTo(a, k - 1), w, Width(a, k - 1));
    }
  }

  /** The score is positive exactly when the boxes overlap with positive
      extent on every axis, and never exceeds one half (the overlap is at
      most the smaller of the two volumes). */
  lemma RelativeOverlapRange(a: Box, b: Box)
    requires SameDim(a, b)
    ensures 0.0 <= RelativeOverlap(a, b) <= 0.5
    ensures RelativeOverlap(a, b) > 0.0 <==> Overlapping(a, b)
  {
    if Overlapping(a, b) {
      OverlappingVolumesPositive(a, b);
      OverlapUpToPositive(a, b, Dim(a));
      OverlapUpToAtMostVolume(a, b, Dim(a));
      OverlappingSymmetric(a, b);
      OverlapUpToAtMostVolume(b, a, Dim(a));
      OverlapUpToSymmetric(a, b, Dim(a));
      var o, s := OverlapUpTo(a, b, Dim(a)), Volume(a) + Volume(b);
      assert 0.0 < o && o + o <= s && 0.0 < s;
      assert o / s <= 0.5 by {
        assert o / s * s == o;
      }
      assert o / s > 0.0;
    }
  }

  /** Two 2-by-2 squares offset by one on both axes share a unit square:
      1 / (4 + 4). */
  lemma RelativeOverlapExample()
    ensures RelativeOverlap(Bounds([0.0, 0.0], [2.0, 2.0]), Bounds([1.0, 1.0], [3.0, 3.0])) == 0.125
  {
    var a: Box := Bounds([0.0, 0.0], [2.0, 2.0]);
    var b: Box := Bounds([1.0, 1.0], [3.0, 3.0]);
    assert OverlapMin(a, b, 0) == 1.0 && OverlapMax(a, b, 0) == 2.0;
    assert OverlapMin(a, b, 1) == 1.0 && OverlapMax(a, b, 1) == 2.0;
    assert Overlapping(a, b);
    assert OverlapUpTo(a, b, 2) == 1.0;
    assert Volume(a) == 4.0 && Volume(b) == 4.0;
  }

  // ---------------------------------------------------------------------
  // Centroid

  /** The centroid of a well-formed box lies inside it. */
  lemma CentroidContained(b: Box)
    requires Ordered(b)
    ensures ContainsPoint(b, Centroid(b))
  {
  }
}
