/** Axis-aligned minimum bounding rectangles (MBRs) in n dimensions, and the
    mathematical meaning of every quantity the spatial utilities compute.
    Coordinates are reals; axis `i` of a box is `[min[i], max[i]]`. */
module Mbr {

  /** The raw pair of bound vectors. */
  datatype Bounds = Bounds(min: seq<real>, max: seq<real>)

  /** A bounding box: both bound vectors have the box's dimensionality. */
  type Box = b: Bounds | |b.min| == |b.max| witness Bounds([], [])

  /** The errors the utilities raise. */
  datatype SpatialError =
    | DimensionMismatch   // IllegalArgumentException: operands of different dimensionality
    | IndexOutOfRange     // a 1-based dimension outside [1, dimensionality]
    | NegativeArraySize   // a window whose end lies more than one before its start

  function Dim(b: Box): nat { |b.min| }

  predicate SameDim(a: Box, b: Box) { Dim(a) == Dim(b) }

  /** Well-formed: the lower bound does not exceed the upper bound on any axis.
      No operation enforces this on its output. */
  predicate Ordered(b: Box) {
    forall i :: 0 <= i < Dim(b) ==> b.min[i] <= b.max[i]
  }

  /** The 1-based accessors of a spatial object: dimension `i` is `min[i - 1]`. */
  function MinAt(b: Box, i: int): real
    requires 1 <= i <= Dim(b)
  {
    b.min[i - 1]
  }

  function MaxAt(b: Box, i: int): real
    requires 1 <= i <= Dim(b)
  {
    b.max[i - 1]
  }

  /** Math.min and Math.max on coordinates. */
  function Min(x: real, y: real): real { if x <= y then x else y }

  function Max(x: real, y: real): real { if x >= y then x else y }

  /** The degenerate box whose bounds are both the point `p`. */
  function Degenerate(p: seq<real>): Box { Bounds(p, p) }

  // ---------------------------------------------------------------------
  // Relations

  /** The boxes share a point on every axis (touching counts). */
  predicate Intersects(a: Box, b: Box) {
    SameDim(a, b) &&
    forall i :: 0 <= i < Dim(a) ==> a.min[i] <= b.max[i] && b.min[i] <= a.max[i]
  }

  /** `outer` encloses `inner` on every axis. */
  predicate Contains(outer: Box, inner: Box) {
    SameDim(outer, inner) &&
    forall i :: 0 <= i < Dim(outer) ==> outer.min[i] <= inner.min[i] && inner.max[i] <= outer.max[i]
  }

  /** The point `p` lies in `b` (boundary included). */
  predicate ContainsPoint(b: Box, p: seq<real>) {
    |p| == Dim(b) &&
    forall i :: 0 <= i < Dim(b) ==> b.min[i] <= p[i] <= b.max[i]
  }

  // ---------------------------------------------------------------------
  // Construction

  /** The smallest box enclosing both operands. */
  function Union(a: Box, b: Box): (r: Box)
    requires SameDim(a, b)
    ensures Dim(r) == Dim(a)
  {
    Bounds(seq(Dim(a), i requires 0 <= i < Dim(a) => Min(a.min[i], b.min[i])),
           seq(Dim(a), i requires 0 <= i < Dim(a) => Max(a.max[i], b.max[i])))
  }

  /** All boxes of a sequence share one dimensionality. */
  predicate Uniform(bs: seq<Box>) {
    forall i :: 0 <= i < |bs| ==> Dim(bs[i]) == Dim(bs[0])
  }

  /** The union of a non-empty sequence, folded from its first element. */
  function UnionAll(bs: seq<Box>): (r: Box)
    requires |bs| > 0 && Uniform(bs)
    ensures Dim(r) == Dim(bs[0])
    decreases |bs|
  {
    if |bs| == 1 then bs[0]
    else
      var init := bs[..|bs| - 1];
      assert init[0] == bs[0];
      Union(UnionAll(init), bs[|bs| - 1])
  }

  /** One more element folds into the union of the elements before it. */
  lemma UnionAllStep(bs: seq<Box>, i: nat)
    requires 0 < i < |bs| && Uniform(bs)
    ensures Uniform(bs[..i]) && Uniform(bs[..i + 1])
    ensures Dim(UnionAll(bs[..i])) == Dim(bs[i])
    ensures UnionAll(bs[..i + 1]) == Union(UnionAll(bs[..i]), bs[i])
  {
    assert bs[..i + 1][..i] == bs[..i];
  }

  /** The flat layout `[min_0 .. min_{d-1}, max_0 .. max_{d-1}]`. */
  function Flat(b: Box): seq<real> { b.min + b.max }

  /** Reads a box back from its flat layout. */
  function Unflat(s: seq<real>): Box
    requires |s| % 2 == 0
  {
    Bounds(s[..|s| / 2], s[|s| / 2..])
  }

  // ---------------------------------------------------------------------
  // Scalars

  /** The extent of axis `i`. */
  function Width(b: Box, i: nat): real
    requires i < Dim(b)
  {
    b.max[i] - b.min[i]
  }

  /** The product of the widths of the first `k` axes. */
  function VolumeUpTo(b: Box, k: nat): real
    requires k <= Dim(b)
  {
    if k == 0 then 1.0 else VolumeUpTo(b, k - 1) * Width(b, k - 1)
  }

  function Volume(b: Box): real { VolumeUpTo(b, Dim(b)) }

  /** The sum of the widths of the first `k` axes. */
  function PerimeterUpTo(b: Box, k: nat): real
    requires k <= Dim(b)
  {
    if k == 0 then 0.0 else PerimeterUpTo(b, k - 1) + Width(b, k - 1)
  }

  function Perimeter(b: Box): real { PerimeterUpTo(b, Dim(b)) }

  /** Bounds of the overlap of `a` and `b` on axis `i`. */
  function OverlapMin(a: Box, b: Box, i: nat): real
    requires SameDim(a, b) && i < Dim(a)
  {
    Max(a.min[i], b.min[i])
  }

  function OverlapMax(a: Box, b: Box, i: nat): real
    requires SameDim(a, b) && i < Dim(a)
  {
    Min(a.max[i], b.max[i])
  }

  /** The overlap has positive extent on every axis. */
  predicate Overlapping(a: Box, b: Box)
    requires SameDim(a, b)
  {
    forall i :: 0 <= i < Dim(a) ==> OverlapMin(a, b, i) < OverlapMax(a, b, i)
  }

  /** The product of the overlap extents of the first `k` axes. */
  function OverlapUpTo(a: Box, b: Box, k: nat): real
    requires SameDim(a, b) && k <= Dim(a)
  {
    if k == 0 then 1.0
    else OverlapUpTo(a, b, k - 1) * (OverlapMax(a, b, k - 1) - OverlapMin(a, b, k - 1))
  }

  /** Overlap volume divided by the SUM of the two volumes; 0 as soon as one
      axis has no overlap of positive extent. */
  function RelativeOverlap(a: Box, b: Box): real
    requires SameDim(a, b)
  {
    if Overlapping(a, b) then
      OverlappingVolumesPositive(a, b);
      OverlapUpTo(a, b, Dim(a)) / (Volume(a) + Volume(b))
    else 0.0
  }

  /** The midpoint of every axis. */
  function Centroid(b: Box): (c: seq<real>)
    ensures |c| == Dim(b)
  {
    seq(Dim(b), i requires 0 <= i < Dim(b) => (b.max[i] + b.min[i]) / 2.0)
  }

  // ---------------------------------------------------------------------
  // Positivity facts that keep RelativeOverlap's division defined

  lemma {:induction false} PositiveWidthsVolume(b: Box, k: nat)
    requires k <= Dim(b)
    requires forall i :: 0 <= i < k ==> b.min[i] < b.max[i]
    ensures VolumeUpTo(b, k) > 0.0
  {
    if k > 0 {
      PositiveWidthsVolume(b, k - 1);
      var v, w := VolumeUpTo(b, k - 1), Width(b, k - 1);
      assert w > 0.0;
      assert v * w > 0.0;
    }
  }

  /** Overlap of positive extent on every axis forces both boxes to have
      positive width on every axis, so both volumes are positive. */
  lemma OverlappingVolumesPositive(a: Box, b: Box)
    requires SameDim(a, b) && Overlapping(a, b)
    ensures Volume(a) > 0.0 && Volume(b) > 0.0
  {
    forall i | 0 <= i < Dim(a)
      ensures a.min[i] < a.max[i] && b.min[i] < b.max[i]
    {
      assert OverlapMin(a, b, i) < OverlapMax(a, b, i);
    }
    PositiveWidthsVolume(a, Dim(a));
    PositiveWidthsVolume(b, Dim(b));
  }
}
