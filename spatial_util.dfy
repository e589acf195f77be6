/** The spatial utility routines, one member per routine of the original
    utility class, each proved against the definitions in `Mbr`. A looping
    routine is a method that fills fresh arrays or updates local accumulators
    in a loop, as the original does; the branching null-tolerant union is a
    function. The inner loops of the sequence folds are separate methods.

    Two access conventions are kept apart: routines over spatial objects read
    dimension `i` through the 1-based `Mbr.MinAt(b, i)` / `Mbr.MaxAt(b, i)`;
    routines over an object paired with an adapter index `b.min[d]` 0-based. */
module SpatialUtil {
  import opened Wrappers
  import Mbr

  type Box = Mbr.Box

  /** Copies the bounds of an adapted object into a new box. */
  method CopyMbr(obj: Box) returns (r: Box)
    ensures r == obj
  {
    var dim := Mbr.Dim(obj);
    var min := new real[dim];
    var max := new real[dim];
    for i := 0 to dim
      invariant forall j :: 0 <= j < i ==> min[j] == obj.min[j] && max[j] == obj.max[j]
    {
      min[i] := obj.min[i];
      max[i] := obj.max[i];
    }
    assert min[..] == obj.min && max[..] == obj.max;
    r := Mbr.Bounds(min[..], max[..]);
  }

  /** The volume of the union of two adapted objects, without building the union. */
  method VolumeUnion(r1: Box, r2: Box) returns (volume: real)
    requires Mbr.SameDim(r1, r2)
    ensures volume == Mbr.Volume(Mbr.Union(r1, r2))
  {
    ghost var u := Mbr.Union(r1, r2);
    var dim1 := Mbr.Dim(r1);
    volume := 1.0;
    for i := 0 to dim1
      invariant volume == Mbr.VolumeUpTo(u, i)
    {
      var min := Mbr.Min(r1.min[i], r2.min[i]);
      var max := Mbr.Max(r1.max[i], r2.max[i]);
      volume := volume * (max - min);
    }
  }

  /** A copy of the lower-bound vector. */
  method GetMin(box: Box) returns (min: seq<real>)
    ensures min == box.min
  {
    var dim := Mbr.Dim(box);
    var a := new real[dim];
    for i := 0 to dim
      invariant forall j :: 0 <= j < i ==> a[j] == box.min[j]
    {
      a[i] := Mbr.MinAt(box, i + 1);
    }
    min := a[..];
  }

  /** A copy of the upper-bound vector. */
  method GetMax(box: Box) returns (max: seq<real>)
    ensures max == box.max
  {
    var dim := Mbr.Dim(box);
    var a := new real[dim];
    for i := 0 to dim
      invariant forall j :: 0 <= j < i ==> a[j] == box.max[j]
    {
      a[i] := Mbr.MaxAt(box, i + 1);
    }
    max := a[..];
  }

  /** Intersection test on spatial objects; rejects differing dimensionality. */
  method Intersects(box1: Box, box2: Box) returns (r: Result<bool, Mbr.SpatialError>)
    ensures !Mbr.SameDim(box1, box2) ==> r == Err(Mbr.DimensionMismatch)
    ensures Mbr.SameDim(box1, box2) ==> r == Ok(Mbr.Intersects(box1, box2))
  {
    var dim := Mbr.Dim(box1);
    if dim != Mbr.Dim(box2) {
      return Err(Mbr.DimensionMismatch);
    }
    var intersect := true;
    for i := 1 to dim + 1
      invariant intersect
      invariant forall j :: 0 <= j < i - 1 ==> box1.min[j] <= box2.max[j] && box2.min[j] <= box1.max[j]
    {
      if Mbr.MinAt(box1, i) > Mbr.MaxAt(box2, i) || Mbr.MaxAt(box1, i) < Mbr.MinAt(box2, i) {
        intersect := false;
        break;
      }
    }
    r := Ok(intersect);
  }

  /** Intersection test on adapted objects; the caller guarantees equal
      dimensionality (checked only by a debug assertion in the original). */
  method IntersectsAdapted(box1: Box, box2: Box) returns (r: bool)
    requires Mbr.SameDim(box1, box2)
    ensures r == Mbr.Intersects(box1, box2)
  {
    var dim1 := Mbr.Dim(box1);
    for i := 0 to dim1
      invariant forall j :: 0 <= j < i ==> box1.min[j] <= box2.max[j] && box2.min[j] <= box1.max[j]
    {
      if box1.min[i] > box2.max[i] || box1.max[i] < box2.min[i] {
        return false;
      }
    }
    return true;
  }

  /** Box-in-box containment on spatial objects; rejects differing dimensionality. */
  method Contains(box1: Box, box2: Box) returns (r: Result<bool, Mbr.SpatialError>)
    ensures !Mbr.SameDim(box1, box2) ==> r == Err(Mbr.DimensionMismatch)
    ensures Mbr.SameDim(box1, box2) ==> r == Ok(Mbr.Contains(box1, box2))
  {
    var dim := Mbr.Dim(box1);
    if dim != Mbr.Dim(box2) {
      return Err(Mbr.DimensionMismatch);
    }
    var contains := true;
    for i := 1 to dim + 1
      invariant contains
      invariant forall j :: 0 <= j < i - 1 ==> box1.min[j] <= box2.min[j] && box2.max[j] <= box1.max[j]
    {
      if Mbr.MinAt(box1, i) > Mbr.MinAt(box2, i) || Mbr.MaxAt(box1, i) < Mbr.MaxAt(box2, i) {
        contains := false;
        break;
      }
    }
    r := Ok(contains);
  }

  /** Point-in-box containment; rejects a point of another dimensionality. */
  method ContainsPoint(box: Box, point: seq<real>) returns (r: Result<bool, Mbr.SpatialError>)
    ensures |point| != Mbr.Dim(box) ==> r == Err(Mbr.DimensionMismatch)
    ensures |point| == Mbr.Dim(box) ==> r == Ok(Mbr.ContainsPoint(box, point))
  {
    var dim := Mbr.Dim(box);
    if dim != |point| {
      return Err(Mbr.DimensionMismatch);
    }
    var contains := true;
    for i := 0 to dim
      invariant contains
      invariant forall j :: 0 <= j < i ==> box.min[j] <= point[j] <= box.max[j]
    {
      if Mbr.MinAt(box, i + 1) > point[i] || Mbr.MaxAt(box, i + 1) < point[i] {
        contains := false;
        break;
      }
    }
    r := Ok(contains);
  }

  /** Box-in-box containment on adapted objects; the caller guarantees equal
      dimensionality (checked only by a debug assertion in the original). */
  method ContainsAdapted(box1: Box, box2: Box) returns (r: bool)
    requires Mbr.SameDim(box1, box2)
    ensures r == Mbr.Contains(box1, box2)
  {
    var dim1 := Mbr.Dim(box1);
    for i := 0 to dim1
      invariant forall j :: 0 <= j < i ==> box1.min[j] <= box2.min[j] && box2.max[j] <= box1.max[j]
    {
      if box1.min[i] > box2.min[i] || box1.max[i] < box2.max[i] {
        return false;
      }
    }
    return true;
  }

  /** The product of the axis widths. */
  method Volume(box: Box) returns (vol: real)
    ensures vol == Mbr.Volume(box)
  {
    vol := 1.0;
    var dim := Mbr.Dim(box);
    for i := 1 to dim + 1
      invariant vol == Mbr.VolumeUpTo(box, i - 1)
    {
      vol := vol * (Mbr.MaxAt(box, i) - Mbr.MinAt(box, i));
    }
  }

  /** The sum of the axis widths. */
  method Perimeter(box: Box) returns (perimeter: real)
    ensures perimeter == Mbr.Perimeter(box)
  {
    perimeter := 0.0;
    var dim := Mbr.Dim(box);
    for i := 1 to dim + 1
      invariant perimeter == Mbr.PerimeterUpTo(box, i - 1)
    {
      perimeter := perimeter + (Mbr.MaxAt(box, i) - Mbr.MinAt(box, i));
    }
  }

  /** Overlap volume relative to the sum of the two volumes; rejects differing
      dimensionality. The division is reached only with a positive divisor. */
  method RelativeOverlap(box1: Box, box2: Box) returns (r: Result<real, Mbr.SpatialError>)
    ensures !Mbr.SameDim(box1, box2) ==> r == Err(Mbr.DimensionMismatch)
    ensures Mbr.SameDim(box1, box2) ==> r == Ok(Mbr.RelativeOverlap(box1, box2))
  {
    var dim := Mbr.Dim(box1);
    if dim != Mbr.Dim(box2) {
      return Err(Mbr.DimensionMismatch);
    }
    var overlap := 1.0;
    for i := 1 to dim + 1
      invariant overlap == Mbr.OverlapUpTo(box1, box2, i - 1)
      invariant forall j :: 0 <= j < i - 1 ==> Mbr.OverlapMin(box1, box2, j) < Mbr.OverlapMax(box1, box2, j)
    {
      var omax := Mbr.Min(Mbr.MaxAt(box1, i), Mbr.MaxAt(box2, i));
      var omin := Mbr.Max(Mbr.MinAt(box1, i), Mbr.MinAt(box2, i));
      if omax <= omin {
        assert !Mbr.Overlapping(box1, box2) by {
          assert Mbr.OverlapMax(box1, box2, i - 1) <= Mbr.OverlapMin(box1, box2, i - 1);
        }
        return Ok(0.0);
      }
      overlap := overlap * (omax - omin);
    }
    var volume1 := Volume(box1);
    var volume2 := Volume(box2);
    Mbr.OverlappingVolumesPositive(box1, box2);
    r := Ok(overlap / (volume1 + volume2));
  }

  /** The union of two spatial objects; rejects differing dimensionality. */
  method Union(box1: Box, box2: Box) returns (r: Result<Box, Mbr.SpatialError>)
    ensures !Mbr.SameDim(box1, box2) ==> r == Err(Mbr.DimensionMismatch)
    ensures Mbr.SameDim(box1, box2) ==> r == Ok(Mbr.Union(box1, box2))
  {
    var dim := Mbr.Dim(box1);
    if dim != Mbr.Dim(box2) {
      return Err(Mbr.DimensionMismatch);
    }
    var min := new real[dim];
    var max := new real[dim];
    for i := 1 to dim + 1
      invariant forall j :: 0 <= j < i - 1 ==>
        min[j] == Mbr.Min(box1.min[j], box2.min[j]) && max[j] == Mbr.Max(box1.max[j], box2.max[j])
    {
      min[i - 1] := Mbr.Min(Mbr.MinAt(box1, i), Mbr.MinAt(box2, i));
      max[i - 1] := Mbr.Max(Mbr.MaxAt(box1, i), Mbr.MaxAt(box2, i));
    }
    assert min[..] == Mbr.Union(box1, box2).min && max[..] == Mbr.Union(box1, box2).max;
    r := Ok(Mbr.Bounds(min[..], max[..]));
  }

  /** Null-tolerant union: absent only when both operands are absent, an equal
      copy of the present operand when one is absent, else the plain union
      (which rejects differing dimensionality). */
  function UnionTolerant(mbr1: Option<Box>, mbr2: Option<Box>): (r: Result<Option<Box>, Mbr.SpatialError>)
    ensures r.Err? <==> mbr1.Some? && mbr2.Some? && !Mbr.SameDim(mbr1.value, mbr2.value)
    ensures r.Err? ==> r.error == Mbr.DimensionMismatch
    ensures r.Ok? ==> (r.value.None? <==> mbr1.None? && mbr2.None?)
    ensures mbr1.None? ==> r == Ok(mbr2)
    ensures mbr2.None? ==> r == Ok(mbr1)
    ensures mbr1.Some? && mbr2.Some? && Mbr.SameDim(mbr1.value, mbr2.value) ==>
      r == Ok(Some(Mbr.Union(mbr1.value, mbr2.value)))
    ensures r.Ok? && mbr1.Some? && mbr2.Some? ==>
      r.value.Some? && Mbr.Contains(r.value.value, mbr1.value) && Mbr.Contains(r.value.value, mbr2.value)
  {
    if mbr1.None? && mbr2.None? then Ok(None)
    else if mbr1.None? then Ok(Some(mbr2.value))
    else if mbr2.None? then Ok(Some(mbr1.value))
    else if !Mbr.SameDim(mbr1.value, mbr2.value) then Err(Mbr.DimensionMismatch)
    else Ok(Some(Mbr.Union(mbr1.value, mbr2.value)))
  }

  /** The union of two adapted objects; the caller guarantees equal dimensionality. */
  method UnionAdapted(o1: Box, o2: Box) returns (r: Box)
    requires Mbr.SameDim(o1, o2)
    ensures r == Mbr.Union(o1, o2)
  {
    var dim := Mbr.Dim(o1);
    var min := new real[dim];
    var max := new real[dim];
    for d := 0 to dim
      invariant forall j :: 0 <= j < d ==>
        min[j] == Mbr.Min(o1.min[j], o2.min[j]) && max[j] == Mbr.Max(o1.max[j], o2.max[j])
    {
      min[d] := Mbr.Min(o1.min[d], o2.min[d]);
      max[d] := Mbr.Max(o1.max[d], o2.max[d]);
    }
    assert min[..] == Mbr.Union(o1, o2).min && max[..] == Mbr.Union(o1, o2).max;
    r := Mbr.Bounds(min[..], max[..]);
  }

  /** The union of a non-empty sequence of adapted objects, folded into one
      accumulator from the first element on. */
  method UnionOfSequence(data: seq<Box>) returns (r: Box)
    requires |data| > 0 && Mbr.Uniform(data)
    ensures r == Mbr.UnionAll(data)
  {
    var num := |data|;
    var first := data[0];
    var dim := Mbr.Dim(first);
    var min := new real[dim];
    var max := new real[dim];
    for d := 0 to dim
      invariant forall j :: 0 <= j < d ==> min[j] == first.min[j] && max[j] == first.max[j]
    {
      min[d] := first.min[d];
      max[d] := first.max[d];
    }
    assert data[..1] == [first];
    assert min[..] == first.min && max[..] == first.max;
    for i := 1 to num
      invariant Mbr.Uniform(data[..i])
      invariant min[..] == Mbr.UnionAll(data[..i]).min && max[..] == Mbr.UnionAll(data[..i]).max
    {
      var next := data[i];
      Mbr.UnionAllStep(data, i);
      ExtendMbr(min, max, next);
    }
    assert data[..num] == data;
    r := Mbr.Bounds(min[..], max[..]);
  }

  /** The inner loop of the structured fold: widens the box held in `min` and
      `max` to also enclose `next`, in place. */
  method ExtendMbr(min: array<real>, max: array<real>, next: Box)
    requires min != max && min.Length == max.Length == Mbr.Dim(next)
    modifies min, max
    ensures min[..] == Mbr.Union(Mbr.Bounds(old(min[..]), old(max[..])), next).min
    ensures max[..] == Mbr.Union(Mbr.Bounds(old(min[..]), old(max[..])), next).max
  {
    ghost var lo, hi := min[..], max[..];
    var dim := min.Length;
    for d := 0 to dim
      invariant forall j :: 0 <= j < d ==> min[j] == Mbr.Min(lo[j], next.min[j])
      invariant forall j :: d <= j < dim ==> min[j] == lo[j]
      invariant forall j :: 0 <= j < d ==> max[j] == Mbr.Max(hi[j], next.max[j])
      invariant forall j :: d <= j < dim ==> max[j] == hi[j]
    {
      min[d] := Mbr.Min(min[d], next.min[d]);
      max[d] := Mbr.Max(max[d], next.max[d]);
    }
  }

  /** The union of two adapted objects in the flat layout. */
  method UnionFlatMbr(o1: Box, o2: Box) returns (mbr: seq<real>)
    requires Mbr.SameDim(o1, o2)
    ensures mbr == Mbr.Flat(Mbr.Union(o1, o2))
  {
    ghost var u := Mbr.Union(o1, o2);
    var dim := Mbr.Dim(o1);
    var a := new real[2 * dim];
    for d := 0 to dim
      invariant forall j :: 0 <= j < d ==> a[j] == u.min[j] && a[dim + j] == u.max[j]
    {
      a[d] := Mbr.Min(o1.min[d], o2.min[d]);
      a[dim + d] := Mbr.Max(o1.max[d], o2.max[d]);
    }
    assert a[..] == Mbr.Flat(u);
    mbr := a[..];
  }

  /** The union of a non-empty sequence of adapted objects in the flat layout. */
  method UnionFlatMbrOfSequence(data: seq<Box>) returns (mbr: seq<real>)
    requires |data| > 0 && Mbr.Uniform(data)
    ensures mbr == Mbr.Flat(Mbr.UnionAll(data))
  {
    var num := |data|;
    var first := data[0];
    var dim := Mbr.Dim(first);
    var a := new real[2 * dim];
    InitFlatMbr(a, dim, first);
    assert data[..1] == [first];
    for i := 1 to num
      invariant Mbr.Uniform(data[..i])
      invariant a[..dim] == Mbr.UnionAll(data[..i]).min && a[dim..] == Mbr.UnionAll(data[..i]).max
    {
      var next := data[i];
      Mbr.UnionAllStep(data, i);
      ghost var acc := Mbr.UnionAll(data[..i]);
      assert Mbr.Bounds(a[..dim], a[dim..]) == acc;
      ExtendFlatMbr(a, dim, next);
      assert Mbr.UnionAll(data[..i + 1]) == Mbr.Union(acc, next);
    }
    assert data[..num] == data;
    assert a[..] == Mbr.Flat(Mbr.UnionAll(data)) by {
      assert a[..] == a[..dim] + a[dim..];
    }
    mbr := a[..];
  }

  /** The first loop of the flat fold: copies the bounds of `first` into the
      flat layout held in `mbr`. */
  method InitFlatMbr(mbr: array<real>, dim: nat, first: Box)
    requires mbr.Length == dim + dim && Mbr.Dim(first) == dim
    modifies mbr
    ensures mbr[..dim] == first.min && mbr[dim..] == first.max
  {
    for d := 0 to dim
      invariant forall j :: 0 <= j < d ==> mbr[j] == first.min[j]
      invariant forall k :: dim <= k < dim + d ==> mbr[k] == first.max[k - dim]
    {
      mbr[d] := first.min[d];
      mbr[dim + d] := first.max[d];
    }
    assert forall j :: 0 <= j < dim ==> mbr[dim..][j] == mbr[dim + j];
  }

  /** The inner loop of the flat fold: widens the flat box held in `mbr`
      (lower bounds first, upper bounds from `dim` on) to also enclose `next`,
      in place. */
  method ExtendFlatMbr(mbr: array<real>, dim: nat, next: Box)
    requires mbr.Length == dim + dim && Mbr.Dim(next) == dim
    modifies mbr
    ensures mbr[..dim] == Mbr.Union(Mbr.Bounds(old(mbr[..dim]), old(mbr[dim..])), next).min
    ensures mbr[dim..] == Mbr.Union(Mbr.Bounds(old(mbr[..dim]), old(mbr[dim..])), next).max
  {
    ghost var s := mbr[..];
    for d := 0 to dim
      invariant forall j :: 0 <= j < d ==> mbr[j] == Mbr.Min(s[j], next.min[j])
      invariant forall j :: d <= j < dim ==> mbr[j] == s[j]
      invariant forall k :: dim <= k < dim + d ==> mbr[k] == Mbr.Max(s[k], next.max[k - dim])
      invariant forall k :: dim + d <= k < mbr.Length ==> mbr[k] == s[k]
    {
      mbr[d] := Mbr.Min(mbr[d], next.min[d]);
      mbr[dim + d] := Mbr.Max(mbr[dim + d], next.max[d]);
    }
  }

  /** The midpoint of every axis. */
  method Centroid(obj: Box) returns (centroid: seq<real>)
    ensures |centroid| == Mbr.Dim(obj)
    ensures forall i :: 0 <= i < Mbr.Dim(obj) ==> obj.min[i] <= obj.max[i] ==>
      obj.min[i] <= centroid[i] <= obj.max[i]
    ensures centroid == Mbr.Centroid(obj)
  {
    var dim := Mbr.Dim(obj);
    var a := new real[dim];
    for d := 1 to dim + 1
      invariant forall j :: 0 <= j < d - 1 ==> a[j] == (obj.max[j] + obj.min[j]) / 2.0
    {
      a[d - 1] := (Mbr.MaxAt(obj, d) + Mbr.MinAt(obj, d)) / 2.0;
    }
    centroid := a[..];
  }

  /** A value of Java's 32-bit `int`. */
  predicate IsInt32(x: int) { -0x8000_0000 <= x < 0x8000_0000 }

  /** 32-bit two's-complement wrap-around of an `int` sum or difference. */
  function Wrap32(x: int): (r: int)
    ensures IsInt32(r) && (r - x) % 0x1_0000_0000 == 0
    ensures IsInt32(x) ==> r == x
  {
    (x + 0x8000_0000) % 0x1_0000_0000 - 0x8000_0000
  }

  /** The midpoints of the inclusive 1-based dimension window `start..end`.
      The length `end - start + 1` and the first index `start - 1` are 32-bit
      sums that wrap around. A negative length cannot be allocated. When the
      loop does not run, the fresh array of zeros comes back, which for an
      ordinary window means `end == start - 1` and an empty result. A window
      reaching outside `1..dim` fails on its first such dimension. */
  method CentroidRange(obj: Box, start: int, end: int) returns (r: Result<seq<real>, Mbr.SpatialError>)
    requires IsInt32(start) && IsInt32(end)
    ensures Wrap32(end - start + 1) < 0 ==> r == Err(Mbr.NegativeArraySize)
    ensures Wrap32(end - start + 1) >= 0 && Wrap32(start - 1) >= end ==>
      r == Ok(seq(Wrap32(end - start + 1), _ => 0.0))
    ensures Wrap32(end - start + 1) >= 0 && Wrap32(start - 1) < end && (start < 1 || end > Mbr.Dim(obj)) ==>
      r == Err(Mbr.IndexOutOfRange)
    ensures Wrap32(end - start + 1) >= 0 && Wrap32(start - 1) < end && 1 <= start && end <= Mbr.Dim(obj) ==>
      r.Ok? && |r.value| == end - start + 1 &&
      forall k :: 0 <= k < |r.value| ==> r.value[k] == Mbr.Centroid(obj)[start - 1 + k]
  {
    var n := Wrap32(end - start + 1);
    if n < 0 {
      return Err(Mbr.NegativeArraySize);
    }
    var a := new real[n](_ => 0.0);
    var first := Wrap32(start - 1);
    if first >= end {
      assert a[..] == seq(n, _ => 0.0);
      return Ok(a[..]);
    }
    assert first == start - 1 && n == end - start + 1;
    for d := first to end
      invariant d == start - 1 || (1 <= start && d <= Mbr.Dim(obj))
      invariant forall j :: start - 1 <= j < d ==> a[j - start + 1] == Mbr.Centroid(obj)[j]
    {
      if d + 1 < 1 || d + 1 > Mbr.Dim(obj) {
        return Err(Mbr.IndexOutOfRange);
      }
      a[d - start + 1] := (Mbr.MaxAt(obj, d + 1) + Mbr.MinAt(obj, d + 1)) / 2.0;
    }
    r := Ok(a[..]);
  }

  /** The 32-bit values `CentroidRange` computes for the extreme windows
      with `start = Integer.MIN_VALUE`. The first index wraps to
      `Integer.MAX_VALUE`. The length wraps to 0 for `end = Integer.MAX_VALUE`
      and to a negative value for `end = 0`, and it is `Integer.MAX_VALUE` for
      `end = -2`. The outcomes of those windows follow from `CentroidRange`'s
      ensures: an empty result, `NegativeArraySize`, and an array of zeros. */
  lemma CentroidRangeWrapWindows()
    ensures Wrap32(-0x8000_0000 - 1) == 0x7fff_ffff
    ensures Wrap32(0x7fff_ffff - -0x8000_0000 + 1) == 0
    ensures Wrap32(0 - -0x8000_0000 + 1) < 0
    ensures Wrap32(-2 - -0x8000_0000 + 1) == 0x7fff_ffff
  {
  }

  /** Exact equality of the two boxes' bounds; false on differing dimensionality. */
  method Equals(box1: Box, box2: Box) returns (r: bool)
    ensures r <==> box1 == box2
  {
    if Mbr.Dim(box1) != Mbr.Dim(box2) {
      return false;
    }
    for i := 1 to Mbr.Dim(box1) + 1
      invariant forall j :: 0 <= j < i - 1 ==> box1.min[j] == box2.min[j] && box1.max[j] == box2.max[j]
    {
      if Mbr.MinAt(box1, i) != Mbr.MinAt(box2, i) {
        return false;
      }
      if Mbr.MaxAt(box1, i) != Mbr.MaxAt(box2, i) {
        return false;
      }
    }
    assert box1.min == box2.min && box1.max == box2.max;
    return true;
  }
}
