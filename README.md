# Bounding-box algebra of ELKI's `SpatialUtil`

This project models the minimum-bounding-rectangle (MBR) utilities of ELKI's
`SpatialUtil` class in Dafny and proves properties of them. An MBR is an
axis-aligned box in n dimensions, given by a vector of lower bounds `min`
and a vector of upper bounds `max`. The utilities cover several things:

- copying an object's MBR and extracting its `min`/`max` vectors;
- intersection, box-in-box and point-in-box containment, exact equality;
- the union of two boxes (strict, null-tolerant, and over adapted objects);
- the union of a sequence of objects, in the structured and the flat
  `[min_0..min_{d-1}, max_0..max_{d-1}]` layout;
- volume, perimeter (the sum of edge lengths) and the volume of a union;
- the relative overlap score;
- the centroid, of the whole box or of a 1-based window of dimensions.

Files:

- `wrappers.dfy` (module `Wrappers`): `Option` stands for a possibly-null
  box. `Result` stands for a routine that returns a value or throws.
- `mbr.dfy` (module `Mbr`): the `Box` value type, the 1-based accessors
  `MinAt`/`MaxAt` and the mathematical definition of every quantity:
  `Intersects`, `Contains`, `ContainsPoint`, `Union`, `UnionAll` (the left
  fold of `Union` from element 0), `Flat`/`Unflat`, `Volume`, `Perimeter`,
  `Overlapping`, `RelativeOverlap` and `Centroid`.
  `RelativeOverlap` divides by `Volume(a) + Volume(b)`. The lemma
  `OverlappingVolumesPositive` shows this divisor is positive whenever the
  division is reached.
- `spatial_util.dfy` (module `SpatialUtil`): one member per Java routine,
  whose `ensures` ties the result to the `Mbr` definition. The looping
  routines are methods that fill fresh arrays or update local accumulators
  in a loop, as the Java does. `unionTolerant` only branches, so it is the
  function `UnionTolerant`. The sequence folds keep their outer loop; their
  inner loops, and the flat fold's first loop, are the separate methods
  `ExtendMbr`, `InitFlatMbr` and `ExtendFlatMbr`, whose `ensures` state the
  whole new array contents. `Wrap32` is Java's 32-bit `int` wrap-around,
  used by the centroid of a dimension window.
- `properties.dfy` (module `MbrProperties`): the lemmas. Containment is a
  partial order, and antisymmetry gives exact equality. Union is the least
  upper bound, commutative and associative. The sequence fold encloses every
  element, is the least such box, and splits over concatenation. Volume and
  perimeter are monotone under containment. Relative overlap is symmetric,
  zero for disjoint boxes, and lies in `[0, 1/2]`. It is positive exactly
  when the boxes overlap with positive extent on every axis. The centroid
  lies in its box.

The Java mixes two dimension conventions. Routines over a
`SpatialComparable` use 1-based dimensions. They are modelled through
`Mbr.MinAt(b, i) == b.min[i - 1]` and `Mbr.MaxAt(b, i) == b.max[i - 1]`,
and the loops keep the Java's two loop shapes. `getMin`, `getMax` and
`contains(box, point)` run `i` from 0 to `dim - 1` and read dimension
`i + 1` (SpatialUtil.java:92-93, :106-107, :195-196). The other
`SpatialComparable` routines run `i` from 1 to `dim` and store at `i - 1`,
except the centroid of a window, which runs `d` from `start - 1` to
`end - 1` and reads dimension `d + 1`. Routines over an object
with a `SpatialAdapter` use 0-based dimensions and index `b.min[d]` directly.
The `SpatialComparable` routines that throw `IllegalArgumentException` on a
dimensionality mismatch return `Err(DimensionMismatch)`. The adapter
routines check dimensionality only in a debug assertion, or not at all. They
take a precondition instead: `requires SameDim(...)` for two objects, and
`requires Uniform(data)` for a sequence.

Two facts about the code that a reader might not expect:

- Not every routine checks dimensionality. `volumeUnion`, the adapter
  `intersects` and the adapter `contains` check it only in a debug assertion
  (SpatialUtil.java:74, :146, :217). The two-object adapter `union` and
  `unionFlatMBR` (:349-358, :399-407) and the two sequence folds `union` and
  `unionFlatMBR` over an array adapter (:368-387, :418-436) have no check at
  all. The sequence folds assert only that the collection is non-empty
  (:370, :420). All of these are modelled with a precondition.
- `CentroidContained` holds for every box with `min <= max` on every axis,
  degenerate boxes (zero width on some axis) included.

The table below lists every member whose contract states something about
the code. The definitions in `Mbr` that carry no contract of their own
(`Intersects`, `Contains`, `ContainsPoint`, `Min`, `Max`, `Flat`, `Volume`,
`Perimeter`, `Overlapping`, `RelativeOverlap` and their helpers) are the
reference definitions those contracts and lemmas speak about; they have no
row of their own.

## Model

| member | source | states |
|---|---|---|
| SpatialUtil.CopyMbr | src/de/lmu/ifi/dbs/elki/data/spatial/SpatialUtil.java:51-60 | the copy has exactly the object's bounds on every dimension |
| SpatialUtil.VolumeUnion | src/de/lmu/ifi/dbs/elki/data/spatial/SpatialUtil.java:71-82 | the scalar fold equals the volume of the union box, without building it |
| SpatialUtil.GetMin | src/de/lmu/ifi/dbs/elki/data/spatial/SpatialUtil.java:89-96 | reading 1-based dimensions `i + 1` yields exactly the 0-based `min` vector |
| SpatialUtil.GetMax | src/de/lmu/ifi/dbs/elki/data/spatial/SpatialUtil.java:103-110 | reading 1-based dimensions `i + 1` yields exactly the 0-based `max` vector |
| SpatialUtil.Intersects | src/de/lmu/ifi/dbs/elki/data/spatial/SpatialUtil.java:119-132 | dimension mismatch is an error; otherwise true iff no axis has `a.min > b.max` or `a.max < b.min` |
| SpatialUtil.IntersectsAdapted | src/de/lmu/ifi/dbs/elki/data/spatial/SpatialUtil.java:144-153 | the early-return 0-based loop decides the same relation as `Mbr.Intersects` |
| SpatialUtil.Contains | src/de/lmu/ifi/dbs/elki/data/spatial/SpatialUtil.java:164-178 | dimension mismatch is an error; otherwise true iff the first box encloses the second on every axis |
| SpatialUtil.ContainsPoint | src/de/lmu/ifi/dbs/elki/data/spatial/SpatialUtil.java:188-202 | a point of another length is an error; otherwise true iff every coordinate lies within its axis bounds |
| SpatialUtil.ContainsAdapted | src/de/lmu/ifi/dbs/elki/data/spatial/SpatialUtil.java:215-225 | the early-return 0-based loop decides the same relation as `Mbr.Contains` |
| SpatialUtil.Volume | src/de/lmu/ifi/dbs/elki/data/spatial/SpatialUtil.java:232-239 | the accumulated product is the product of all axis widths (`Mbr.Volume`) |
| SpatialUtil.Perimeter | src/de/lmu/ifi/dbs/elki/data/spatial/SpatialUtil.java:246-253 | the accumulated sum is the sum of all axis widths (`Mbr.Perimeter`) |
| SpatialUtil.RelativeOverlap | src/de/lmu/ifi/dbs/elki/data/spatial/SpatialUtil.java:264-292 | dimension mismatch is an error; the early return of 0 fires exactly when some axis has no overlap of positive extent; otherwise the result is the overlap volume over the sum of both volumes, with a positive divisor |
| SpatialUtil.Union | src/de/lmu/ifi/dbs/elki/data/spatial/SpatialUtil.java:302-316 | dimension mismatch is an error; otherwise per-axis `min` of mins and `max` of maxes |
| SpatialUtil.UnionTolerant | src/de/lmu/ifi/dbs/elki/data/spatial/SpatialUtil.java:325-338 | absent iff both operands are absent; equal to the present operand when one is absent; fails only for two present boxes of different dimensionality; otherwise it is exactly `Mbr.Union` of the two, which encloses both |
| SpatialUtil.UnionAdapted | src/de/lmu/ifi/dbs/elki/data/spatial/SpatialUtil.java:349-358 | the filled arrays form exactly the union box |
| SpatialUtil.UnionOfSequence | src/de/lmu/ifi/dbs/elki/data/spatial/SpatialUtil.java:368-387 | starting from element 0 and folding each further element in place gives `Mbr.UnionAll` of the whole sequence |
| SpatialUtil.ExtendMbr | src/de/lmu/ifi/dbs/elki/data/spatial/SpatialUtil.java:381-384 | one in-place pass over the two bound arrays widens them to the union with the next element |
| SpatialUtil.UnionFlatMbr | src/de/lmu/ifi/dbs/elki/data/spatial/SpatialUtil.java:399-407 | the flat array holds the union's `min` at `d` and its `max` at `dim + d` |
| SpatialUtil.UnionFlatMbrOfSequence | src/de/lmu/ifi/dbs/elki/data/spatial/SpatialUtil.java:418-436 | the flat fold is the flat layout of `Mbr.UnionAll` of the whole sequence |
| SpatialUtil.InitFlatMbr | src/de/lmu/ifi/dbs/elki/data/spatial/SpatialUtil.java:423-426 | the first half of the flat array holds the first element's mins and the second half its maxes |
| SpatialUtil.ExtendFlatMbr | src/de/lmu/ifi/dbs/elki/data/spatial/SpatialUtil.java:428-434 | one in-place pass widens the flat box to the union with the next element |
| SpatialUtil.Centroid | src/de/lmu/ifi/dbs/elki/data/spatial/SpatialUtil.java:444-451 | one coordinate per axis, lying within that axis wherever `min <= max`, equal to `Mbr.Centroid` |
| SpatialUtil.Wrap32 | src/de/lmu/ifi/dbs/elki/data/spatial/SpatialUtil.java:462-463 | the result is a 32-bit `int` congruent to its argument modulo `2^32`, and every 32-bit value is left unchanged |
| SpatialUtil.CentroidRange | src/de/lmu/ifi/dbs/elki/data/spatial/SpatialUtil.java:461-467 | with the length `end - start + 1` and first index `start - 1` wrapped to 32 bits: a negative length fails allocation; when the loop does not run the array of zeros is returned (`[]` for `end == start - 1`); a window outside `1..dim` fails; otherwise entry `k` is the full centroid at 0-based axis `start - 1 + k` |
| SpatialUtil.CentroidRangeWrapWindows | src/de/lmu/ifi/dbs/elki/data/spatial/SpatialUtil.java:462-463 | `start = Integer.MIN_VALUE` wraps the first index to `Integer.MAX_VALUE`; with `end = Integer.MAX_VALUE` the length wraps to 0, with `end = 0` to a negative length, with `end = -2` it is `Integer.MAX_VALUE` |
| SpatialUtil.Equals | src/de/lmu/ifi/dbs/elki/data/spatial/SpatialUtil.java:476-489 | true iff both boxes have the same dimensionality and identical bounds, i.e. they are equal values |
| Mbr.Union | src/de/lmu/ifi/dbs/elki/data/spatial/SpatialUtil.java:308-315 | the union has the operands' dimensionality |
| Mbr.UnionAll | src/de/lmu/ifi/dbs/elki/data/spatial/SpatialUtil.java:371-386 | the fold of a uniform sequence has the dimensionality of its first element |
| Mbr.UnionAllStep | src/de/lmu/ifi/dbs/elki/data/spatial/SpatialUtil.java:379-385 | folding element `i` into the union of elements `0..i-1` gives the union of elements `0..i` |
| Mbr.Centroid | src/de/lmu/ifi/dbs/elki/data/spatial/SpatialUtil.java:446-449 | the centroid has one coordinate per dimension |
| Mbr.PositiveWidthsVolume | src/de/lmu/ifi/dbs/elki/data/spatial/SpatialUtil.java:232-239 | positive width on every axis gives a positive volume |
| Mbr.OverlappingVolumesPositive | src/de/lmu/ifi/dbs/elki/data/spatial/SpatialUtil.java:284-291 | once no axis has returned 0, both volumes are positive, so the divisor `volume(box1) + volume(box2)` is positive |
| MbrProperties.ContainsReflexive | src/de/lmu/ifi/dbs/elki/data/spatial/SpatialUtil.java:164-178 | every box contains itself |
| MbrProperties.ContainsTransitive | src/de/lmu/ifi/dbs/elki/data/spatial/SpatialUtil.java:164-178 | containment is transitive |
| MbrProperties.ContainsAntisymmetric | src/de/lmu/ifi/dbs/elki/data/spatial/SpatialUtil.java:476-489 | mutual containment implies the boxes are equal, so `equals` returns true |
| MbrProperties.ContainsPointAsDegenerate | src/de/lmu/ifi/dbs/elki/data/spatial/SpatialUtil.java:188-202 | point containment agrees with box containment of the degenerate box `min = max = point` |
| MbrProperties.IntersectsSymmetric | src/de/lmu/ifi/dbs/elki/data/spatial/SpatialUtil.java:119-132 | intersection is symmetric |
| MbrProperties.IntersectsReflexive | src/de/lmu/ifi/dbs/elki/data/spatial/SpatialUtil.java:119-132 | a well-formed box intersects itself |
| MbrProperties.ContainsImpliesIntersects | src/de/lmu/ifi/dbs/elki/data/spatial/SpatialUtil.java:164-178 | a well-formed box intersects every box that contains it, in both argument orders |
| MbrProperties.UnionContainsOperands | src/de/lmu/ifi/dbs/elki/data/spatial/SpatialUtil.java:302-316 | the union contains both operands |
| MbrProperties.UnionIsLeast | src/de/lmu/ifi/dbs/elki/data/spatial/SpatialUtil.java:302-316 | a box contains the union iff it contains both operands |
| MbrProperties.UnionCommutative | src/de/lmu/ifi/dbs/elki/data/spatial/SpatialUtil.java:302-316 | `union(a, b) == union(b, a)` |
| MbrProperties.UnionAssociative | src/de/lmu/ifi/dbs/elki/data/spatial/SpatialUtil.java:302-316 | union is associative |
| MbrProperties.UnionIdempotent | src/de/lmu/ifi/dbs/elki/data/spatial/SpatialUtil.java:302-316 | the union of a box with itself is that box |
| MbrProperties.UnionOrdered | src/de/lmu/ifi/dbs/elki/data/spatial/SpatialUtil.java:302-316 | the union of a well-formed box with any box of the same dimensionality is well formed |
| MbrProperties.UnionAllSingleton | src/de/lmu/ifi/dbs/elki/data/spatial/SpatialUtil.java:371-378 | the union of a one-element sequence equals that element |
| MbrProperties.UnionAllPair | src/de/lmu/ifi/dbs/elki/data/spatial/SpatialUtil.java:368-387 | the fold of two boxes is their pairwise union |
| MbrProperties.UnionAllContainsEach | src/de/lmu/ifi/dbs/elki/data/spatial/SpatialUtil.java:368-387 | the fold contains every element of the sequence |
| MbrProperties.UnionAllIsLeast | src/de/lmu/ifi/dbs/elki/data/spatial/SpatialUtil.java:368-387 | every box containing all elements contains the fold |
| MbrProperties.UnionAllAppend | src/de/lmu/ifi/dbs/elki/data/spatial/SpatialUtil.java:368-387 | the fold of `xs + ys` is the union of the two folds |
| MbrProperties.FlatLayout | src/de/lmu/ifi/dbs/elki/data/spatial/SpatialUtil.java:401-405 | flat index `d` holds `min[d]` and flat index `dim + d` holds `max[d]` |
| MbrProperties.UnflatFlat | src/de/lmu/ifi/dbs/elki/data/spatial/SpatialUtil.java:401-405 | the flat layout has length `2 * dim` and reads back as the same box |
| MbrProperties.FlatUnflat | src/de/lmu/ifi/dbs/elki/data/spatial/SpatialUtil.java:423-426 | every even-length vector is the flat layout of the box read back from it |
| MbrProperties.VolumeUpToMonotone | src/de/lmu/ifi/dbs/elki/data/spatial/SpatialUtil.java:232-239 | for every prefix of axes, the partial product of widths of a well-formed box is non-negative and at most that of any box containing it |
| MbrProperties.VolumeMonotone | src/de/lmu/ifi/dbs/elki/data/spatial/SpatialUtil.java:232-239 | a well-formed box has a non-negative volume, at most that of any box containing it |
| MbrProperties.UnionVolumeAtLeastOperands | src/de/lmu/ifi/dbs/elki/data/spatial/SpatialUtil.java:71-82 | for well-formed operands, the union's volume is at least each operand's volume |
| MbrProperties.ZeroDimensionalVolume | src/de/lmu/ifi/dbs/elki/data/spatial/SpatialUtil.java:232-253 | a 0-dimensional box has volume 1 and perimeter 0 |
| MbrProperties.FlatAxisVolumeZero | src/de/lmu/ifi/dbs/elki/data/spatial/SpatialUtil.java:232-239 | a box with a zero-width axis has volume 0 |
| MbrProperties.PerimeterUpToMonotone | src/de/lmu/ifi/dbs/elki/data/spatial/SpatialUtil.java:246-253 | for every prefix of axes, the partial sum of widths of a well-formed box is non-negative and at most that of any box containing it |
| MbrProperties.PerimeterMonotone | src/de/lmu/ifi/dbs/elki/data/spatial/SpatialUtil.java:246-253 | a well-formed box has a non-negative perimeter, at most that of any box containing it |
| MbrProperties.OverlapUpToSymmetric | src/de/lmu/ifi/dbs/elki/data/spatial/SpatialUtil.java:274-289 | the accumulated overlap over every prefix of axes does not depend on the argument order |
| MbrProperties.RelativeOverlapSymmetric | src/de/lmu/ifi/dbs/elki/data/spatial/SpatialUtil.java:264-292 | the score does not depend on the argument order |
| MbrProperties.RelativeOverlapZeroWhenDisjoint | src/de/lmu/ifi/dbs/elki/data/spatial/SpatialUtil.java:284-286 | boxes that do not intersect score 0 |
| MbrProperties.OverlappingIntersects | src/de/lmu/ifi/dbs/elki/data/spatial/SpatialUtil.java:276-289 | positive overlap on every axis implies intersection |
| MbrProperties.OverlappingSymmetric | src/de/lmu/ifi/dbs/elki/data/spatial/SpatialUtil.java:276-289 | whether every axis overlaps with positive extent does not depend on the argument order |
| MbrProperties.OverlapUpToPositive | src/de/lmu/ifi/dbs/elki/data/spatial/SpatialUtil.java:274-289 | when every axis overlaps with positive extent, the accumulated overlap is positive |
| MbrProperties.OverlapUpToAtMostVolume | src/de/lmu/ifi/dbs/elki/data/spatial/SpatialUtil.java:274-289 | when every axis overlaps with positive extent, the accumulated overlap is at most the first box's accumulated volume |
| MbrProperties.RelativeOverlapRange | src/de/lmu/ifi/dbs/elki/data/spatial/SpatialUtil.java:264-292 | the score lies in `[0, 1/2]`, and it is positive iff every axis overlaps with positive extent |
| MbrProperties.RelativeOverlapExample | src/de/lmu/ifi/dbs/elki/data/spatial/SpatialUtil.java:264-292 | squares `[0,2]^2` and `[1,3]^2` score `1 / (4 + 4) = 0.125` |
| MbrProperties.CentroidContained | src/de/lmu/ifi/dbs/elki/data/spatial/SpatialUtil.java:444-451 | the centroid of a well-formed box lies inside it |

## Left out

- Floating point: coordinates are `real`. Rounding, NaN, infinities,
  signed zero and overflow or underflow of the products are not modelled.
  This includes the exact `!=` comparison in `equals`, which treats NaN and
  `-0.0` differently from real equality. It also includes a product that
  underflows to zero and would make the relative-overlap divisor zero in
  doubles.
- The `SpatialComparable`, `SpatialAdapter` and `ArrayAdapter` interfaces
  are not modelled. Every spatial object is a `Box` value, and an
  array-adapted collection is a `seq<Box>`. `ListArrayAdapter` is a plain
  pass-through to a list and is covered by `seq` indexing.
- `HyperBoundingBox` and `ModifiableHyperBoundingBox` are both the one
  immutable `Box` value. The mutability and aliasing of the modifiable box
  are not modelled.
- The adapter overloads (`volumeUnion`, `intersects`, `contains`, the
  two-object `union` and `unionFlatMBR`) take equal dimensionality as a
  precondition. With assertions disabled, the Java on mismatched objects
  reads out of range or ignores trailing dimensions. That is not modelled.
- SpatialUtil.UnionOfSequence: the Java has `assert (num > 0)` and does
  not check that the elements share the first element's dimensionality. Its
  loops run over the first element's `dim` axes. An element with more axes
  has its extra axes ignored, and an element with fewer axes makes the
  adapter read out of range. Here both non-emptiness and `Uniform(data)` are
  preconditions, so neither behaviour is modelled. Neither is the exception
  the array getter throws on an empty collection.
- SpatialUtil.UnionFlatMbrOfSequence: the same as `UnionOfSequence`. The
  Java asserts only `num > 0` and does not check uniformity. Longer elements
  are truncated to the first element's axes and shorter ones read out of
  range, and the `Uniform(data)` precondition does not model either.
- SpatialUtil.ExtendMbr: the inner loop of the structured sequence fold is
  a separate method, so each proof stays small. It runs the same per-axis
  updates in the same order.
- SpatialUtil.InitFlatMbr, SpatialUtil.ExtendFlatMbr: the first loop and
  the inner loop of the flat sequence fold are separate methods for the
  same reason.
- SpatialUtil.CentroidRange: running out of memory on a very long window
  (an `OutOfMemoryError` from the allocation) is not modelled; the model
  returns the array the Java would allocate.
- `HistogramProjector` (plot layout) and `SparseFloatVectorProjectionFilter`
  (dimension projection through code not shown) are not part of this model.
