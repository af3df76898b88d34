# GSHTrans core: Wigner tables, matrix-field storage and grid enumeration

This project models three parts of the GSHTrans C++ library. GSHTrans computes generalised spherical-harmonic transforms. For each part, the model proves the properties that the code relies on.

**The Wigner table `WignerN`** (module `WignerIndex`, `WignerBoundary`, `WignerRecursion`, `WignerBlocks`, `WignerTable`).
- For one upper index n, the table holds the Wigner d-functions d^l_{m,n}(θ) for degrees |n| ≤ l ≤ lMax. It holds orders |m| ≤ min(l, mMax), or only 0 ≤ m ≤ min(l, mMax) when only non-negative orders are stored. It covers a batch of angles.
- Storage is angle-major. Each angle has a column, made of one contiguous block per degree.
- The index scheme (`Count`, `StartingOrder`, the begin/end offsets, the accessors) is modelled as integer functions. The model proves:
  - the closed forms equal the sums of the per-degree block sizes;
  - the blocks tile each column;
  - the columns tile the buffer;
  - every accessor stays inside its block.
- `ComputeValues` is a method of the class `WignerN`. It writes the column of angle i of an `array` in place, degree by degree, as the library does:
  - the boundary evaluators at degree |n| and at m = ±l;
  - a one-term recurrence at the growing edges;
  - a two-term recurrence in the interior;
  - then, for orthonormalised tables, a scaling of each degree block.
- Its specification is the pure function `WignerRecursion.ColumnValue`. It gives the value of slot (l, m) from the values at (l − 1, m) and (l − 2, m), choosing the kind of step by which of those two slots are stored.
- The method is proved to leave exactly `Normalised(ColumnValue)` in every slot of its column and to change nothing outside it.
- Floating-point values are the datatype `Float`, a record of the operations that produced each value:
  - literals, the four arithmetic operations, `sqrt`, `exp`, `lgamma`, `log`, `sin`, `cos`, and the constant 1/√π;
  - so the proofs say which operations the library applies to which operands, in its order of evaluation, without assuming anything about rounding.
- `Count(l)` counts all degrees |n|..l together, although its comment describes it as the count "at a given degree". The model's `Count` is the cumulative count, which is how every caller uses it.

**`MatrixField`** (module `MatrixFields`).
- A rank-two tensor field on a grid is stored as nine components (α, β) ∈ {−1, 0, 1}².
- Each component is a block of `FieldSize` values in row-major point order.
- The model proves:
  - the component offsets and the storage index are in bounds and injective;
  - the nine blocks tile the storage;
  - the canonical enumeration lists each pair at its component number;
  - the copying assignment and the array constructor produce the stated storage.
- Complexification and realification are modelled pointwise on exact reals. The model proves that `real(complex(u)) == u`. It also proves that `complex(real(v)) == v` holds exactly for the conjugate-symmetric fields v.

**`GridBase`** (module `GridBase`).
- The upper-index range for each storage mode.
- The number of points.
- The row-major enumeration of points, point indices, quadrature weights and interpolated values. `MatrixField::Index` relies on that order.
- The coefficient-count overloads.

## Model

| member | source | states |
|---|---|---|
| WignerBoundary.MinusOneToPower | GSHTrans/src/Wigner.h:23 | (−1)^m is 1 for even m and −1 for odd m, negative m included, although C++'s `%` truncates toward zero |
| WignerBoundary.MinusOneToPowerAdd | GSHTrans/src/Wigner.h:23 | MinusOneToPower(a + b) = MinusOneToPower(a) · MinusOneToPower(b) for all integers |
| WignerBoundary.TruncRem | GSHTrans/src/Wigner.h:23 | the remainder of C++'s `%`, which truncates toward zero so that its sign follows the dividend; MinusOneToPower's contract is stated through it |
| WignerBoundary.Signed | GSHTrans/src/Wigner.h:630-636 | multiplying by a sign keeps the value for +1, negates it for −1, and a double negation cancels |
| WignerBoundary.AngleArgumentOf | GSHTrans/src/Wigner.h:282-288 | the pole flags are the two comparisons with the smallest normal value, and a flagged half-angle logarithm is replaced by 0 |
| WignerBoundary.MinOrderAtUpperIndex | GSHTrans/src/Wigner.h:600-628 | d^l_{−l,n} is never produced by a negation (so the sign rule of the derived evaluators applies to it directly) |
| WignerBoundary.DegreeZero | GSHTrans/src/Wigner.h:600-650 | all four boundary evaluators return 1 at l = 0 |
| WignerBoundary.AtLeftPole | GSHTrans/src/Wigner.h:600-650 | at θ = 0, d^l_{−l,n} = [n = −l]; d^l_{l,n} = 1 iff n = l and is a (signed) zero otherwise; likewise for the upper-index evaluators |
| WignerBoundary.AtRightPole | GSHTrans/src/Wigner.h:600-650 | at θ = π, d^l_{−l,n} = [n = l]; d^l_{l,n} = 1 iff n = −l and a signed zero otherwise; likewise for the upper-index evaluators |
| WignerBoundary.MinFromMaxOrder | GSHTrans/src/Wigner.h:630-636 | the max-order evaluator is undone by the same sign: d^l_{−l,n} = (−1)^(l+n) d^l_{l,−n} |
| WignerBoundary.UpperIndexSymmetry | GSHTrans/src/Wigner.h:638-650 | d^l_{m,−l} = (−1)^(l−m) d^l_{−m,l} between the two upper-index evaluators |
| WignerBoundary.MaxOrderAtUpperIndex | GSHTrans/src/Wigner.h:630-636 | d^l_{l,n} as (−1)^(n+l) · d^l_{−l,−n}; its values are stated by DegreeZero, AtLeftPole, AtRightPole and MinFromMaxOrder |
| WignerBoundary.MinUpperIndexAtOrder | GSHTrans/src/Wigner.h:638-643 | d^l_{m,−l} as d^l_{l,−m}; its values are stated by DegreeZero, the two pole lemmas and UpperIndexSymmetry |
| WignerBoundary.MaxUpperIndexAtOrder | GSHTrans/src/Wigner.h:645-650 | d^l_{m,l} as d^l_{−l,−m}; its values are stated by DegreeZero, the two pole lemmas and UpperIndexSymmetry |
| WignerIndex.ConstructorAsserts | GSHTrans/src/Wigner.h:77-78 | the constructors' checks lMax ≥ 0 and 0 ≤ mMax ≤ lMax; what they admit is stated by the WignerFindings lemmas |
| WignerIndex.ValidShape | GSHTrans/src/Wigner.h:89-90 | those checks plus \|n\| ≤ mMax, which the model's constructors require; ValidShapeExcludesBoth and TopDegreeOnlyExact state what it excludes |
| WignerIndex.Count | GSHTrans/src/Wigner.h:207-228 | the closed form of both modes, 0 below \|n\|; CountStep and CountIsBlockSum state that it counts the stored block sizes |
| WignerIndex.StartingOrder | GSHTrans/src/Wigner.h:127-137 | −min(l, mMax) with all orders and 0 otherwise, under the source's check \|n\| ≤ l ≤ lMax; StartingOrderIsLowest states that it is the lowest stored order |
| WignerIndex.BeginForDegree | GSHTrans/src/Wigner.h:145-150 | Count(l − 1), written as the block sum; BlockSumMonotone and SlotOf state that the degree blocks follow one another and tile the column |
| WignerIndex.EndForDegree | GSHTrans/src/Wigner.h:152-162 | Count(l), written as the block sum: where degree l + 1 begins; BlockSumMonotone and SlotOf state the order and the tiling |
| WignerIndex.BeginForAngle | GSHTrans/src/Wigner.h:164-169 | column i starts after i whole columns; BeginForAngleIsProduct states that this is i · Count() |
| WignerIndex.EndForAngle | GSHTrans/src/Wigner.h:171-176 | the start of column i + 1; BeginForAngleIsProduct and ColumnFits state that this is (i + 1) · Count() |
| WignerIndex.BeginForAngleAndDegree | GSHTrans/src/Wigner.h:178-184 | column i's start plus Count(l − 1); OffsetAt states that every (i, l, m) offset lies at or after it |
| WignerIndex.EndForAngleAndDegree | GSHTrans/src/Wigner.h:186-192 | column i's start plus Count(l); OffsetAt states that every (i, l, m) offset lies before it |
| WignerIndex.BufferSize | GSHTrans/src/Wigner.h:91 | the buffer size, nTheta whole columns; BeginForAngleIsProduct states that it is Count() · nTheta |
| WignerIndex.CountStep | GSHTrans/src/Wigner.h:207-228 | for \|n\| ≤ mMax and l ≥ \|n\|, Count(l) − Count(l − 1) is the block size 2·min(l, mMax) + 1 (all orders) or min(l, mMax) + 1 (non-negative orders) |
| WignerIndex.CountIsBlockSum | GSHTrans/src/Wigner.h:207-231 | the closed form Count(l) equals the sum of the block sizes of degrees \|n\|..l (and is 0 below \|n\|) |
| WignerIndex.BlockSumMonotone | GSHTrans/src/Wigner.h:145-162 | degree blocks start in increasing order: 0 ≤ BlockSum(l1) ≤ BlockSum(l2) for l1 ≤ l2, each BlockSum(l) being Count(l) by CountIsBlockSum |
| WignerIndex.StartingOrderIsLowest | GSHTrans/src/Wigner.h:127-137 | StartingOrder(l) is the lowest stored order: m is stored at l iff StartingOrder(l) ≤ m < StartingOrder(l) + block size |
| WignerIndex.Offset | GSHTrans/src/Wigner.h:231-244 | the accessor offset Count(l − 1) + min(l, mMax) + m (or + m) lies in [Count(l − 1), Count(l)) at position m − StartingOrder(l) of the block |
| WignerIndex.OffsetInjective | GSHTrans/src/Wigner.h:231-244 | distinct stored (l, m) have distinct offsets |
| WignerIndex.SlotOf | GSHTrans/src/Wigner.h:143-161 | every position below Count(l) is the offset of some stored slot of a degree ≤ l: the blocks tile the column with no gaps |
| WignerIndex.BeginForAngleIsProduct | GSHTrans/src/Wigner.h:164-170 | column i starts at i · Count(), so the buffer holds Count() · nTheta values |
| WignerIndex.ColumnFits | GSHTrans/src/Wigner.h:164-176 | column i ends where column i + 1 begins and the last column ends at the end of the buffer |
| WignerIndex.BeginForAngleMonotone | GSHTrans/src/Wigner.h:164-170 | columns start in increasing order from 0: 0 <= BeginForAngle(i) <= BeginForAngle(j) for i <= j |
| WignerIndex.OffsetAt | GSHTrans/src/Wigner.h:246-261 | the offset of (i, l, m) lies in column i and in its degree-l block, at position m − StartingOrder(l) |
| WignerIndex.OffsetAtInjective | GSHTrans/src/Wigner.h:246-261 | every buffer position belongs to at most one (angle, degree, order) |
| WignerRecursion.SqInt | GSHTrans/src/Wigner.h:291-301 | entry k of the square-root table, sqrt(k); SquareRootTables states that the table holds it |
| WignerRecursion.SqIntInv | GSHTrans/src/Wigner.h:291-301 | entry k of the inverse table, 1/sqrt(k), and 0 where sqrt(k) is not positive; SquareRootTables states that the table holds it |
| WignerRecursion.FirstStepConstants | GSHTrans/src/Wigner.h:347-349 | alpha and beta of the one-term step at degree \|n\| + 1, beta negated for n < 0; RecurrenceIndicesInRange states that the entry it reads is in range |
| WignerRecursion.EdgeFactor | GSHTrans/src/Wigner.h:389-463 | f1 of the one-term steps at the edges of later degrees; RecurrenceIndicesInRange states that its table entries and its divisor l − 1 are in range |
| WignerRecursion.TwoTermConstants | GSHTrans/src/Wigner.h:412-417 | alpha, beta and gamma of the two-term step of a degree; RecurrenceIndicesInRange states that its table entries and its divisor are in range |
| WignerRecursion.TwoTermFactors | GSHTrans/src/Wigner.h:422-424 | f1 and f2 of the two-term step of an order; TwoTermTransform states that each value becomes f1·p1 − f2·p2 with them |
| WignerRecursion.ColumnValue | GSHTrans/src/Wigner.h:303-466 | the value of slot (l, m) before normalisation, by the step its stored predecessors call for; ComputeValues states that the table holds it |
| WignerRecursion.Normalised | GSHTrans/src/Wigner.h:468-477 | the factor 0.5·sqrt(2l + 1)·(1/√π) for orthonormalised tables and none otherwise; ScaleRange, Normalise and ComputeValues state the scaling |
| WignerRecursion.BoundarySlots | GSHTrans/src/Wigner.h:335-366 | above degree \|n\|, a slot has no predecessor at l − 1 exactly when l ≤ mMax and m = l (or m = −l with all orders): the boundary writes of lines 338, 364, 384 and 447 |
| WignerRecursion.OneTermSlots | GSHTrans/src/Wigner.h:380-465 | from degree \|n\| + 2 on, a slot stored at l − 1 but not at l − 2 is exactly m = ±(l − 1) while l ≤ mMax or m = ±mMax at l = mMax + 1: the one-term branches |
| WignerRecursion.TwoTermSlots | GSHTrans/src/Wigner.h:410-427 | the two-term recurrence covers exactly the orders stored at l − 2, a contiguous run from StartingOrder(l − 2) |
| WignerRecursion.RecurrenceIndicesInRange | GSHTrans/src/Wigner.h:291-463 | with \|n\| ≤ mMax, every index into sqInt/sqIntInv lies in [0, lMax + mMax], inverse-table indices are ≥ 1, and every divisor l − 1 is ≥ 1 |
| WignerBlocks.UpperIndexBlockIsColumn | GSHTrans/src/Wigner.h:303-323 | the degree-\|n\| block written from the upper-index evaluator (max variant for n ≥ 0, min variant otherwise) is the specification's column at l = \|n\| |
| WignerBlocks.NextDegreeBlockIsColumn | GSHTrans/src/Wigner.h:325-367 | the degree-\|n\| + 1 block (m = −l boundary, one-term run, m = l boundary) is the specification's column at l = \|n\| + 1 |
| WignerBlocks.DegreeBlockIsColumn | GSHTrans/src/Wigner.h:370-466 | each later degree block (lower edges, two-term run, upper edges) is the specification's column at l, given the columns at l − 1 and l − 2 |
| WignerTable.SquareRootTables | GSHTrans/src/Wigner.h:291-301 | the two new tables of lMax + mMax + 1 entries hold sqrt(k), and 1/sqrt(k) with 0 at k = 0 |
| WignerTable.WignerN.FillUpperIndexDegree | GSHTrans/src/Wigner.h:303-323 | writes degree \|n\| of column i and nothing else |
| WignerTable.WignerN.FillNextDegree | GSHTrans/src/Wigner.h:325-367 | writes degree \|n\| + 1 of column i from its degree \|n\| and nothing else |
| WignerTable.WignerN.FillLowDegrees | GSHTrans/src/Wigner.h:302-367 | degrees \|n\| and, when stored, \|n\| + 1 of column i equal the specification, and only column i changes |
| WignerTable.WignerN.FillColumnNextDegree | GSHTrans/src/Wigner.h:325-367 | degree \|n\| + 1 of a column whose degree \|n\| is done equals the specification, and only column i changes |
| WignerTable.WignerN.WriteNextDegree | GSHTrans/src/Wigner.h:325-366 | degree \|n\| + 1 is written as its lower end, the one-term run from degree \|n\| and its upper end, and nothing outside the block changes |
| WignerTable.WignerN.WriteNextDegreeLowerEnd | GSHTrans/src/Wigner.h:334-342 | with all orders stored and l ≤ mMax, the evaluator at m = −l is written at start and start advances by one; otherwise nothing changes |
| WignerTable.WignerN.WriteNextDegreeUpperEnd | GSHTrans/src/Wigner.h:357-365 | while l ≤ mMax, the evaluator at m = l is written past the orders of degree l − 1; otherwise nothing changes |
| WignerTable.WignerN.OneTermTransform | GSHTrans/src/Wigner.h:346-354 | the values of degree l − 1 are stepped by the one-term recurrence into the positions from dst on; only those positions change |
| WignerTable.WignerN.WriteLowerEdges | GSHTrans/src/Wigner.h:380-408 | writes the lower boundary and one-term values of a degree, moving the write and read iterators as the library does |
| WignerTable.WignerN.WriteGrowingLowerEdges | GSHTrans/src/Wigner.h:382-396 | the evaluator at m = −l and the one-term value at m = −l + 1 are written at start and start + 1, and nothing else changes |
| WignerTable.WignerN.WriteCriticalLowerEdge | GSHTrans/src/Wigner.h:399-407 | at l = mMax + 1, the one-term value at m = −mMax is written at start, and nothing else changes |
| WignerTable.WignerN.WriteTwoTermBlock | GSHTrans/src/Wigner.h:410-427 | the two-term run of degree l is written from start on, and nothing outside it changes |
| WignerTable.WignerN.WriteTwoTermEntry | GSHTrans/src/Wigner.h:418-426 | entry k of the two-term run is written at dst, and nothing else changes |
| WignerTable.WignerN.WriteTwoTermValue | GSHTrans/src/Wigner.h:422-425 | the two-term value at (l, m) from p1 and p2 is written at dst, and nothing else changes |
| WignerTable.WignerN.TwoTermTransform | GSHTrans/src/Wigner.h:411-427 | the in-place transform writes f1·p1 − f2·p2 from the same-order values of degrees l − 1 and l − 2, one position per order |
| WignerTable.WignerN.WriteUpperEdges | GSHTrans/src/Wigner.h:429-465 | writes the upper one-term and boundary values after the iterator jumps by mStep |
| WignerTable.WignerN.WriteGrowingUpperEdges | GSHTrans/src/Wigner.h:436-446 | the one-term value at m = l − 1 and the evaluator at m = l are written at start and start + 1, and nothing else changes |
| WignerTable.WignerN.WriteCriticalUpperEdge | GSHTrans/src/Wigner.h:458-464 | at l = mMax + 1, the one-term value at m = mMax is written at start, and nothing else changes |
| WignerTable.WignerN.WriteBelowUpperEdges | GSHTrans/src/Wigner.h:380-427 | the lower edges and then the two-term run of degree l are written from b on, keeping the degree l − 1 block |
| WignerTable.WignerN.WriteUpperEdgesOfDegree | GSHTrans/src/Wigner.h:429-465 | after the upper edges, the block of degree l is DegreeBlock of degrees l − 1 and l − 2 |
| WignerTable.WignerN.WriteDegree | GSHTrans/src/Wigner.h:371-466 | degree l ≥ \|n\| + 2 is written as DegreeBlock from b on, and nothing outside the block changes |
| WignerTable.WignerN.FillDegree | GSHTrans/src/Wigner.h:371-466 | degree block l of column i becomes DegreeBlock of the blocks at l − 1 and l − 2, and nothing outside it changes |
| WignerTable.WignerN.FillDegrees | GSHTrans/src/Wigner.h:369-466 | the degree loop leaves every degree up to lMax of column i equal to the specification, changing only column i |
| WignerTable.WignerN.ScaleRange | GSHTrans/src/Wigner.h:470-475 | every value of the range is multiplied by 0.5·sqrt(2l + 1)·(1/√π), and nothing else changes |
| WignerTable.WignerN.Normalise | GSHTrans/src/Wigner.h:468-477 | every degree block of column i is scaled by its own degree's factor (blocks below \|n\| are empty); other columns are unchanged |
| WignerTable.WignerN.ComputeValues | GSHTrans/src/Wigner.h:279-478 | after the call every stored slot (l, m) of column i holds Normalised(ColumnValue(l, m)) for the angle's terms, and no entry outside column i has changed |
| WignerTable.WignerN.constructor | GSHTrans/src/Wigner.h:84-110 | for a batch of angles (with \|n\| ≤ mMax), every column i holds the table of angle i |
| WignerTable.WignerN.ComputeColumns | GSHTrans/src/Wigner.h:93-95 | the loop over the angles leaves the object valid: every column i holds the table of angle i |
| WignerTable.WignerN.Single | GSHTrans/src/Wigner.h:73-81 | for one angle, the single column holds that angle's table |
| WignerTable.WignerN.At | GSHTrans/src/Wigner.h:246-261 | for 0 ≤ i < nTheta and a stored (l, m), the accessor returns the normalised d^l_{m,n} of angle i |
| WignerTable.WignerN.AtFirst | GSHTrans/src/Wigner.h:229-244 | the accessor without an angle reads the first angle's column |
| WignerFindings.NegativeCountAdmitted | GSHTrans/src/Wigner.h:77-78 | there is a shape (lMax 2, mMax 0, n 2) that passes the constructors' checks but not ValidShape, and Count() is -1 for it |
| WignerFindings.TableOverrunAdmitted | GSHTrans/src/Wigner.h:347-348 | there is a shape (lMax 2, mMax 0, n 1) that passes the checks, and its first recursion step reads index 3 of the 3-entry inverse square-root table |
| WignerFindings.ValidShapeExcludesBoth | GSHTrans/src/Wigner.h:291-348 | under ValidShape, Count() is the non-negative sum of the block sizes, and the first step's table index is in range |
| WignerFindings.TopDegreeOnlyExact | GSHTrans/src/Wigner.h:207-228 | the shapes with lMax = \|n\| = mMax + 1 fail ValidShape, yet Count() is exactly the one stored block of degree \|n\| and no recursion step runs |
| GridBase.Iota | GSHTrans/src/GridBase.h:30-43 | iota(a, b) lists a, a + 1, …, b − 1 |
| GridBase.MinUpperIndex | GSHTrans/src/GridBase.h:17-28 | −MaxUpperIndex, 0 or MaxUpperIndex by storage mode; UpperIndexModes states which upper indices each mode then stores |
| GridBase.UpperIndices | GSHTrans/src/GridBase.h:30-33 | the ascending contiguous range MinUpperIndex..MaxUpperIndex inclusive |
| GridBase.UpperIndexModes | GSHTrans/src/GridBase.h:17-33 | n is stored iff MinUpperIndex ≤ n ≤ MaxUpperIndex: \|n\| ≤ max for All, 0 ≤ n ≤ max for NonNegative, exactly [max] for Single |
| GridBase.CartesianProduct | GSHTrans/src/GridBase.h:45-53 | the product of xs and ys has \|xs\|·\|ys\| pairs, with (xs[i], ys[j]) at i·\|ys\| + j |
| GridBase.NumberOfCoLatitudes | GSHTrans/src/GridBase.h:35 | the number of colatitudes; PointIndices and PositionIsPoint state the enumeration it bounds |
| GridBase.CoLatitudeIndices | GSHTrans/src/GridBase.h:36-38 | 0, 1, …, nTheta − 1, as Iota states; PointIndices pairs them with the longitude indices |
| GridBase.NumberOfLongitudes | GSHTrans/src/GridBase.h:40 | the number of longitudes; PointPosition and PositionIsPoint state the row-major order it strides |
| GridBase.LongitudeIndices | GSHTrans/src/GridBase.h:41-43 | 0, 1, …, nPhi − 1, as Iota states |
| GridBase.FieldSize | GSHTrans/src/GridBase.h:70-72 | nTheta · nPhi; Points, PointIndices and PointPosition state that it is the number of points |
| GridBase.PointPosition | GSHTrans/src/GridBase.h:50-53 | the row-major position iθ·nPhi + iφ of a grid point lies in [0, FieldSize) |
| GridBase.Points | GSHTrans/src/GridBase.h:45-48 | FieldSize points, with (θ_iθ, φ_iφ) at the point's row-major position |
| GridBase.PointIndices | GSHTrans/src/GridBase.h:50-53 | FieldSize = nTheta·nPhi index pairs, with (iθ, iφ) at iθ·nPhi + iφ |
| GridBase.PositionIsPoint | GSHTrans/src/GridBase.h:50-53 | position k holds (k div nPhi, k mod nPhi), a grid point whose position is k |
| GridBase.PointPositionInjective | GSHTrans/src/GridBase.h:50-53 | distinct grid points have distinct positions |
| GridBase.Weights | GSHTrans/src/GridBase.h:55-60 | the weight at the position of (i, j) is colatitude weight i times longitude weight j |
| GridBase.WeightAtPoint | GSHTrans/src/GridBase.h:55-60 | with one weight per colatitude and longitude, the weights line up with the points |
| GridBase.InterpolateFunction | GSHTrans/src/GridBase.h:62-68 | the value at the position of point (iθ, iφ) is f(θ_iθ, φ_iφ) |
| GridBase.RealCoefficientSize | GSHTrans/src/GridBase.h:74-76 | the size of the non-negative-order index set for (lMax, lMax, n); CoefficientSizeOverloads relates it to the other overloads |
| GridBase.ComplexCoefficientSize | GSHTrans/src/GridBase.h:78-80 | the size of the all-order index set for (lMax, lMax, n); CoefficientSizeOverloads relates it to the other overloads |
| GridBase.RealCoefficientSizeOfGrid | GSHTrans/src/GridBase.h:82-85 | RealCoefficientSize at the grid's MaxDegree, as CoefficientSizeOverloads states |
| GridBase.ComplexCoefficientSizeOfGrid | GSHTrans/src/GridBase.h:87-90 | ComplexCoefficientSize at the grid's MaxDegree, as CoefficientSizeOverloads states |
| GridBase.CoefficientSize | GSHTrans/src/GridBase.h:92-94 | the all-order size, equal to ComplexCoefficientSize by CoefficientSizeOverloads |
| GridBase.CoefficientSizeOfGrid | GSHTrans/src/GridBase.h:96-99 | CoefficientSize at the grid's MaxDegree, as CoefficientSizeOverloads states |
| GridBase.CoefficientSizeNonNegative | GSHTrans/src/GridBase.h:101-103 | the non-negative-order size, equal to RealCoefficientSize by CoefficientSizeOverloads |
| GridBase.CoefficientSizeNonNegativeOfGrid | GSHTrans/src/GridBase.h:105-108 | CoefficientSizeNonNegative at the grid's MaxDegree, as CoefficientSizeOverloads states |
| GridBase.CoefficientSizeOverloads | GSHTrans/src/GridBase.h:74-108 | CoefficientSize is ComplexCoefficientSize, CoefficientSizeNonNegative is RealCoefficientSize, and the forms without lMax use MaxDegree |
| MatrixFields.IsCanonical | GSHTrans/src/MatrixField.h:37-40 | the check \|α\| ≤ 1 and \|β\| ≤ 1 that the read accessor makes (MatrixField.h:122-125); the writing accessor and the component view do not make it. CanonicalPosition states that exactly the nine listed pairs pass it |
| MatrixFields.ComponentSize | GSHTrans/src/MatrixField.h:30 | FieldSize values per component; Offset and Slot state that the nine blocks of this size tile the storage |
| MatrixFields.Size | GSHTrans/src/MatrixField.h:29 | 9 · FieldSize; Offset, Index and Slot state that every index of the storage lies below it |
| MatrixFields.CanonicalIndices | GSHTrans/src/MatrixField.h:32-35 | nine canonical pairs in lexicographic order: the pair at position k has component number 3(α + 1) + (β + 1) = k |
| MatrixFields.CanonicalPosition | GSHTrans/src/MatrixField.h:32-35 | each canonical pair has a component number in [0, 9) and is listed at that position, so the nine are distinct |
| MatrixFields.Offset | GSHTrans/src/MatrixField.h:185-187 | computed for any pair (α, β), as the unchecked writers at 171-179 pass it; a canonical pair's block starts at or after 0 and fits inside size() = 9·ComponentSize |
| MatrixFields.UncheckedOffset | GSHTrans/src/MatrixField.h:171-187 | a pair the writing accessor and the component view accept unchecked either addresses a different canonical pair's block, as (−1, 2) addresses the block of (0, −1), or a block wholly outside the storage |
| MatrixFields.Index | GSHTrans/src/MatrixField.h:199-201 | the index is computed for any pair and any point, as in the source; at a grid point it is the block's start plus the point's row-major position, and for a canonical pair it then lies inside the (α, β) block within size() |
| MatrixFields.IndexIsRowMajor | GSHTrans/src/MatrixField.h:185-201 | the storage index is the row-major position of (component, point) in a 9-by-FieldSize table |
| MatrixFields.IndexInjective | GSHTrans/src/MatrixField.h:199-201 | distinct canonical entries at grid points are stored at distinct indices |
| MatrixFields.Slot | GSHTrans/src/MatrixField.h:29-30 | every index below size() is the index of a canonical entry at a grid point: the nine blocks tile the storage |
| MatrixFields.StorageAt | GSHTrans/src/MatrixField.h:199-201 | in the storage of a field f, entry (α, β, iθ, iφ) sits at Index(α, β, iθ, iφ) |
| MatrixFields.ComponentStorageAt | GSHTrans/src/MatrixField.h:137-143 | in the storage built from nine values u, every entry of component (α, β) is u at the pair's canonical position |
| MatrixFields.ComplexifiedEntry | GSHTrans/src/MatrixField.h:222-234 | entry (0,0) is u(0,0); above 3α + β = 0 it is u(α,β) + i·u(−α,−β); below it u(−α,−β) − i·u(α,β) |
| MatrixFields.Complexified | GSHTrans/src/MatrixField.h:368-372 | complex(u): u's grid with the entries of ComplexifiedEntry; RealOfComplex and ComplexifiedIsConjugateSymmetric state its properties |
| MatrixFields.RealifiedEntry | GSHTrans/src/MatrixField.h:272-284 | entry (0,0) is re v(0,0); above 3α + β = 0 it is half of re v(α,β) + re v(−α,−β); below it, half of im v(−α,−β) − im v(α,β) |
| MatrixFields.Realified | GSHTrans/src/MatrixField.h:383-387 | real(v): v's grid with the entries of RealifiedEntry; RealOfComplex and ComplexOfReal state that it inverts complex on the conjugate-symmetric fields |
| MatrixFields.ComplexifiedConjugate | GSHTrans/src/MatrixField.h:222-234 | the complexified entries at (α, β) and (−α, −β) are complex conjugates |
| MatrixFields.ComplexifiedIsConjugateSymmetric | GSHTrans/src/MatrixField.h:222-234 | every complexified field is conjugate-symmetric |
| MatrixFields.RealOfComplex | GSHTrans/src/MatrixField.h:222-284 | real(complex(u)) equals u at every canonical entry, on the same grid |
| MatrixFields.ComplexOfReal | GSHTrans/src/MatrixField.h:222-284 | complex(real(v)) equals v at every canonical entry iff v is conjugate-symmetric |
| MatrixFields.ComplexOfRealAt | GSHTrans/src/MatrixField.h:222-284 | one canonical entry of complex(real(v)) for conjugate-symmetric v |
| MatrixFields.Unary | GSHTrans/src/MatrixField.h:314-350 | the field f(u) on u's grid, entry by entry; NegatedEntries and ComplexifiedOfNegated state its use for negation |
| MatrixFields.Negated | GSHTrans/src/MatrixField.h:355-358 | −u of a real field as Unary(u, x ↦ −x); NegatedEntries states its grid, its entries and that it is an involution |
| MatrixFields.NegatedComplex | GSHTrans/src/MatrixField.h:355-358 | −v of a complex field; ComplexifiedOfNegated states that complex(−u) = −complex(u) |
| MatrixFields.NegatedEntries | GSHTrans/src/MatrixField.h:327-358 | −u has u's grid and every entry negated; −(−u) is u |
| MatrixFields.ComplexifiedOfNegated | GSHTrans/src/MatrixField.h:355-358 | complex(−u) and −complex(u) agree at every entry and have the same grid |
| MatrixFields.MatrixField.constructor | GSHTrans/src/MatrixField.h:134-135 | a new storage of size() values, all zero |
| MatrixFields.MatrixField.FromComponents | GSHTrans/src/MatrixField.h:137-143 | a new field whose component at canonical position i is the constant u[i] |
| MatrixFields.MatrixField.AssignComponents | GSHTrans/src/MatrixField.h:138-142 | the enumeration loop leaves the storage built from u |
| MatrixFields.MatrixField.AssignComponent | GSHTrans/src/MatrixField.h:140-141 | every value of component (α, β), the i-th canonical pair, becomes u[i], keeping the blocks assigned before |
| MatrixFields.MatrixField.CopyValues | GSHTrans/src/MatrixField.h:189-197 | assignment from a field of the same size() leaves the other field's entries at this grid's points, in this grid's layout |
| MatrixFields.MatrixField.CopyComponent | GSHTrans/src/MatrixField.h:192-195 | the inner point loop copies the whole (α, β) block, keeping the blocks copied before |
| MatrixFields.MatrixField.At | GSHTrans/src/MatrixField.h:122-126 | for \|α\|, \|β\| ≤ 1 at a grid point, the accessor reads the value in block (α, β) at the point's row-major position |
| MatrixFields.MatrixField.AsField | GSHTrans/src/MatrixField.h:121-126 | the stored field as the accessor reads it: same grid, and for canonical (α, β) the stored value at Index whenever that index is inside the storage, at grid points and off them |
| MatrixFields.CopiedEntries | GSHTrans/src/MatrixField.h:189-197 | after CopyValues(other), every canonical entry at a grid point reads as other's entry |
| MatrixFields.CopyAcrossShapesMisreads | GSHTrans/src/MatrixField.h:152-156 | take m stored on a 2 × 3 grid, and assign to a 3 × 2 grid either m itself stored on another grid class, whose reads are m.AsField, or a view of m such as −m, whose reads are those mapped entrywise by f. The size check passes, yet point (2, 0) of component (−1, −1) receives the reading of m at point (0, 0) of component (−1, 0), and point (2, 1) of component (1, 1) reads beyond m's storage |
| MatrixFields.CopySameShape | GSHTrans/src/MatrixField.h:189-197 | when the two grids have the same shape, assignment from a stored field copies its storage verbatim |

## Left out

- Numerical values of d^l_{m,n}: `cos`, `sin`, `log`, `exp`, `lgamma`, `sqrt` and 1/√π are uninterpreted constructors of `Float`, so magnitudes, accuracy and rounding are not modelled.
- Pole detection: the two comparisons of sin(θ/2) and cos(θ/2) with the smallest normal value are inputs of `Angle` (`sinHalfBelowMin`, `cosHalfBelowMin`).
- The test `x > 0` on a computed square root is modelled as k > 0 on the integer k, which is exact for the square root of an integer.
- The standalone `Wigner(l, m, n, θ)` (Wigner.h:485-593): a separate floating-point recursion outside the table.
- The execution-policy argument of `std::transform`: the model is sequential.
- The nested `Range` class, `RangeForAngle`/`RangeForAngleAndDegree`, and the `const` iterator duplicates: the offsets they wrap are `BeginForAngle`, `BeginForAngleAndDegree` and the other offset functions.
- The default, copy and move constructors and assignments of `WignerN`.
- WignerTable.WignerN.constructor: requires ValidShape, which also excludes the shapes with lMax = |n| = mMax + 1. The library fills those correctly, since only degree |n| is stored and no recursion step runs (WignerFindings.TopDegreeOnlyExact).
- WignerTable.WignerN.Single: requires ValidShape, and so excludes lMax = |n| = mMax + 1 in the same way.
- Integer widths: `difference_type`, `size_type` and `int` are unbounded integers, so overflow and unsigned wrap-around are not modelled. The one place it matters, a negative `Count()`, is under Findings.
- WignerBoundary.AngleArgumentOf: states only the pole flags and the zero logarithms at the poles; its cosine and logarithm terms are uninterpreted.
- WignerBoundary.MinOrderAtUpperIndex: states only that its value is not a negation; its values are stated by DegreeZero, AtLeftPole and AtRightPole.
- Matrix-field values are exact reals and complex numbers over the reals, so rounding in `half * …` and in complex arithmetic is not modelled.
- GridBase.Weights: the product of a colatitude weight and a longitude weight is exact real multiplication, so its floating-point rounding is not modelled.
- A field other than a stored one is a value `Field(grid, entry)`.
- The default constructor and the defaulted copy and move assignments of `MatrixField` (MatrixField.h:132 and 146-147) are left out. They replace grid and storage wholesale, with no layout to reason about. Assigning a stored field of the same type takes them, not `CopyValues`.
- MatrixFields.MatrixField.CopyValues: the right-hand side is a value `Field`, read as it was before the assignment. So assignment from a view of the target itself is not modelled. An example is `u = complex(real(u))` on a complex stored u: component (1, 1), written last, reads u(−1, −1) after it has been overwritten, and the library's result then differs from the one the model states.
- MatrixFields.Offset and MatrixFields.Index: only their arithmetic is modelled for a non-canonical pair. The writes that the writing accessor and the component view make through such a pair into a wrong block, or outside the storage, are not modelled, because the model's writers pass only canonical pairs.
- MatrixFields.MatrixField.AsField: a read the accessor's checks refuse, or one whose index falls outside the storage (undefined behaviour in the library), is given as the value `fill`.
- The component views `operator()(alpha, beta)`, `MatrixFieldComponentView` and `ScalarFieldView` are not part of this model. The array constructor is modelled as filling each component block with its value, which is what assigning a scalar to a component view evidently does.
- The one-argument `operator()(alpha)` of the complexified and realified fields is left out: it calls a constructor that does not exist.
- `MatrixFieldBase::Print` is left out: it does console output.
- `begin`/`end` of `MatrixField` and the `GetGrid` forwarding are left out. The grid is the `grid` field of a value or an object.
- MatrixFields.MatrixField.constructor: the scalar type's zero is a parameter, because the model is generic in the scalar type.
- `GSHIndices` and its `size()` are not part of this model: the coefficient counts take that size as the parameter `indexCount`.
- `RandomComplexCoefficient` and `RandomRealCoefficient` (GridBase.h:110-169) are left out: they use random generation and `GSHIndices`.
- How a grid computes its colatitudes, longitudes, weights, `MaxDegree` and `MaxUpperIndex` is left out: these are the fields of `Grid`.
- GridBase.UpperIndices: requires the range not to run backwards, as `iota_view` does.
- CanonicalCoefficients.h (its body is commented out), the scalar and vector field wrappers, and the examples are left out.

## Findings

| source | as written | input that shows it | evidently intended | confidence | as-written member | corrected member |
|---|---|---|---|---|---|---|
| GSHTrans/src/Wigner.h:77-78 | the constructors check only lMax ≥ 0 and 0 ≤ mMax ≤ lMax, and size the buffer by the closed-form Count() | lMax = 2, mMax = 0, n = 2, all orders: Count() = 1 − 4 + 2 = −1 (a huge value once converted to size_type) | also require \|n\| ≤ mMax, or lMax = \|n\| = mMax + 1, under either of which Count() is the non-negative sum of the block sizes | not executed | WignerFindings.NegativeCountAdmitted | WignerFindings.ValidShapeExcludesBoth |
| GSHTrans/src/Wigner.h:347-348 | the first recursion step reads sqIntInv[l + \|n\|] from a table of lMax + mMax + 1 entries | lMax = 2, mMax = 0, n = 1: degree 2 reads sqIntInv[3] of a 3-entry table | also require \|n\| ≤ mMax, or lMax = \|n\| = mMax + 1 (where no recursion step runs), under either of which every table index is in range | not executed | WignerFindings.TableOverrunAdmitted | WignerFindings.ValidShapeExcludesBoth |
| GSHTrans/src/MatrixField.h:153 | assignment from another field checks only that the two sizes agree, then reads the other field at this grid's points with the other's own layout | this grid 3 × 2, the other the view −m of a stored field m on a 2 × 3 grid, or m itself stored on another grid class (a stored field of the same type takes the defaulted copy assignment at line 146 instead): point (2, 0) of component (−1, −1) receives the reading of m at point (0, 0) of component (−1, 0), and point (2, 1) of component (1, 1) reads index 55 of 54 | compare the two grids' shapes, under which assignment copies the other's storage verbatim | not executed | MatrixFields.CopyAcrossShapesMisreads | MatrixFields.CopySameShape |

The model's constructors require `ValidShape`, which is the constructors' checks plus |n| ≤ mMax. `WignerRecursion.RecurrenceIndicesInRange` proves every table index and divisor in range under it. `WignerFindings.TopDegreeOnlyExact` covers the remaining sound shapes, with lMax = |n| = mMax + 1. `MatrixFields.MatrixField.CopyValues` keeps the library's size-only precondition, and it reads the other field as it is given. With a stored field, `AsField` reads the way the library's accessor does.
