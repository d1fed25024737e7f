# AngleCorrection in Dafny

This project models the core of AngleCorrection, a C++ library that estimates blood flow from
ultrasound. Its inputs are a vessel centerline, given as a polyline of points and two-point
line cells, and a series of 2-D Doppler velocity frames with their poses. It then proceeds as follows.

- It cuts the centerline into branches with a depth-first search over an adjacency list.
- It fits a quadratic B-spline through each branch and smooths it.
- It intersects every spline with the plane of every frame.
- At each crossing it region-grows the velocity samples of the vessel cross-section.
- It estimates, per branch, the flow direction by a weighted vote and corrects aliasing
  against the Nyquist velocity. It also makes a least-squares estimate of the angle-corrected
  velocity.
- It emits arrows (points, directions, uncertainty, velocity) for every branch whose direction
  is certain enough.

The modules, one per file, follow the source's structure:

| module | file | models |
|---|---|---|
| Helpers | helpers.dfy | sgn, length3d, normalize3d, innerProduct (lib/helpers.hpp) |
| Matrices | matrix.dfy | the 4x4 pose matrices (Eigen) |
| Planes | plane3d.dfy | Plane3D (core/plane3d.hpp) |
| Curves | curve.dfy | the closed-form B-spline pieces of core/lib/spline3d.hpp |
| Fitter | fitter.dfy | QuadraticSplineFitter (core/lib/quadratic_spline_fitter.hpp) |
| Frames | metaimage.dfy | MetaImage (lib/metaimage.hpp) |
| Graph | adjlist.dfy | AdjList (core/adjlist.hpp) |
| Intersections | intersection.dfy | Intersection and IntersectionSet (core/lib/intersection.hpp, core/intersection_set.hpp) |
| Splines | spline3d.dfy | Spline3D (core/lib/spline3d.hpp) |
| Branching | build.dfy | Spline3D::build |
| Stages | stages.dfy | the per-spline stages both pipelines run |
| Pipeline | angle_correction.dfy | the AngleCorrection class (core/angle_correction_impl.cpp) |
| TpReading | tpreader.dfy | TpReader (lib/tpreader.cpp) |
| Legacy | legacy_pipeline.dfy | the free-function pipeline (angle_correction_impl.cpp) |

## How the source is represented

- **Mutable objects are classes.** The objects the source mutates in place are Dafny classes
  whose methods carry `modifies` clauses: AdjList, QuadraticSplineFitter, MetaImage,
  IntersectionSet, Spline3D, AngleCorrection and TpReader.
- **Intersection is a value.** The source copies an Intersection into its set, so the model
  makes it a datatype, and its mutators are functions from the old value to the new one.
- **Loops are proved methods.** Every loop of the source is a method with invariants. Each is
  proved against a specification function, and the properties are lemmas about that function.
- **reportError is an error value.** reportError throws std::runtime_error; in the model it is
  an `Error`/`Some(message)` result, and the checks keep the source's order.
- **No silent NaN.** Where the source divides by zero, the model has an explicit case. Where
  the source would then skip a NaN, the model takes the branch it documents.
- **Unavailable operations are parameters.** Floating point is modelled by `real`. The square
  root is a function argument constrained by `IsSqrt`. The SuperLU sparse solve is a function
  argument, and all that is assumed of it is that it solves the systems the fitter assembles
  (`IsFitterSolver`). The decimal parser std::stod is a function argument too.

## Model

| member | source | states |
|---|---|---|
| Helpers.Sgn | lib/helpers.hpp:9-11 | sgn is -1, 0 or 1 exactly when v is negative, zero or positive |
| Helpers.Trunc | lib/metaimage.hpp:286-288 | the (int) cast truncates toward zero: r <= u < r+1 for u >= 0, r-1 < u <= r below |
| Helpers.SgnTimesSelfIsAbs | core/angle_correction_impl.cpp:300-303 | `v * sgn(v)`, the pipeline's absolute value, is \|v\| |
| Helpers.InnerProduct | lib/helpers.hpp:48-56 | the sum of the three products, as a definition without a contract of its own; the three lemmas below state its properties |
| Helpers.InnerProductSymmetric | lib/helpers.hpp:48-56 | innerProduct is symmetric |
| Helpers.InnerProductSelf | lib/helpers.hpp:48-56 | innerProduct(a, a) >= 0, and = 0 exactly for the zero vector |
| Helpers.CauchySchwarz | lib/helpers.hpp:48-56 | innerProduct(a, b)^2 <= innerProduct(a, a) * innerProduct(b, b) |
| Helpers.Length3d | lib/helpers.hpp:19-27 | length3d is the non-negative root of innerProduct(a, a); zero exactly for the zero vector |
| Helpers.Normalize3d | lib/helpers.hpp:34-41 | normalize3d fails exactly on the zero vector; otherwise a unit vector that is a positive multiple of a |
| Planes.FromCoefficients | core/plane3d.hpp:19-25 | the plane holds the four given coefficients |
| Planes.FromMatrix | core/plane3d.hpp:49-61 | the plane of a pose has normal column 2 and passes through the origin column 3 |
| Planes.ZeroPlane | core/plane3d.hpp:66-72 | the zero plane gives distance 0 at every point |
| Planes.SetCoefficient | core/plane3d.hpp:80-83 | slot i becomes c and the other three are kept |
| Planes.GetCoefficient | core/plane3d.hpp:89-92 | slots 0-2 are the normal getDistance multiplies with, slot 3 is the distance of the origin |
| Planes.GetDistance | core/plane3d.hpp:98-110 | getDistance is normal . pt + d |
| Planes.DistanceDifference | core/plane3d.hpp:98-110 | the distance is affine: its difference at two points is normal . (a - b) |
| Curves.BasisIsQuadratic | core/lib/spline3d.hpp:293-313 | the evaluateSingle basis on a window is the polynomial findRoots builds (a_tmp, b_tmp, c_tmp) |
| Curves.DerivativeIsSlope | core/lib/spline3d.hpp:272-286 | derivativeSingle's formula is the derivative of that polynomial |
| Curves.DerivativeExact | core/lib/spline3d.hpp:272-286 | the change of the basis over h is h times the derivative plus QuadA h^2 |
| Curves.WindowsMeet | core/lib/spline3d.hpp:293-313 | consecutive windows agree in value and slope where they meet |
| Curves.BasisAtHalf | core/lib/spline3d.hpp:293-313 | at the middle of a window the weights are 1/8, 3/4, 1/8 |
| Curves.Locate | core/lib/spline3d.hpp:293-313 | `pos = (int)(t + 1.5)` and the local s satisfy pos + s = t + 1.5 with s in [0, 1) |
| Curves.Evaluate | core/lib/spline3d.hpp:293-313 | one axis of evaluateSingle is defined exactly when the three-point window exists |
| Curves.EvaluateDerivative | core/lib/spline3d.hpp:272-286 | one axis of derivativeSingle is defined exactly when the window exists |
| Curves.EvaluateInRange | core/lib/spline3d.hpp:293-313 | every t in [-0.5, n - 0.5) has a window among n + 2 control points |
| Curves.LocateInteger | core/lib/spline3d.hpp:293-313 | integer parameter k lands on window k + 1 at s = 1/2 |
| Curves.Convolved | core/lib/spline3d.hpp:140-161 | applyConvolution keeps the length and smooths point i with the 3-tap mask, the ends reflected |
| Curves.ConvolutionEndsIgnoreLastTap | core/lib/spline3d.hpp:140-161 | the end points never use mask[2] |
| Curves.ConvolutionKeepsConstants | core/lib/spline3d.hpp:140-161 | a symmetric mask summing to one leaves a constant axis unchanged |
| Curves.PlaneQuadraticIsDistance | core/lib/spline3d.hpp:582-610 | the quadratic findRoots assembles is the plane distance of the curve point |
| Curves.Roots | core/lib/spline3d.hpp:614-646 | at most two roots, all in [0, 1]; none when the discriminant is below -0.01 or a = 0 |
| Curves.RootsAreRoots | core/lib/spline3d.hpp:614-646 | with a non-negative discriminant every reported root is a zero of the quadratic |
| Curves.RootsComplete | core/lib/spline3d.hpp:614-646 | every zero in [0, 1] of a true quadratic is reported |
| Fitter.SolverSolves | core/lib/quadratic_spline_fitter.hpp:83-85 | the solver returns a solution of n + 2 entries for the fitter's system |
| Fitter.InteriorRowDot | core/lib/quadratic_spline_fitter.hpp:69-75 | an interior row contributes 1/8, 3/4, 1/8 around column j to row j only |
| Fitter.StartRowDot | core/lib/quadratic_spline_fitter.hpp:105-113 | the start row is -x[j] + x[j+1] in row j only |
| Fitter.EndRowDot | core/lib/quadratic_spline_fitter.hpp:115-123 | the end row is -x[j-1] + x[j] in row j only |
| Fitter.InteriorRowsDot | core/lib/quadratic_spline_fitter.hpp:69-75 | the interior rows give each row 1..m-1 its three weights and no other row anything |
| Fitter.SystemRows | core/lib/quadratic_spline_fitter.hpp:50-100 | every row of the assembled matrix applied to x: slope rows at both ends, interpolation rows between |
| Fitter.SolutionIff | core/lib/quadratic_spline_fitter.hpp:50-100 | x solves the system exactly when it satisfies the end-slope and interpolation equations |
| Fitter.SolutionInterpolates | core/lib/quadratic_spline_fitter.hpp:50-100 | a solution's B-spline passes through every input point at its integer parameter |
| Fitter.SinglePointFit | core/lib/quadratic_spline_fitter.hpp:50-100 | one point p has the unique solution [p, p, p] |
| Fitter.EmptyFitSingular | core/lib/quadratic_spline_fitter.hpp:50-100 | with no points the two rows coincide and every [c, c] solves it: the system is singular |
| Fitter.QuadraticSplineFitter.constructor | core/lib/quadratic_spline_fitter.hpp:23-33 | the fitter holds the given points |
| Fitter.QuadraticSplineFitter.SetPoints | core/lib/quadratic_spline_fitter.hpp:39-43 | the fitter holds the new points |
| Fitter.QuadraticSplineFitter.InsertStartpointCoeffs | core/lib/quadratic_spline_fitter.hpp:105-113 | appends the start row's triplets and zeroes b[i], nothing else |
| Fitter.QuadraticSplineFitter.InsertEndpointCoeffs | core/lib/quadratic_spline_fitter.hpp:115-123 | appends the end row's triplets and zeroes b[i], nothing else |
| Fitter.QuadraticSplineFitter.AssembleSystem | core/lib/quadratic_spline_fitter.hpp:50-85 | the triplets and right-hand side handed to the solver are SystemTriplets and SystemRhs |
| Fitter.QuadraticSplineFitter.CopyOut | core/lib/quadratic_spline_fitter.hpp:91-98 | the copy loop returns the solver's vector unchanged |
| Fitter.QuadraticSplineFitter.ComputeControlPoints | core/lib/quadratic_spline_fitter.hpp:50-100 | the control points solve the system, number n + 2, and interpolate every point |
| Frames.MakeHash | lib/metaimage.hpp:111-115 | for 0 <= x < width the hash lies in row y's block [width * y, width * y + width) |
| Frames.MakeHashInjective | lib/metaimage.hpp:111-115 | inside the grid makehash is in range and distinct pixels get distinct hashes |
| Frames.PixelInBuffer | lib/metaimage.hpp:111-115 | every grid pixel lies inside the pixel buffer |
| Frames.Values | lib/metaimage.hpp:207-236 | the values of a header line are the tokens after "Key =", parsed in order |
| Frames.WriteOffsetsCells | lib/metaimage.hpp:207-219 | Offset value k lands in cell (k, 3), and no other cell changes |
| Frames.WriteRotationCells | lib/metaimage.hpp:220-236 | TransformMatrix value k lands in cell (k mod 3, k div 3), and nothing else changes |
| Frames.PoseFromHeader | lib/metaimage.hpp:198-239 | a 9-value TransformMatrix line and a 3-value Offset line give the homogeneous pose |
| Frames.PathToReported | lib/metaimage.hpp:274-326 | every pixel reported was reached from the first through a nonzero 4-connected path |
| Frames.RegionIsComponent | lib/metaimage.hpp:274-326 | a closed region grown by adjacency from its first pixel is exactly that pixel's connected component |
| Frames.ClosedRegionContainsPath | lib/metaimage.hpp:274-326 | a closed region holding the start of a nonzero 4-connected path holds the whole path |
| Frames.PixelCoords | lib/metaimage.hpp:150-183 | toImgCoords fails exactly on a zero spacing |
| Frames.PixelCoordsAre | lib/metaimage.hpp:150-183 | the pixel coordinates are the projections on axes 0 and 1, relative to the origin, over the spacings |
| Frames.OriginToPixelZero | lib/metaimage.hpp:150-183 | the image origin maps to pixel (0, 0) |
| Frames.PixelCoordsInvertPose | lib/metaimage.hpp:150-183 | with orthonormal image axes, toImgCoords inverts the pose |
| Frames.MetaImage.constructor | lib/metaimage.hpp:24-35 | an empty 0x0 image with zero spacing, zero pose and index -1 |
| Frames.MetaImage.SetIdx | lib/metaimage.hpp:332-336 | sets the index and nothing else |
| Frames.MetaImage.Hash | lib/metaimage.hpp:111-115 | on a consistent image the hash of every grid pixel indexes the pixel buffer |
| Frames.MetaImage.InImage | lib/metaimage.hpp:394-401 | true exactly for points in [0, xsize) x [0, ysize), so only a non-empty image accepts a point |
| Frames.MetaImage.InImagePixel | lib/metaimage.hpp:394-401 | a point inImage accepts truncates to a grid pixel inside the buffer |
| Frames.MetaImage.ToImgCoords | lib/metaimage.hpp:150-183 | toImgCoords on the image's pose fails exactly on a zero spacing |
| Frames.MetaImage.Read | lib/metaimage.hpp:52-72 | sizes, spacing and pixels as read; the pose is the header applied line by line |
| Frames.MetaImage.SetTransform | lib/metaimage.hpp:198-239 | the pose becomes ApplyHeader of the old pose; nothing else changes |
| Frames.MetaImage.ReadOffsetLine | lib/metaimage.hpp:207-219 | an Offset line writes column 3 and then (3, 3) = 1 |
| Frames.MetaImage.ReadRotationLine | lib/metaimage.hpp:220-236 | a TransformMatrix line fills the 3x3 block column by column |
| Frames.RotationWrites | lib/metaimage.hpp:224-235 | the i/j counting loop writes value k to cell (k mod 3, k div 3), as WriteRotation |
| Frames.RotationStep | lib/metaimage.hpp:224-235 | one more TransformMatrix value writes one more cell over the shorter prefix's pose |
| Frames.MetaImage.RegionGrow | lib/metaimage.hpp:274-326 | the seed value, then, for a nonzero seed, each pixel 4-connected to the seed through nonzero pixels, once each and nothing else; for a zero seed nothing more |
| Frames.GrowPop | lib/metaimage.hpp:302-323 | one pop of the stack keeps the loop invariant and marks exactly the pixels it sees, so the loop ends |
| Frames.GrowStart | lib/metaimage.hpp:274-326 | the loop state right after the seed is pushed |
| Frames.GrowSkip | lib/metaimage.hpp:274-326 | popping a visited or out-of-buffer pixel keeps the loop invariant |
| Frames.GrowZero | lib/metaimage.hpp:274-326 | popping a zero pixel marks it and keeps the invariant |
| Frames.GrowNew | lib/metaimage.hpp:274-326 | popping a new nonzero pixel reports it, pushes four neighbours and keeps the invariant |
| Frames.GrowDone | lib/metaimage.hpp:274-326 | with the stack empty the reported pixels are exactly the nonzero seed's connected component, or nothing for a zero seed |
| Graph.Unvisited | core/adjlist.hpp:94-107 | the filter is no longer than the list; the lemmas below give its contents and order |
| Graph.UnvisitedCounts | core/adjlist.hpp:94-107 | the unvisited filter keeps each unvisited entry as often as the list holds it, and nothing else |
| Graph.UnvisitedInRange | core/adjlist.hpp:94-107 | the filter is no longer than the list, and each entry is in range and unvisited |
| Graph.UnvisitedEmpty | core/adjlist.hpp:94-107 | nothing is left exactly when every neighbour is visited |
| Graph.UnvisitedHead | core/adjlist.hpp:77-87 | the head of the filter is the first unvisited entry in list order |
| Graph.DegreeOneExact | core/adjlist.hpp:129-140 | exactly the nodes of degree one, strictly increasing |
| Graph.DegreeOne | core/adjlist.hpp:129-140 | at most n nodes among the first n lists; DegreeOneExact says which |
| Graph.UnvisitedDropVisitedHead | core/adjlist.hpp:77-87 | a visited head is skipped |
| Graph.UnvisitedSkipsVisitedPrefix | core/adjlist.hpp:77-87 | after the visited prefix, the unvisited entry heads the filter |
| Graph.UnvisitedFront | core/adjlist.hpp:77-87 | an unvisited head heads the filter |
| Graph.AdjList.constructor | core/adjlist.hpp:27-37 | n nodes, all unvisited, none with a neighbour |
| Graph.AdjList.Adjacent | core/adjlist.hpp:44-49 | each node joins the other's list (a self-loop twice); no other list or bit changes |
| Graph.AdjList.Visit | core/adjlist.hpp:55-59 | sets v's bit and no other |
| Graph.AdjList.IsVisited | core/adjlist.hpp:66-70 | returns v's bit |
| Graph.AdjList.FindAllNext | core/adjlist.hpp:94-107 | the unvisited neighbours of v in list order |
| Graph.AdjList.FindNext | core/adjlist.hpp:77-87 | -1 exactly when all neighbours are visited; otherwise the first unvisited one |
| Graph.AdjList.FindAllFirst | core/adjlist.hpp:129-140 | every node of degree one in increasing order |
| Graph.AdjList.FindFirst | core/adjlist.hpp:113-123 | -1 exactly when no node has degree one; otherwise the smallest such node |
| Intersections.Sum | core/lib/intersection.hpp:296 | the left-to-right sum std::accumulate computes, as a definition without a contract of its own; Mean and MeanWithin state its use |
| Intersections.Mean | core/lib/intersection.hpp:294-307 | for a non-empty sample list, the mean times the count is the sum; 0 for none |
| Intersections.MeanWithin | core/lib/intersection.hpp:294-307 | the mean of the samples lies between any bounds of the samples |
| Intersections.UninitializedIntersection | core/lib/intersection.hpp:24-33 | the constructor as written: every field but the cache flag and the average is initialized |
| Intersections.NewIntersection | core/lib/intersection.hpp:21-33 | the constructor as its comment promises: everything 0, false or NULL, the cache flag clear |
| Intersections.SetPoints | core/lib/intersection.hpp:99-115 | new samples and a cleared cache flag |
| Intersections.ComputeAverage | core/lib/intersection.hpp:294-307 | the average is the mean (0 for none), the raw sum is kept, and no samples clears valid |
| Intersections.GetAverage | core/lib/intersection.hpp:130-136 | the cached average when computed; otherwise the mean of the samples, now cached |
| Intersections.GetAverageIdempotent | core/lib/intersection.hpp:130-136 | a second getAverage changes nothing and returns the same value |
| Intersections.AverageAfterSetPoints | core/lib/intersection.hpp:99-136 | after setPoints, getAverage is the mean of the new samples |
| Intersections.UninitializedFlagGivesStaleAverage | core/lib/intersection.hpp:24-33 | as written, a garbage cache flag makes getAverage return a stale value (7 for samples [1]) |
| Intersections.NewIntersectionAveragesSamples | core/lib/intersection.hpp:24-33 | with the intended initialization getAverage is the mean of the samples |
| Intersections.CountPositive | core/lib/intersection.hpp:244-246 | the positive count is at most the number of samples |
| Intersections.CountPositiveAll | core/lib/intersection.hpp:244-248 | all counted exactly when all are positive; none exactly when none is; zeros count as negative |
| Intersections.SampleWeight | core/lib/intersection.hpp:239-258 | undefined (0/0) exactly for no samples |
| Intersections.SampleWeightBounds | core/lib/intersection.hpp:239-258 | the weight lies in [bonus, A + bonus]; A + bonus when all samples are positive, the bonus alone when evenly split |
| Intersections.CorrectSample | core/lib/intersection.hpp:213-221 | a sample is kept or shifted by exactly 2 Vnyq; zero stays zero; within +-2 Vnyq the result is >= 0 when the signs agree and <= 0 otherwise |
| Intersections.Corrected | core/lib/intersection.hpp:206-230 | aliasing correction keeps the length and shifts each sample by the sign rule |
| Intersections.CorrectedSigns | core/lib/intersection.hpp:206-230 | within +-2 Vnyq, corrected samples take the sign of the flow and zeros stay zero |
| Intersections.AliasCorrected | core/lib/intersection.hpp:206-230 | the corrected samples, their mean as average, valid cleared for none, the rest kept |
| Intersections.CorrectIntersectionAliasing | core/lib/intersection.hpp:206-230 | the in-place loop gives AliasCorrected |
| Intersections.EstimateVelocitySimple | core/lib/intersection.hpp:264-273 | 0 when invalid; otherwise average / cosTheta, undefined exactly for cosTheta = 0 |
| Intersections.Vote | core/intersection_set.hpp:51-70 | an intersection with zero weight casts no vote |
| Intersections.Tally | core/intersection_set.hpp:51-72 | with A >= 0 the accumulated weight sum is non-negative |
| Intersections.DirectionOf | core/intersection_set.hpp:73-78 | 0 for a zero weight sum (NaN reset); 1 when the votes equal a nonzero weight sum |
| Intersections.TallyBounded | core/intersection_set.hpp:42-80 | with A >= 0 the vote sum lies between minus and plus the weight sum |
| Intersections.DirectionBounded | core/intersection_set.hpp:42-80 | the direction estimate lies in [-1, 1] |
| Intersections.TallyUnanimous | core/intersection_set.hpp:42-80 | when no crossing disagrees, the votes equal the weights |
| Intersections.DirectionUnanimous | core/intersection_set.hpp:42-80 | then the direction is 1 (or there is no weight at all) |
| Intersections.LsVelocity | core/intersection_set.hpp:115-123 | the numerator over the denominator when that is nonzero; 0 when it is zero, where the numerator is zero too and the source resets NaN |
| Intersections.LsTallyProportional | core/intersection_set.hpp:86-124 | when every used crossing measured v * cos, the LS numerator is v times the denominator |
| Intersections.LsDenominatorZero | core/intersection_set.hpp:86-124 | the LS denominator is non-negative and, when zero, so is the numerator |
| Intersections.LsVelocityExact | core/intersection_set.hpp:86-124 | the least-squares estimate recovers v exactly from consistent measurements |
| Intersections.Averaged | core/intersection_set.hpp:42-80 | every member after getAverage |
| Intersections.LsAveraged | core/intersection_set.hpp:86-124 | every member after the LS pass |
| Intersections.AllAliasCorrected | core/intersection_set.hpp:130-137 | every member after correctAliasing |
| Intersections.TallyStep | core/intersection_set.hpp:42-80 | the vote tally of one more member |
| Intersections.LsTermsInBand | core/intersection_set.hpp:95-112 | inside the band a member contributes its average times cos and cos squared |
| Intersections.LsTallyStep | core/intersection_set.hpp:86-124 | the LS tally of one more member |
| Intersections.DirectionPass | core/intersection_set.hpp:42-80 | the accumulate loop averages every member and sums the votes and weights |
| Intersections.LsPass | core/intersection_set.hpp:86-124 | the LS loop touches every member and sums numerator and denominator |
| Intersections.IntersectionSet.constructor | core/intersection_set.hpp:25-36 | empty, no estimates, A = 10, direction band (0.07, 0.9), LS band [0.17, 1] |
| Intersections.IntersectionSet.EstimateDirection | core/intersection_set.hpp:42-80 | the members are averaged and the direction is the vote quotient; the velocity is kept |
| Intersections.IntersectionSet.EstimateVelocityLS | core/intersection_set.hpp:86-124 | the members are LS-touched and the velocity is the LS quotient; the direction is kept |
| Intersections.IntersectionSet.CorrectAliasing | core/intersection_set.hpp:130-137 | every member corrected against the current direction; the estimates are kept |
| Intersections.IntersectionSet.SetDirectionEstimationParameters | core/intersection_set.hpp:145-150 | sets A and the band; members and cached estimates stay |
| Intersections.IntersectionSet.SetVelocityEstimationCutoff | core/intersection_set.hpp:157-161 | sets the LS band; members and cached estimates stay |
| Intersections.IntersectionSet.GetEstimatedDirection | core/intersection_set.hpp:167-172 | the cached direction, or the vote quotient estimated now |
| Intersections.IntersectionSet.GetEstimatedVelocity | core/intersection_set.hpp:178-183 | the cached velocity, or the LS quotient estimated now |
| Intersections.IntersectionSet.Push | core/lib/spline3d.hpp:529 | push_back appends the intersection; parameters and cached estimates are kept |
| Splines.Zeros | core/lib/spline3d.hpp:36-45 | n zeros |
| Splines.PointOf | core/lib/spline3d.hpp:205-231 | point i gathers coordinate i of each axis |
| Splines.EvaluateAt | core/lib/spline3d.hpp:293-313 | defined exactly when every axis has the window; each coordinate is that axis's evaluation |
| Splines.DerivativeAt | core/lib/spline3d.hpp:272-286 | defined exactly when the window exists; each coordinate is that axis's derivative |
| Splines.SplineInterpolates | core/lib/spline3d.hpp:168-178 | a fitted spline passes through point k at parameter k |
| Splines.EvaluationDefined | core/lib/spline3d.hpp:293-313 | evaluation and derivative are defined on [-0.5, n - 0.5) |
| Splines.SignChangeSpec | core/lib/spline3d.hpp:209-231 | the scan returns -1 exactly when all points are on one side; otherwise the first neighbouring pair on different sides |
| Splines.RootsOnWindow | core/lib/spline3d.hpp:565-649 | at most two roots in [0, 1], none below the clamp, and each on the plane |
| Splines.RootsOnPlane | core/lib/spline3d.hpp:565-649 | each root findRoots reports is a curve point on the plane |
| Splines.RootsOnWindowComplete | core/lib/spline3d.hpp:565-649 | every crossing in [0, 1] of a true quadratic is reported |
| Splines.OneSidedNoCrossing | core/lib/spline3d.hpp:209-231 | when all points are on one side, intersect finds nothing |
| Splines.ZeroPlaneNoCrossing | core/lib/spline3d.hpp:209-231 | against the zero plane there is no crossing |
| Splines.CrossingOnPlane | core/lib/spline3d.hpp:205-265 | a reported crossing is the curve at t, near the bracket, and lies on the plane |
| Splines.CrossingRoot | core/lib/spline3d.hpp:239-256 | a crossing comes from a root r of the bracket's window or the next, with t = r + p - 0.5 |
| Splines.LocatedRoot | core/lib/spline3d.hpp:256 | re-locating t = r + p - 0.5 gives the same curve point as the root's window |
| Splines.BeamAxis | core/lib/spline3d.hpp:490-501 | minus column `axis` of the pose when transformed, minus row `axis` otherwise |
| Splines.Cosine | core/lib/spline3d.hpp:502-506 | cosTheta lies in [-1, 1], is 0 for a zero vector, and times the two lengths is the inner product |
| Splines.CosineBounded | core/lib/spline3d.hpp:502-506 | Cauchy-Schwarz in the form the cosine needs |
| Splines.Spline3D.constructor | core/lib/spline3d.hpp:36-45 | npoints zeros per axis, no control points, not initialized, axis 1, transformed |
| Splines.Spline3D.SetPoint | core/lib/spline3d.hpp:63-71 | point idx of every axis replaced; the fit is stale |
| Splines.Spline3D.SetTransform | core/lib/spline3d.hpp:78-82 | sets the transform flag and nothing else |
| Splines.Spline3D.SetAxis | core/lib/spline3d.hpp:98-102 | sets the axis and nothing else |
| Splines.Spline3D.SetPoints | core/lib/spline3d.hpp:126-134 | replaces the points and keeps the initialized flag |
| Splines.Spline3D.Length | core/lib/spline3d.hpp:185-190 | on a fitted spline: at least one point, the point count of every axis, with two more control points per axis |
| Splines.Spline3D.ApplyConvolution | core/lib/spline3d.hpp:140-161 | every axis convolved with the mask; the fit is stale |
| Splines.Spline3D.Compute | core/lib/spline3d.hpp:168-178 | each axis's control points are the solver's; initialized; the spline passes through every point |
| Splines.Spline3D.EvaluateSingle | core/lib/spline3d.hpp:293-313 | an error before compute; afterwards defined exactly where the window exists |
| Splines.Spline3D.DerivativeSingle | core/lib/spline3d.hpp:272-286 | defined exactly where the window exists, with no initialization check |
| Splines.Spline3D.FindRoots | core/lib/spline3d.hpp:565-649 | at most two roots in [0, 1], each on the plane |
| Splines.Spline3D.Intersect | core/lib/spline3d.hpp:205-265 | intersect is IntersectAt; a crossing's point is the spline at its parameter |
| Splines.Spline3D.FindRootsRetry | core/lib/spline3d.hpp:239-242 | window pos + 1, then pos + 2 when the first has no root |
| Splines.Spline3D.FindBracket | core/lib/spline3d.hpp:209-231 | the scan loop computes the bracket |
| Splines.Spline3D.FindIntersection | core/lib/spline3d.hpp:468-509 | a valid result lies on this spline and this frame, with cosTheta in [-1, 1] |
| Splines.Spline3D.IntersectionWith | core/lib/spline3d.hpp:468-509 | a valid result belongs to this spline and this frame; an invalid one is the fresh Intersection |
| Splines.Spline3D.Results | core/lib/spline3d.hpp:523-526 | one findIntersection result per frame |
| Splines.Spline3D.FoundSound | core/lib/spline3d.hpp:517-533 | every kept intersection is valid, of this spline and of one of the frames |
| Splines.Spline3D.CrossingIntersection | core/lib/spline3d.hpp:468-509 | a valid crossing lies on the spline with a cosine in [-1, 1] |
| Splines.Spline3D.FindAllIntersections | core/lib/spline3d.hpp:517-533 | the set gains the valid crossings in frame order up to the first failure, which is returned |
| Splines.Spline3D.Visit | core/lib/spline3d.hpp:525-530 | one pass of the loop: the findIntersection result, and the set grown by it exactly when it is valid |
| Splines.Keep | core/lib/spline3d.hpp:517-533 | no more kept than calls made; the lemmas below say which are kept and which failure stops the loop |
| Splines.KeepSound | core/lib/spline3d.hpp:517-533 | every kept intersection is valid and is one call's result |
| Splines.KeepComplete | core/lib/spline3d.hpp:517-533 | without a failure every call succeeded and every valid result is kept, in order |
| Splines.KeepFailure | core/lib/spline3d.hpp:517-533 | a failure is the first call that failed |
| Splines.KeepStep | core/lib/spline3d.hpp:517-533 | one more call: its failure, its valid result appended, or nothing |
| Splines.KeepStops | core/lib/spline3d.hpp:517-533 | after a failure the remaining calls change nothing |
| Splines.ValidsLast | core/lib/spline3d.hpp:517-533 | the valid results of one more call |
| Splines.GrowSeed | core/lib/intersection.hpp:278-290 | the pixel regionGrow starts from, when the crossing maps into the image |
| Splines.Grow | core/lib/intersection.hpp:278-290 | fails exactly when the evaluation throws; otherwise the samples are regionGrow's from the seed pixel |
| Splines.GrewComponent | core/lib/intersection.hpp:278-290 | the pixels regionGrow reports for a crossing with a nonzero seed are exactly the seed's connected component |
| Splines.GrowAll | core/lib/intersection.hpp:278-290 | every member grown or unchanged; no failure exactly when none throws |
| Splines.GrewExtended | core/lib/intersection.hpp:278-290 | storing one more grown member keeps "every member so far grown" |
| Splines.GrowIntersections | core/angle_correction_impl.cpp:247 | the same pass in place on a spline's set; the settings are kept |
| Splines.FitAxes | core/lib/spline3d.hpp:168-178 | a fitter per axis, each axis's control points solving its system |
| Splines.FitAxis | core/lib/spline3d.hpp:168-178 | one axis's control points solve its system |
| Splines.ConvolveAxis | core/lib/spline3d.hpp:140-161 | the ends, then the interior loop, give Convolved |
| Branching.Adjacency | core/lib/spline3d.hpp:337-351 | one in-range neighbour list per point |
| Branching.Join | core/adjlist.hpp:44-49 | adjacent on the lists: b appended to a's list, a to b's, nothing else |
| Branching.AdjacencySymmetric | core/lib/spline3d.hpp:337-351 | the graph is undirected |
| Branching.Seed | core/lib/spline3d.hpp:422-433 | a new branch starts with the parent point, or empty when there is no parent |
| Branching.Step | core/lib/spline3d.hpp:393-443 | an iteration keeps every branch and opens at most one new one |
| Branching.StepIs | core/lib/spline3d.hpp:393-443 | one loop iteration field by field: pop, append, visit, push children, maybe open a branch |
| Branching.StepAligned | core/lib/spline3d.hpp:393-443 | an iteration only extends branches and keeps the two stacks aligned |
| Branching.CountFalseVisit | core/adjlist.hpp:55-59 | visiting a new node lowers the unvisited count by one |
| Branching.StepDecreases | core/lib/spline3d.hpp:393-443 | each iteration visits a new node or shrinks the stack: the search terminates |
| Branching.StepFrontier | core/lib/spline3d.hpp:393-443 | the frontier invariant survives an iteration |
| Branching.StepClosed | core/lib/spline3d.hpp:393-443 | visited nodes have their neighbours visited or on the stack |
| Branching.StepPoints | core/lib/spline3d.hpp:393-443 | branches hold only centerline points and keep every visited point |
| Branching.StepKeepsInv | core/lib/spline3d.hpp:393-443 | the loop invariant holds and the measure drops |
| Branching.ClosedSetHoldsPath | core/lib/spline3d.hpp:393-443 | a closed visited set holds every path from a visited node |
| Branching.Search | core/lib/spline3d.hpp:337-443 | the branches and visited flags are exactly those of Searched, the depth-first walk run to an empty stack from the start state; every leaf is visited, so is every node connected to one, each in some branch, and branches hold only centerline points |
| Branching.Walked | core/lib/spline3d.hpp:393-443 | the depth-first walk: iterations repeated from a state of the loop invariant until the stack is empty |
| Branching.WalkedInv | core/lib/spline3d.hpp:393-443 | the loop invariant holds when the walk ends |
| Branching.StartWalk | core/lib/spline3d.hpp:383-391 | the start state: the leaves on the stack in reverse, none with a parent, one empty branch, nothing visited |
| Branching.StartInv | core/lib/spline3d.hpp:383-391 | the start state satisfies the loop invariant |
| Branching.Searched | core/lib/spline3d.hpp:337-443 | the depth-first walk from the start state ends with an empty stack |
| Branching.SearchedInv | core/lib/spline3d.hpp:337-443 | the loop invariant holds in that end state |
| Branching.EndCovers | core/lib/spline3d.hpp:393-443 | with the invariant and an empty stack: every leaf visited, the visited set closed under adjacency, branches holding only centerline points and every visited one |
| Branching.SearchedCovers | core/lib/spline3d.hpp:337-443 | in the walk's end state every leaf and every node connected to one is visited and lies in a branch, and branches hold only centerline points |
| Branching.Connect | core/lib/spline3d.hpp:337-351 | the adjacency list of the line cells, nothing visited |
| Branching.StartStacks | core/lib/spline3d.hpp:383-390 | the leaves pushed in reverse, so the first leaf is on top (stack[k] is leaf \|leaves\| - 1 - k), each without a parent |
| Branching.Explore | core/lib/spline3d.hpp:393-443 | the loop keeps the invariant until the stack is empty, and its end state is Walked from the state it began in |
| Branching.Advance | core/lib/spline3d.hpp:396-442 | one iteration on the AdjList object is Step |
| Branching.LongBranchesExact | core/lib/spline3d.hpp:446-452 | exactly the branches of more than one point become splines |
| Branching.LongBranchesPrefix | core/lib/spline3d.hpp:446-452 | keeping a prefix of the branches keeps a prefix of the long ones |
| Branching.AxesOf | core/lib/spline3d.hpp:446-451 | the per-axis coordinates of a branch, point by point |
| Branching.Build | core/lib/spline3d.hpp:323-455 | the branches are Searched's; every leaf lies in a branch, branches hold centerline points, one fresh distinct spline per long branch |
| Branching.MakeSplines | core/lib/spline3d.hpp:446-452 | a fresh spline for each long branch, in order, all distinct |
| Branching.NewSpline | core/lib/spline3d.hpp:449-450 | Spline3D(size) and setPoints with the branch's coordinates |
| Stages.Smoothed | core/angle_correction_impl.cpp:232-235 | n passes keep every axis's length; none when n <= 0 |
| Stages.SmoothingKeepsConstant | core/angle_correction_impl.cpp:232-235 | a constant axis stays constant under any number of passes |
| Stages.Smooth | core/angle_correction_impl.cpp:232-235 | the loop gives Smoothed; the fit is stale after a pass |
| Stages.AnalysedProperties | core/angle_correction_impl.cpp:251-259 | the direction lies in [-1, 1]; without aliasing correction the velocity is the LS estimate of the averaged set |
| Stages.DoneOne | core/angle_correction_impl.cpp:228-268 | one finished spline makes the list done for it |
| Stages.DoneCons | core/angle_correction_impl.cpp:228-268 | a finished first spline in front of done ones |
| Stages.ShiftedFinished | core/angle_correction_impl.cpp:228-268 | spline k with the results consed on is spline k - 1 of the rest |
| Stages.Prepare | core/angle_correction_impl.cpp:232-238 | smoothing and compute leave the spline fitted to its smoothed points |
| Stages.Find | core/angle_correction_impl.cpp:241-242 | the failure of findAllIntersections; otherwise the found crossings and the LS band (cutoff, 1) |
| Stages.FoundAllHolds | core/angle_correction_impl.cpp:241-247 | without a failure the kept crossings are ready to grow and none throws |
| Stages.Estimate | core/angle_correction_impl.cpp:251-259 | estimateDirection, correctAliasing only when Vnyq > 0, estimateVelocityLS |
| Stages.Process | core/angle_correction_impl.cpp:228-268 | all stages on one spline: finished, or the failure of its frame search |
| Stages.GrowAndEstimate | core/angle_correction_impl.cpp:247-259 | region growing, then the estimates |
| Stages.GrowFound | core/angle_correction_impl.cpp:247 | regionGrow on every kept crossing |
| Pipeline.Cells | core/angle_correction_impl.cpp:367 | GetNumberOfCells: at least the line count, and zero exactly when there are no verts, lines, polys or strips |
| Pipeline.SamePolyData | core/angle_correction_impl.cpp:365-389 | equal data have equal point counts and every point pair within squared distance 0.001, in either order of the arguments |
| Pipeline.EqualPolyData | core/angle_correction_impl.cpp:365-389 | the count checks in order, then the first point pair farther apart than 0.001 squared |
| Pipeline.SquaredDistanceSymmetric | core/angle_correction_impl.cpp:382-385 | the squared distance is symmetric |
| Pipeline.DistancesSymmetric | core/angle_correction_impl.cpp:379-387 | point by point, the squared distances of two point lists are the same in either order |
| Pipeline.SamePolyDataReflexive | core/angle_correction_impl.cpp:365-389 | a centerline equals itself |
| Pipeline.SamePolyDataSymmetric | core/angle_correction_impl.cpp:365-389 | the comparison is symmetric |
| Pipeline.InsertAllFacts | core/angle_correction_impl.cpp:343-346 | inserting a branch's arrows keeps the four arrays in lockstep and tags every new entry with d and v |
| Pipeline.Emission | core/angle_correction_impl.cpp:297-348 | the number of splines skipped as uncertain is at most the number of splines |
| Pipeline.EmissionArrays | core/angle_correction_impl.cpp:297-348 | the arrays stay in lockstep; every uncertainty is >= the limit and >= 0; every velocity >= 0 |
| Pipeline.EmissionCounts | core/angle_correction_impl.cpp:306-309 | the skip count is at most the spline count; 0 when all are certain; all, with no arrows, when none is |
| Pipeline.Emit | core/angle_correction_impl.cpp:297-348 | the emission loop gives Emission |
| Pipeline.Caches | core/intersection_set.hpp:167-183 | the estimate caches of every spline |
| Pipeline.Estimates | core/angle_correction_impl.cpp:300-303 | both getters on every spline: cached values kept, missing ones computed and cached |
| Pipeline.EstimateOne | core/angle_correction_impl.cpp:300-303 | the two getters on one spline |
| Pipeline.DoneCached | core/angle_correction_impl.cpp:250-261 | after step 1 every spline has both its direction and its LS velocity cached |
| Pipeline.ComputeDone | core/angle_correction_impl.cpp:168-173 | step 2 on the splines step 1 finished: the output is the arrays of their cached estimates, and the splines stay finished |
| Pipeline.ComputeVtkPolyData | core/angle_correction_impl.cpp:277-361 | the estimates of every spline, and the arrays Emission makes of them |
| Pipeline.RunStages | core/angle_correction_impl.cpp:228-268 | the stages on every spline up to the first failure; the crossing count is the total found |
| Pipeline.Rest | core/angle_correction_impl.cpp:228-268 | the loop after the first spline |
| Pipeline.Tail | core/angle_correction_impl.cpp:228-268 | the loop on the splines after the first, which stays finished |
| Pipeline.Stage | core/angle_correction_impl.cpp:228-268 | the stages on the first spline leave the others untouched |
| Pipeline.BlankStartable | core/lib/spline3d.hpp:449-450 | a new spline over a branch of two or more points is ready for the stages |
| Pipeline.BuildSplines | core/angle_correction_impl.cpp:225-226 | the branches are Searched's; build's splines are fresh, distinct and ready, each over a long branch |
| Pipeline.BuildAndRun | core/angle_correction_impl.cpp:225-268 | build then the stages, over Searched's branches: every processed spline is done from its branch's points |
| Pipeline.ImageList.constructor | core/angle_correction_impl.cpp:109 | a frame list with the given frames |
| Pipeline.InputError | core/angle_correction_impl.cpp:52-57 | no error exactly when both limits, Vnyq and nConvolutions are non-negative and there are points and lines |
| Pipeline.AngleCorrection.constructor | core/angle_correction_impl.cpp:27-38 | no output, invalid input, no splines, empty frames and centerline, counters 0 |
| Pipeline.AngleCorrection.SetInput | core/angle_correction_impl.cpp:48-88 | the first failing check and nothing stored; otherwise the frames, the step 1 and step 2 parameters and flags as the source updates them |
| Pipeline.AngleCorrection.TakeFrames | core/angle_correction_impl.cpp:59-64 | new frames (or no prefix) replace the list and raise update1 |
| Pipeline.AngleCorrection.UpdateStep1 | core/angle_correction_impl.cpp:66-76 | a changed Vnyq, cutoff, nConvolutions or centerline is stored and raises update1 |
| Pipeline.AngleCorrection.UpdateStep2 | core/angle_correction_impl.cpp:78-84 | a changed limit or arrow spacing is stored and raises update2 |
| Pipeline.AngleCorrection.SetInputPrefix | core/angle_correction_impl.cpp:91-110 | a new prefix clears the frames and raises update1; a missing first file is an error after that; otherwise setInput with an empty frame list |
| Pipeline.AngleCorrection.Store | core/angle_correction_impl.cpp:225-243 | the splines and counters stored leave the object Built, nothing else changed |
| Pipeline.AngleCorrection.Impl | core/angle_correction_impl.cpp:221-273 | build, then the stages (Built), over Searched's branches of the stored centerline: fresh splines, one per long branch, every one processed Finished from its branch's points, the vessel and crossing counters grown by what was processed; on an error the splines up to the failing one |
| Pipeline.AngleCorrection.RunStep1 | core/angle_correction_impl.cpp:161-166 | step 1 counted, then angle_correction_impl on the stored parameters, with all of Impl's results (Built, over Searched's branches) |
| Pipeline.AngleCorrection.RunStep2 | core/angle_correction_impl.cpp:168-173 | step 2 counted; the output is the arrays of the splines' estimates |
| Pipeline.AngleCorrection.Calculate | core/angle_correction_impl.cpp:140-178 | false with no output on invalid input; otherwise the frames loaded, the steps the flags call for, flags cleared, true; after step 1 the splines are Built over Searched's branches of the stored centerline and loaded frames, and the output is made of their estimates |
| Pipeline.AngleCorrection.LoadFrames | core/angle_correction_impl.cpp:153-158 | an empty frame list is replaced by the frames read |
| Pipeline.AngleCorrection.RunSteps | core/angle_correction_impl.cpp:160-177 | the steps counted from zero: step 1 when update1, step 2 when either flag, then both flags cleared; step 1's results (Built, over Searched's branches) survive step 2 |
| Pipeline.AngleCorrection.BothSteps | core/angle_correction_impl.cpp:160-177 | with update1 raised: step 1, then on success step 2 on the splines it built, or step 1's error with its partial results |
| Pipeline.AngleCorrection.Step2Kept | core/angle_correction_impl.cpp:168-177 | step 2 after a successful step 1 keeps Built, stores the arrays of the splines' estimates and lowers both flags |
| Pipeline.AngleCorrection.Finish | core/angle_correction_impl.cpp:168-177 | the output stored, the step counted and the flags lowered keep Built |
| TpReading.GroupMatrix | lib/tpreader.cpp:17-31 | twelve numbers fill the top three rows row by row; the bottom row is 0 0 0 1 |
| TpReading.GroupMatricesCells | lib/tpreader.cpp:9-37 | one matrix per complete group of twelve, each holding its numbers above the bottom row |
| TpReading.DropIncomplete | lib/tpreader.cpp:9-37 | a trailing incomplete group changes nothing |
| TpReading.FillCell | lib/tpreader.cpp:19-24 | storing the next number extends the filled prefix |
| TpReading.WithBottomRow | lib/tpreader.cpp:25-31 | the top rows kept, the bottom row 0 0 0 1 |
| TpReading.AppendGroup | lib/tpreader.cpp:25-33 | a completed scratch matrix is the next group's matrix |
| TpReading.TpReader.constructor | lib/tpreader.hpp:17-21 | the filename, and no matrices |
| TpReading.TpReader.SetFilename | lib/tpreader.hpp:27-30 | sets the filename, keeps the matrices |
| TpReading.TpReader.StoreMatrix | lib/tpreader.cpp:25-33 | the bottom row written and the matrix appended to m_matrices; the filename kept |
| TpReading.Extracted | lib/tpreader.cpp:17-20 | the values the cells receive: the numbers, then for a failed last extraction 0 after a bad token, or, after trailing whitespace, the cell's previous value (the number twelve back, or the initial scratch cell) |
| TpReading.ExtractedKeeps | lib/tpreader.cpp:17-20 | the only extraction that stores nothing is the last one after trailing whitespace, and its value is the one already in its cell |
| TpReading.TpReader.Read | lib/tpreader.cpp:9-37 | appends, after the earlier matrices, one matrix per complete group of the values the cells receive, the failed last extraction included |
| TpReading.TpReader.ReadValues | lib/tpreader.cpp:15-36 | the loop: one matrix per complete group of twelve cell values appended, the filename kept |
| TpReading.Extract | lib/tpreader.cpp:19 | the extraction stores the next value, or, at the end of the file, leaves the cell holding the value it is taken to have |
| TpReading.KeepCell | lib/tpreader.cpp:17-20 | an extraction that meets the end of the file leaves the cell with its leftover value, which is the value counted for it |
| TpReading.FailedReadCompletesGroup | lib/tpreader.cpp:17-33 | with 12g + 11 numbers and a failed last extraction read() yields g + 1 matrices where the complete groups give g; cell (2, 3) of the last holds 0 after a bad token, and after trailing whitespace numbers[12g - 1] (for g >= 1) or the uninitialized scratch value (g = 0) |
| TpReading.FailedReadHarmless | lib/tpreader.cpp:17-33 | at any other length the failed last extraction, whichever way the stream ends, adds no matrix |
| TpReading.TpReader.ReadChecked | lib/tpreader.cpp:9-37 | with each extraction tested, one matrix per complete group of the numbers, and \|numbers\| / 12 of them |
| Legacy.AlignAll | angle_correction_impl.cpp:170-174 | every spline transformed with axis 1; points and fit kept |
| Legacy.Impl | angle_correction_impl.cpp:158-251 | the Vnyq then nConvolutions errors; otherwise build (Searched's branches) and the stages, every spline done or the failing one named |
| Legacy.Sampled | angle_correction_impl.cpp:93-126 | the arrows of every spline at the given spacing |
| Legacy.FlowDirection | angle_correction_impl.cpp:43-148 | the limit then spacing errors with nothing touched; otherwise the estimates and the arrays of the skip rule |
| Legacy.FlowDirectionDefault | angle_correction_impl.cpp:151-154 | flowDirection with spacing 1.0 |
| Legacy.EstimateFlow | angle_correction_impl.cpp:306-309 | angle_correction_impl's errors first, then flowDirection's; on success the arrays of the estimates |

## Left out

- Reading files is left out. readImages, the MetaImage file reader, the vtkPolyData readers
  and writers, and the file overloads (core/angle_correction_impl.cpp:113-135, 193-219;
  angle_correction_impl.cpp:254-290) are I/O. `Calculate` receives the frames that readImages
  would return. `MetaImage.Read` receives the pixel data and the header tokens.
- The existence test `access(...)` of the prefix overload is a boolean parameter.
- `getTimeDifference`, `printTime` and every `cerr` trace are left out; they only print.
- The SuperLU solve, sqrt and std::stod are function parameters, constrained as described above.
- Frames.MetaImage.SetTransform: std::stod throws std::invalid_argument on a token that is not a
  number (or std::out_of_range on one too large) in an Offset or TransformMatrix line
  (lib/metaimage.hpp:214, 232). The total `stod` parameter has no such failure, so the model
  does not capture that exception.
- Frames.MetaImage.Read: the same std::stod exception is not modelled, for the same reason.
- Frames.MetaImage.SetTransform: requires HeaderFits. An Offset line with more than four values
  or a TransformMatrix line with more than twelve makes the source write past the 4x4 matrix
  (lib/metaimage.hpp:214, 232). Eigen checks the index only in debug builds, so the release
  behaviour is undefined, and the model excludes those headers.
- Frames.MetaImage.Read: requires HeaderFits, for the same undefined out-of-range writes.
- Frames.ApplyHeader: requires HeaderFits, for the same reason; Frames.ApplyLine requires
  LineFits likewise.
- Splines.CrossingAtParam: the source's evaluateSingle reads m_cpoints[i][pos-1 .. pos+1]
  without a bounds check (core/lib/spline3d.hpp:303-311). When intersect's retry on the next
  window (core/lib/spline3d.hpp:239-256) puts the parameter past the last control point, that
  read is out of range and the behaviour is undefined. The model returns the error "control
  point index out of range" there instead.
- Splines.Spline3D.EvaluateSingle: the same out-of-range read becomes that error.
- Splines.Spline3D.Intersect: inherits the error, so FindAllIntersections stops there as it
  does at a reportError, and the pipelines end with that error.
- Splines.Grow: inherits the error through Splines.Throws, so regionGrow fails at such a
  crossing instead of reading out of range.
- Pipeline.ComputeVtkPolyData: the arrow sampling loop (core/angle_correction_impl.cpp:314-347)
  is the parameter `arrowsOf`, so the model does not capture it. That loop also computes
  `p_temp[1]` twice and never sets `p_temp[2]`, which is an uninitialized read. The skip rule,
  the uncertainty and velocity values and the array lockstep are modelled.
- Legacy.FlowDirection: the same sampling loop (angle_correction_impl.cpp:93-126, with the same
  `p_temp` slip at 100-102) is `arrowsOf` applied to the spacing.
- The NaN skips on the estimates (core/angle_correction_impl.cpp:310-312) are left out, because
  the model has no NaN. Zero denominators are explicit cases instead.
- Intersections.DirectionOf: when the weight sum is 0.0 the model returns 0. The source
  divides anyway and resets only a NaN quotient (core/intersection_set.hpp:73-78). A zero
  weight sum with a nonzero vote sum can only come from a negative A, which
  setDirectionEstimationParameters accepts (core/intersection_set.hpp:145-150). The source's
  direction is then +inf or -inf, and that value reaches correctAliasing's sgn and the
  certainty skip of computeVtkPolyData. The model has no infinities, so it does not capture that.
- Intersections.IntersectionSet.EstimateDirection: stores DirectionOf, so the same infinite
  direction is stored as 0 here.
- Intersections.IntersectionSet.GetEstimatedDirection: computes through EstimateDirection, with
  the same difference.
- Frames.PixelCoords: a zero spacing is None, where toImgCoords (lib/metaimage.hpp:150-183)
  never fails and divides by it. A nonzero projection gives +inf or -inf, which inImage
  (lib/metaimage.hpp:394-401) rejects, as the model's "no seed" does. A zero projection gives
  0/0 = NaN, which inImage accepts because every comparison with NaN is false. regionGrow then
  casts NaN to int, which is undefined behaviour. The model does not capture that case.
- Frames.MetaImage.ToImgCoords: the same zero-spacing case, on the image's own pose.
- Legacy.Impl: the source runs each stage over all splines before the next stage
  (angle_correction_impl.cpp:177-235). The model runs all stages spline by spline through
  Pipeline.RunStages. The splines are distinct objects that share no state, and a throw
  discards every spline, so the successful result and the error are the same. Which spline's
  error is reported first is not modelled when several would fail.
- The legacy `regionGrow(splines)` (angle_correction_impl.cpp:14-19) is modelled by
  Stages.GrowFound on each spline.
- Legacy.EstimateFlow: does not state that its estimates are the ones Legacy.Impl left in the
  splines. It states only the relation to the splines' caches after flowDirection.
- lib/spline3d.hpp, the spline header of the legacy pipeline, is not part of this model. The
  core Spline3D stands in for it.
- The range-for loops over the splines in both pipelines (core/angle_correction_impl.cpp:228;
  angle_correction_impl.cpp:170-235) are written as recursion over the sequence of splines
  (RunStages/Rest). The order and the per-spline work are those of the loops.
- AdjList::print (core/adjlist.hpp:145-156) only prints.
- Pipeline.AngleCorrection.Impl: mBloodVessels and mIntersections grow inside the loop
  (core/angle_correction_impl.cpp:230, 243). The model adds what the loop processed once it
  ends, through Pipeline.AngleCorrection.Store. Nothing reads the counters in between, so the
  values left are the same, also after an error.
- TpReading.TpReader.Read: the file stream is its numbers plus how it ends: at the end of the
  data, after trailing whitespace (the failed extraction stores nothing, so its cell keeps the
  value it held), or at a token that is not a number (the failed extraction stores 0, as a
  numeric `operator>>` does since C++11; an earlier standard library would leave the cell
  unchanged there too). The initial contents of the scratch matrix, which `Eigen::Matrix4d()`
  leaves uninitialized, are a parameter. A file that does not open is a stream that ends at the
  end of no data.
- MetaImage::regionGrow reads the pixel buffer at unchecked hashes. The model skips a hash
  outside the buffer. Horizontal neighbours still wrap to the adjacent row, as in the source.

## Findings

| source | as written | input that shows it | evidently intended | confidence | as-written member | corrected member |
|---|---|---|---|---|---|---|
| lib/tpreader.cpp:17-33 | `while(is.good())` extracts before testing, so the extraction that fails at the end still advances the cell and can complete a matrix | 23 numbers followed by a newline: the failed 24th extraction stores nothing, cell (2, 3) keeps the 12th number, and a second matrix is pushed (after a non-numeric token the cell gets 0 instead) | test each extraction (`while (is >> x)`), so only complete groups of twelve numbers become matrices | not executed | TpReading.FailedReadCompletesGroup | TpReading.TpReader.ReadChecked |
| core/lib/intersection.hpp:24-33 | the constructor leaves `m_avg_computed` and `m_avgValue` uninitialized, so getAverage may return garbage without averaging | a new Intersection whose flag happens to be true and whose average is 7, given samples [1]: getAverage returns 7, not 1 | initialize the flag to false ("Initialize everything to 0, false or NULL"), so the first getAverage averages the samples | not executed | Intersections.UninitializedFlagGivesStaleAverage | Intersections.NewIntersectionAveragesSamples |
