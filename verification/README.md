# A Whitted-style ray tracer, modelled in Dafny

This project models the algebra and the selection logic of a small ray tracer.
Floating-point numbers become Dafny `real`s. The modelled pieces are:

- **Tuples** (`Tuples`): homogeneous tuples, where points have w = 1 and vectors have w = 0.
- **Colours** (`Colors`): colours as tuples.
- **Matrices** (`Matrices`, `Adjugate`): square matrices with submatrix, minor, cofactor, a cofactor-expansion determinant, the transposed-adjugate inverse, and the 4x4 product.
- **Transformations** (`Transformations`): the affine builders.
- **Rays** (`Rays`).
- **Shapes** (`Planes`, `Spheres`): the local intersection and the local normal of the plane and the sphere.
- **Intersections** (`Intersections`): the choice of the visible hit, and the state prepared for shading.
- **Patterns** (`Patterns`): the procedural patterns.
- **Canvas** (`Canvases`): a row-major pixel buffer.
- **Camera** (`Cameras`): the camera's pixel geometry and its render loop.
- **Materials** (`Materials`): the material and the branch structure of Phong lighting.
- **World** (`Worlds`): the world that collects, sorts and shades intersections.

There is one module per source file. `Polynomials` holds the closed-form determinant polynomials that the adjugate proofs rest on.

Transcendental functions are parameters of the functions that use them: `sqrt` (magnitude, sphere roots, ring pattern), `tan` (camera), `cos`/`sin` (rotations) and `pow` (the specular highlight). A lemma that needs a fact about one of them states that fact as a hypothesis, for example `sqrt(4.0) == 2.0`. The source's failed assertions are handled in two ways:

- A failed assertion whose condition is cheap to test becomes an `Option` result. For example, `write_pixel` outside the canvas returns `None`.
- A failed assertion that guards an operation against a non-vector operand becomes a precondition.
- A division by zero, which in the source has no assertion and gives infinities or NaN, also becomes a precondition. The members concerned are listed under "## Left out".

The source files are snapshots from different stages of the code, and they do not agree on one object type:

- world.rs gives spheres a material and a transform.
- sphere.rs declares a plain unit sphere.
- pattern.rs and plane.rs use a `Shape` type that object.rs does not define.

The model therefore keeps the object type abstract. `Intersections` is generic over it. `Worlds` takes the three things the world asks of an object through a `Shapes` record: its intersection times with a ray, its normal at a point, and its material.

The model follows the code as written:

- `shade_hit` reads only the first light. It does no shadow test and adds no reflected or refracted colour.
- `dot` asserts only that its receiver is a vector.
- Among several equal nearest hits, `hit` returns the first in list order. It does not break the tie arbitrarily.
- A material has colour, ambient, diffuse, specular and shininess, and nothing else.
- sphere.rs takes a `^` product of two tuples, which tuple.rs does not define. It is modelled as the dot product of the x, y and z components.

## Model

| member | source | states |
|---|---|---|
| Util.Abs | src/util.rs:3-5 | the absolute value used by `flt_eq` is non-negative and is x or -x |
| Util.FltEq | src/util.rs:3-5 | no contract of its own; stated by FltEqIsOpenInterval, FltEqReflexiveSymmetric, FltEqStrict and FltEqNotTransitive |
| Util.FltEqIsOpenInterval | src/util.rs:1-5 | two floats are equal exactly when b lies strictly inside (a - 0.00001, a + 0.00001) |
| Util.FltEqReflexiveSymmetric | src/util.rs:3-5 | float equality is reflexive and symmetric |
| Util.FltEqStrict | src/util.rs:3-5 | a difference of exactly EPSILON counts as not equal, in both orders |
| Util.FltEqNotTransitive | src/util.rs:3-5 | float equality is not transitive: 0 ~ 0.6e-5 ~ 1.2e-5 but 0 is not ~ 1.2e-5 |
| Tuples.Point | src/tuple.rs:122-124 | `point` builds a point (w = 1), never a vector |
| Tuples.Vector | src/tuple.rs:126-128 | `vector` builds a vector (w = 0), never a point |
| Tuples.PointVectorArithmetic | src/tuple.rs:65-94 | point - point is a vector, point ± vector is a point, vector ± vector and -vector are vectors, point + point is neither |
| Tuples.NegInvolution | src/tuple.rs:65-94 | negation is an involution, a + (-a) and a - a are the zero tuple, 0 - a is -a |
| Tuples.Dot | src/tuple.rs:34-37 | `dot` needs only its receiver to be a vector and then agrees with the four-term product of `Mul<Tuple>` |
| Tuples.DotIgnoresArgumentW | src/tuple.rs:34-37 | `dot` is blind to the argument's w, and equals the four-term product in either order |
| Tuples.DotLinear | src/tuple.rs:102-108 | the four-term product is additive and homogeneous in its left operand |
| Tuples.DotLinearRight | src/tuple.rs:102-108 | the four-term product is additive and homogeneous in its right operand |
| Tuples.ScaleTwice | src/tuple.rs:96-100 | scaling by s and then by t is scaling by s * t |
| Tuples.Cross | src/tuple.rs:45-53 | the cross product of two vectors is a vector |
| Tuples.CrossAntiCommutative | src/tuple.rs:45-53 | swapping the operands negates the cross product; a vector crossed with itself is zero |
| Tuples.CrossIsOrthogonal | src/tuple.rs:45-53 | the cross product is perpendicular to both operands |
| Tuples.CrossAxes | src/tuple.rs:45-53 | the cross products of (1,2,3) and (2,3,4) and of the x and y axes |
| Tuples.Reflect | src/tuple.rs:39-43 | reflecting a vector about a vector gives a vector |
| Tuples.ReflectAboutY | src/tuple.rs:39-43 | about the y axis, reflection mirrors only the y component |
| Tuples.ReflectAt45Degrees | src/tuple.rs:135-140 | (1, -1, 0) reflected about (0, 1, 0) is (1, 1, 0) |
| Tuples.ReflectSlanted | src/tuple.rs:142-147 | (0, -1, 0) reflected about the slanted normal (√2/2, √2/2, 0) is (1, 0, 0) |
| Tuples.ReflectAboutUnitNormal | src/tuple.rs:39-43 | about a unit normal, reflection negates the normal component, keeps the length and is its own inverse |
| Tuples.Normalize | src/tuple.rs:29-32 | the normalised vector is a vector that, scaled back by the magnitude, is the input |
| Tuples.NormalizeIsUnit | src/tuple.rs:24-32 | with a genuine square root the normalised vector has unit length |
| Tuples.ApproxEqProperties | src/tuple.rs:56-63 | tuple equality is componentwise `flt_eq` on all four components, reflexive and symmetric |
| Colors.New | src/color.rs:14-31 | `Color::new` is well formed (w = 0) and `r`, `g`, `b` read back the channels written |
| Colors.ChannelsRoundTrip | src/color.rs:14-31 | rebuilding a well-formed colour from its channels gives it back |
| Colors.DefaultIsBlack | src/color.rs:33-35 | `Color::default()` is black |
| Colors.AddSubChannelwise | src/color.rs:41-55 | addition and subtraction work channel by channel, keep colours well formed, black is their identity, c - c is black |
| Colors.Hadamard | src/color.rs:64-69 | the product of two colours is always a well-formed colour |
| Colors.HadamardProperties | src/color.rs:64-69 | the product of colours is channel-wise and commutative, with white as identity |
| Colors.ScaleProperties | src/color.rs:57-62 | scaling is channel-wise, keeps colours well formed, by 0 gives black and by 1 changes nothing |
| Colors.ScaleCommutes | src/color.rs:57-62 | scaling by two factors does not depend on their order |
| Colors.HadamardScale | src/color.rs:57-69 | a scalar factor passes through the product of colours |
| Colors.ScaleDistributes | src/color.rs:41-62 | scaling distributes over addition and keeps black black |
| Matrices.Submatrix | src/matrix.rs:60-70 | removing a row and a column of an n x n matrix leaves an (n-1) x (n-1) matrix |
| Matrices.SkipEnumeratesOthers | src/matrix.rs:124-134 | the submatrix's rows (columns) are the original ones other than the removed one, in increasing order, and every other one is reached |
| Matrices.SubmatrixEntry | src/matrix.rs:124-134 | each submatrix entry is the original entry at the skipped-over indices |
| Matrices.SubmatrixExamples | src/matrix.rs:343-359 | the 3x3 and 4x4 submatrix tests |
| Matrices.CofactorSign | src/matrix.rs:88-90 | a cofactor is the minor when row + col is even and its negation when odd |
| Matrices.Det2Example | src/matrix.rs:337-341 | the determinant of [1 5; -3 2] is 17 |
| Matrices.Cofactor3Row0 | src/matrix.rs:85-93 | a first-row cofactor of a 3x3 matrix is the signed 2x2 determinant of the remaining entries |
| Matrices.Det3Closed | src/matrix.rs:91-93 | the 3x3 determinant is the first-row cofactor expansion, as a closed polynomial |
| Matrices.CofactorClosed4 | src/matrix.rs:174-179 | a 4x4 cofactor is the signed 3x3 determinant of the entries off its row and column |
| Matrices.Det4Closed | src/matrix.rs:181-183 | the 4x4 determinant is the expansion along row 0 over all four columns |
| Matrices.MinorCofactor3Example | src/matrix.rs:361-366 | the minor (1, 0) of the test matrix is 25 and its cofactor -25 |
| Matrices.Det3Example | src/matrix.rs:368-375 | the first-row cofactors 56, 12, -46 and the determinant -196 of the 3x3 test |
| Matrices.Det4ExampleCofactors | src/matrix.rs:377-387 | the first-row cofactors 690, 447, 210, 51 of the 4x4 test |
| Matrices.Det4Example | src/matrix.rs:377-387 | the determinant of the 4x4 test matrix is -4071 |
| Matrices.TransposeInvolution | src/matrix.rs:108-117 | transposing twice gives the matrix back |
| Matrices.TransposeExamples | src/matrix.rs:316-335 | the identity is its own transpose, and the transpose test |
| Matrices.MulIdentity | src/matrix.rs:200-215 | the identity is a two-sided unit of the product and leaves every tuple unchanged |
| Matrices.ColumnsAreRowCombination | src/matrix.rs:200-215 | a row times a block of rows is the combination of the rows weighted by the row's entries |
| Matrices.RegroupTripleProduct | src/matrix.rs:200-240 | a row, a block and a column multiply to the same value in either grouping |
| Matrices.MulAssocEntry | src/matrix.rs:200-215 | each entry of a triple product is the same in either grouping |
| Matrices.MulAssoc | src/matrix.rs:200-215 | the 4x4 product is associative |
| Matrices.MulTupleAssocRow | src/matrix.rs:230-240 | one component of a product applied to a tuple is the same in either grouping |
| Matrices.MulTupleAssoc | src/matrix.rs:200-240 | a product applied to a tuple applies the right factor first, then the left |
| Matrices.RowsLinear | src/matrix.rs:230-240 | four row products distribute over a sum and commute with scaling |
| Matrices.MulTupleAdditive | src/matrix.rs:230-240 | applying a matrix distributes over a sum of tuples |
| Matrices.MulTupleHomogeneous | src/matrix.rs:230-240 | applying a matrix commutes with scaling a tuple |
| Matrices.MulExample | src/matrix.rs:292-305 | the product test |
| Matrices.MulTupleExample | src/matrix.rs:307-314 | the matrix-times-tuple test gives (18, 24, 33, 1) |
| Matrices.Mat4Ext | src/matrix.rs:186-198 | two 4x4 matrices with the same entries are equal |
| Matrices.IdentityExt | src/matrix.rs:118-122 | a 4x4 matrix with ones on the diagonal and zeros elsewhere is the identity |
| Matrices.ApproxEqExamples | src/matrix.rs:271-290 | a matrix equals itself, and changing one entry by 1 breaks equality |
| Matrices.Identity | src/matrix.rs:118-122 | a 4x4 matrix; that it is the unit of the product and fixes tuples is stated by MulIdentity and IdentityExt |
| Matrices.Det2 | src/matrix.rs:44-46 | no contract of its own; stated by Det2Example and Cofactor3Row0 |
| Matrices.Det | src/matrix.rs:91-93 | no contract of its own; the row-0 fold is stated by Det3Closed and Det4Closed, and its agreement with every other row by Adjugate.ExpansionAlongRow0-3 |
| Matrices.Minor | src/matrix.rs:174-176 | no contract of its own; stated by MinorCofactor3Example and CofactorClosed4 |
| Matrices.Cofactor | src/matrix.rs:177-179 | no contract of its own; the sign is stated by CofactorSign, the values by CofactorClosed4 and Det4ExampleCofactors |
| Matrices.Inverse | src/matrix.rs:162-172 | a square matrix of the same size; that it is a right inverse is stated by Adjugate.InverseColumn, Adjugate.MulInverse and Adjugate.InverseCancels |
| Matrices.Transpose | src/matrix.rs:108-117 | a 4x4 matrix; stated by TransposeInvolution and TransposeExamples |
| Matrices.Mul | src/matrix.rs:203-214 | a 4x4 matrix; stated by MulAssoc, MulIdentity and MulExample |
| Matrices.MulTuple | src/matrix.rs:233-239 | no contract of its own; stated by MulTupleAssoc, MulTupleAdditive, MulTupleHomogeneous and MulTupleExample |
| Adjugate.ExpansionAlongRow0 | src/matrix.rs:181-183 | expanding along row 0 gives the determinant |
| Adjugate.ExpansionAlongRow1 | src/matrix.rs:181-183 | expanding along row 1 also gives the determinant |
| Adjugate.ExpansionAlongRow2 | src/matrix.rs:181-183 | expanding along row 2 also gives the determinant |
| Adjugate.ExpansionAlongRow3 | src/matrix.rs:181-183 | expanding along row 3 also gives the determinant |
| Adjugate.RowTimesCofactors | src/matrix.rs:174-183 | a row against the cofactors of row j is the determinant when j is that row and 0 otherwise |
| Adjugate.InverseColumn | src/matrix.rs:162-172 | column c of the inverse is row c's cofactors divided by the determinant |
| Adjugate.ProductEntry | src/matrix.rs:200-215 | a product entry is the row of the left factor against the column of the right one |
| Adjugate.MulInverseEntry | src/matrix.rs:162-172 | each entry of m times its inverse is the identity's entry |
| Adjugate.MulInverse | src/matrix.rs:162-172 | a matrix times its inverse is the identity whenever the determinant is non-zero |
| Adjugate.InverseCancels | src/matrix.rs:401-411 | (A * B) * inverse(B) = A for every invertible B |
| Transformations.TranslationApplied | src/transformations.rs:3-9 | a translation adds w times the offset: a point moves by the offset and a vector does not move |
| Transformations.TranslationExamples | src/transformations.rs:68-80 | (-3, 4, 5) moves to (2, 1, 7), and the vector stays put |
| Transformations.TranslationUndone | src/transformations.rs:3-9 | translating by the opposite offset undoes a translation |
| Transformations.TranslationDet | src/transformations.rs:3-9 | a translation has determinant 1 |
| Transformations.TranslationInverse | src/transformations.rs:3-9 | the inverse of a translation is the translation by the opposite offset |
| Transformations.TranslationInverseExample | src/transformations.rs:68-74 | the inverse of the test translation takes (-3, 4, 5) to (-8, 7, 3) |
| Transformations.IdentityInverse | src/matrix.rs:118-122 | the identity is invertible and is its own inverse |
| Transformations.ScalingUndone | src/transformations.rs:11-17 | scaling by the reciprocal factors undoes a scaling |
| Transformations.ScalingDet | src/transformations.rs:11-17 | the determinant of a scaling is the product of its factors |
| Transformations.ScalingInverse | src/transformations.rs:11-17 | a scaling by non-zero factors is invertible and its inverse scales by the reciprocals |
| Transformations.ScalingApplied | src/transformations.rs:11-17 | scaling multiplies each spatial component by its own factor and keeps w |
| Transformations.ScalingExamples | src/transformations.rs:83-96 | the scaling test and reflection as scaling by -1 |
| Transformations.ShearingApplied | src/transformations.rs:45-57 | x' = x + xy y + xz z, y' = yx x + y + yz z, z' = zx x + zy y + z, w kept |
| Transformations.ShearingExample | src/transformations.rs:133-139 | shearing x by y takes (2, 3, 4) to (5, 3, 4) |
| Transformations.XRotationApplied | src/transformations.rs:19-26 | rotation about x keeps x and w and turns (y, z) by the cosine and sine |
| Transformations.YRotationApplied | src/transformations.rs:28-34 | rotation about y keeps y and w and turns (z, x) |
| Transformations.ZRotationApplied | src/transformations.rs:36-43 | rotation about z keeps z and w and turns (x, y) |
| Transformations.QuarterTurnX | src/transformations.rs:98-105 | a quarter turn about x takes the y axis to the z axis |
| Transformations.QuarterTurnY | src/transformations.rs:115-122 | a quarter turn about y takes the z axis to the x axis |
| Transformations.QuarterTurnZ | src/transformations.rs:124-131 | a quarter turn about z takes the y axis to the negative x axis |
| Transformations.XRotationUndone | src/transformations.rs:107-113 | for a genuine angle (c² + s² = 1), turning back by -s undoes a rotation about x |
| Transformations.XRotationDet | src/transformations.rs:19-26 | the determinant of a rotation about x is c² + s² |
| Transformations.XRotationInverse | src/transformations.rs:107-113 | the inverse of a rotation about x is the rotation the opposite way |
| Transformations.XRotationInverseApplied | src/transformations.rs:107-113 | the inverse turns (y, z) back by the same angle |
| Transformations.BuildersKeepW | src/transformations.rs:3-57 | every builder has the bottom row (0, 0, 0, 1) |
| Transformations.KeepsWPreservesKind | src/matrix.rs:230-240 | a matrix with that bottom row keeps w, so points stay points and vectors stay vectors |
| Transformations.KeepsWClosedUnderMul | src/matrix.rs:200-215 | the bottom row survives products, so every builder chain keeps it |
| Transformations.BuilderChainOrder | src/matrix.rs:139-158 | builders left-multiply: in `m.translation(..).scaling(..)` the tuple is moved by m, then translated, then scaled |
| Transformations.RotationBuildersApplyLast | src/matrix.rs:146-154 | `m.rot_x(a)`, `m.rot_y(a)`, `m.rot_z(a)` apply m first and then the rotation by cos(a), sin(a) |
| Transformations.ShearBuilderAppliesLast | src/matrix.rs:156-158 | `m.shearing(..)` applies m first and then the shear |
| Transformations.BuilderFromIdentity | src/matrix.rs:139-141 | a translation chain started from the identity is the plain translation |
| Transformations.BuilderFromIdentityScale | src/matrix.rs:142-144 | a scaling chain started from the identity is the plain scaling |
| Transformations.Translation | src/transformations.rs:3-9 | a 4x4 matrix; stated by TranslationApplied, TranslationUndone and TranslationInverse |
| Transformations.Scaling | src/transformations.rs:11-17 | a 4x4 matrix; stated by ScalingApplied, ScalingUndone and ScalingInverse |
| Transformations.XRotation | src/transformations.rs:19-26 | a 4x4 matrix; stated by XRotationApplied, XRotationUndone and XRotationInverse |
| Transformations.YRotation | src/transformations.rs:28-35 | a 4x4 matrix; stated by YRotationApplied and QuarterTurnY |
| Transformations.ZRotation | src/transformations.rs:36-43 | a 4x4 matrix; stated by ZRotationApplied and QuarterTurnZ |
| Transformations.Shearing | src/transformations.rs:45-57 | a 4x4 matrix; stated by ShearingApplied and ShearingExample |
| Transformations.ThenTranslate | src/matrix.rs:139-141 | a 4x4 matrix; that the translation applies after the existing transform is stated by BuilderChainOrder and BuilderFromIdentity |
| Transformations.ThenScale | src/matrix.rs:142-144 | a 4x4 matrix; stated by BuilderChainOrder and BuilderFromIdentityScale |
| Transformations.ThenRotX | src/matrix.rs:146-148 | a 4x4 matrix; stated by RotationBuildersApplyLast |
| Transformations.ThenRotY | src/matrix.rs:149-151 | a 4x4 matrix; stated by RotationBuildersApplyLast |
| Transformations.ThenRotZ | src/matrix.rs:152-154 | a 4x4 matrix; stated by RotationBuildersApplyLast |
| Transformations.ThenShear | src/matrix.rs:156-158 | a 4x4 matrix; stated by ShearBuilderAppliesLast |
| Rays.Position | src/ray.rs:14-16 | from a point origin along a vector direction, every position is a point |
| Rays.PositionAlongRay | src/ray.rs:14-16 | time 0 is the origin, positions advance by the direction times the time elapsed |
| Rays.PositionAlongX | src/ray.rs:36-43 | along the x axis only x changes, by the time travelled |
| Rays.PositionExamples | src/ray.rs:36-43 | the four positions of the test ray |
| Rays.TransformMapsPositions | src/ray.rs:18-20 | a transformed ray reaches, at every time, the transformed position of the original |
| Rays.TransformCompose | src/ray.rs:18-20 | transforming by a product transforms by the right factor first, then the left |
| Rays.TranslateRay | src/ray.rs:18-20 | a translation moves a ray's origin by the offset and keeps its direction |
| Rays.ScaleRay | src/ray.rs:18-20 | a scaling scales both the origin and the direction componentwise |
| Rays.TranslateRayExample | src/ray.rs:45-52 | `translating_a_ray`: (1, 2, 3) moves to (4, 6, 8), the direction stays (0, 1, 0) |
| Rays.ScaleRayExample | src/ray.rs:54-61 | `scaling_a_ray`: origin (2, 6, 12) and direction (0, 3, 0) |
| Rays.Transform | src/ray.rs:18-23 | no contract of its own; stated by TransformMapsPositions, TransformCompose, TranslateRay and ScaleRay |
| Planes.LocalIntersect | src/plane.rs:7-13 | at most one time, and none exactly when abs(direction.y) < EPSILON |
| Planes.HitLiesOnPlane | src/plane.rs:7-13 | otherwise the one time is -origin.y / direction.y, and it is the only time at which the ray is on y = 0 |
| Planes.ParallelAndCoplanarExamples | src/plane.rs:37-50 | a parallel ray and a coplanar ray miss |
| Planes.AboveAndBelowExamples | src/plane.rs:51-69 | rays from above and below hit at time 1 |
| Planes.LocalNormalAt | src/plane.rs:15-17 | the plane's normal is a unit vector |
| Planes.NormalConstant | src/plane.rs:26-35 | the normal is (0, 1, 0) at every point |
| Spheres.LocalIntersect | src/sphere.rs:11-25 | no times when the discriminant is negative, otherwise exactly two |
| Spheres.QuadraticIsDistance | src/sphere.rs:11-25 | the quadratic in t is the squared distance of the position at t from the centre, minus 1 |
| Spheres.RootSolvesQuadratic | src/sphere.rs:19-24 | both quadratic-formula roots solve a t² + b t + c = 0 when s² = b² - 4ac |
| Spheres.HitsLieOnSphere | src/sphere.rs:11-25 | with a genuine square root, every returned time reaches a point on the unit sphere |
| Spheres.QuadraticRootsComplete | src/sphere.rs:19-24 | every root of a quadratic with a non-zero leading coefficient makes the discriminant non-negative and is one of the two formula roots |
| Spheres.OnSphereIsReturned | src/sphere.rs:11-25 | every time at which the ray is on the unit sphere is returned, so a negative discriminant means the ray never touches the sphere |
| Spheres.IntersectIsExact | src/sphere.rs:11-25 | the returned times are exactly the times at which the ray is on the unit sphere |
| Spheres.RootsOrdered | src/sphere.rs:19-24 | the first time is at most the second; a zero discriminant gives two equal times |
| Spheres.AlongZMisses | src/sphere.rs:11-25 | a ray along z misses exactly when its origin is more than 1 away from the z axis |
| Spheres.OnZAxis | src/sphere.rs:11-25 | a ray along z from (0, 0, c) meets the sphere at -c - 1 and -c + 1 |
| Spheres.TwoPointsExample | src/sphere.rs:53-64 | the test ray from (0, 0, -5) meets the sphere at 4 and 6 |
| Spheres.MissExample | src/sphere.rs:65-74 | the test ray from (0, 2, -5) misses |
| Spheres.InsideExample | src/sphere.rs:75-86 | from the centre both times are returned, -1 and 1 |
| Spheres.BehindExample | src/sphere.rs:87-98 | a sphere behind the ray gives the negative times -6 and -4 |
| Spheres.LocalNormalAt | src/sphere.rs:27-29 | the normal at a point is the vector from the centre to it |
| Spheres.ObjectNormal | src/sphere.rs:27-29 | the normal at a point is a vector |
| Spheres.NormalIsOffset | src/sphere.rs:27-29 | the normal at (x, y, z) is the vector (x, y, z) |
| Spheres.NormalOnSphereIsUnit | src/sphere.rs:167-177 | on the surface the normal has unit length and points outwards |
| Spheres.AxisNormalExamples | src/sphere.rs:132-153 | the normals on the three axes |
| Intersections.Hit | src/intersection.rs:32-37 | nothing exactly when no time is strictly positive; otherwise a visible member of the list with the least visible time |
| Intersections.Step | src/intersection.rs:35-36 | no contract of its own; the fold of it is stated by Hit and HitIsEarliestMinimum |
| Intersections.HitIsEarliestMinimum | src/intersection.rs:32-37 | the hit is at the first position holding the least visible time |
| Intersections.HitAtUnique | src/intersection.rs:32-37 | only one position satisfies that description |
| Intersections.HitOrderIndependent | src/intersection.rs:32-37 | whether there is a hit, and its time, do not depend on the order of the list |
| Intersections.HitAllPositiveExample | src/intersection.rs:117-125 | times 1 and 2 give the hit at 1 |
| Intersections.HitSomePositiveExample | src/intersection.rs:126-133 | times -1 and 1 give the hit at 1 |
| Intersections.HitAllNegativeExample | src/intersection.rs:134-142 | times -2 and -1 give no hit |
| Intersections.HitLowestExample | src/intersection.rs:143-153 | among 5, 7, -3, 2 the hit is 2 |
| Intersections.PrepareComputations | src/intersection.rs:62-80 | the point is the ray's position at the time, the eye is -direction, and the normal is turned to the eye exactly when the two point apart |
| Intersections.NormalFacesEye | src/intersection.rs:62-80 | after preparation normal · eye is the absolute value of the original product, never negative |
| Intersections.SphereOnZAxisComputations | src/intersection.rs:62-80 | for the unit sphere and a ray along z, the point, eye, inside flag and turned normal |
| Intersections.OutsideExample | src/intersection.rs:154-174 | the hit at 4 from (0, 0, -5) is outside, at (0, 0, -1) with normal (0, 0, -1) |
| Intersections.InsideExample | src/intersection.rs:175-185 | the hit at 1 from the centre is inside and the normal is turned to (0, 0, -1) |
| Patterns.WithTransform | src/pattern.rs:108-111 | `with_transform` replaces the transform and keeps the pattern |
| Patterns.Colors | src/pattern.rs:60-68 | `colors` is [a, b] for the two-colour patterns and empty for the test pattern |
| Patterns.EvenFloatIsEven | src/pattern.rs:76-106 | `n % 2.0 == 0.0` on a whole float is exactly evenness, negative numbers included |
| Patterns.StripeParity | src/pattern.rs:78-84 | a stripe is colour a exactly when floor(x) is even, whatever y, z and the transform |
| Patterns.StripePeriodic | src/pattern.rs:78-84 | a stripe repeats every 2 units of x |
| Patterns.StripeAlternatesExample | src/pattern.rs:125-158 | the stripe tests at 0, 0.9, 1, -0.1, -1 and -1.1 |
| Patterns.GradientInterpolates | src/pattern.rs:85-89 | a gradient is a + (b - a) times the fractional part of x, and a at whole x |
| Patterns.GradientExample | src/pattern.rs:182-196 | the gradient test at 0, 0.25, 0.5 and 0.75 |
| Patterns.RingParity | src/pattern.rs:90-96 | a ring is colour a exactly when floor(sqrt(x² + z²)) is even |
| Patterns.RingExample | src/pattern.rs:197-204 | the ring test at the origin, (1, 0, 0) and (0, 0, 1) |
| Patterns.CheckerParity | src/pattern.rs:97-103 | a checker is colour a exactly when floor(x) + floor(y) + floor(z) is even |
| Patterns.CheckerExample | src/pattern.rs:205-228 | the checker tests repeating in x, y and z |
| Patterns.TestPatternShowsPoint | src/pattern.rs:104 | the test pattern's colour channels are the point's coordinates |
| Patterns.IdentityTransformsChangeNothing | src/pattern.rs:70-74 | with identity transforms the pattern on a shape is the pattern itself |
| Patterns.ScaledShape | src/pattern.rs:70-74 | on a shape scaled by k the pattern is sampled at the point divided by k |
| Patterns.ScaledPattern | src/pattern.rs:70-74 | a pattern scaled by k is sampled at the point divided by k |
| Patterns.ScaledShapeMovedPattern | src/pattern.rs:70-74 | the shape's inverse is applied first, then the pattern's |
| Patterns.ObjectTransformExample | src/pattern.rs:160-166 | `stripes_with_an_object_transformation` |
| Patterns.PatternTransformExample | src/pattern.rs:167-173 | `stripes_with_a_pattern_transformation` |
| Patterns.BothTransformsExample | src/pattern.rs:174-180 | `stripes_with_both_object_and_pattern_transformation` |
| Patterns.ColorAt | src/pattern.rs:76-106 | no contract of its own; stated per pattern by StripeParity, StripePeriodic, GradientInterpolates, RingParity, CheckerParity and TestPatternShowsPoint |
| Patterns.PatternAtShape | src/pattern.rs:70-74 | no contract of its own; stated by IdentityTransformsChangeNothing, ScaledShape, ScaledPattern and ScaledShapeMovedPattern |
| Canvases.New | src/canvas.rs:13-19 | a new canvas of the given size holds width * height pixels, all `Color::default()` |
| Canvases.IndexInRange | src/canvas.rs:21-23 | the index of an in-bounds pair lies inside the buffer |
| Canvases.ToXYInjective | src/canvas.rs:21-23 | distinct in-bounds pairs have distinct indices |
| Canvases.ToXYOnto | src/canvas.rs:21-23 | every buffer index is the index of one in-bounds pair |
| Canvases.WritePixel | src/canvas.rs:25-30 | a write succeeds exactly in bounds, keeping the size |
| Canvases.PixelAt | src/canvas.rs:39-43 | a read succeeds exactly in bounds |
| Canvases.NewIsBlack | src/canvas.rs:13-19 | every pixel of a new canvas reads as black |
| Canvases.ReadAfterWrite | src/canvas.rs:25-43 | reading a pixel just written gives the colour written |
| Canvases.WriteFrame | src/canvas.rs:25-43 | a write changes no other pixel |
| Canvases.WriteOverwrites | src/canvas.rs:25-30 | writing a pixel twice keeps only the second colour |
| Canvases.WriteReadExample | src/canvas.rs:91-99 | red written at (0, 0) of a 40 x 40 canvas reads back |
| Canvases.ToXY | src/canvas.rs:21-23 | no contract of its own; stated by IndexInRange, ToXYInjective and ToXYOnto |
| Cameras.PixelSize | src/camera.rs:34-48 | the pixels tile the view exactly, the size is 2 tan(fov/2) / max(hsize, vsize), and the longer side spans the whole view |
| Cameras.ViewFor | src/camera.rs:34-48 | both branches of `pixel_size` tile the view |
| Cameras.WideView | src/camera.rs:40-42 | the wide branch tiles the view |
| Cameras.TallView | src/camera.rs:43-46 | the tall branch tiles the view |
| Cameras.New | src/camera.rs:21-32 | a new camera keeps its sizes and field of view, has the identity transform, and its view tiles the field of view |
| Cameras.NewIsCalibrated | src/camera.rs:21-48 | a new camera's pixels cover exactly twice its half width and half height |
| Cameras.PixelSizeExamples | src/camera.rs:92-102 | 200 x 125 and 125 x 200 both give pixel size 0.01 when tan(fov/2) = 1 |
| Cameras.PixelSizeSymmetric | src/camera.rs:34-48 | swapping the sizes keeps the pixel size |
| Cameras.PixelSizePositive | src/camera.rs:34-48 | a positive half view gives a positive pixel size |
| Cameras.Target | src/camera.rs:50-58 | every pixel centre is a point on the plane z = -1 |
| Cameras.TargetsSymmetric | src/camera.rs:50-58 | mirrored pixels have mirrored centres |
| Cameras.TargetsInsideView | src/camera.rs:50-58 | every pixel centre lies strictly inside the view |
| Cameras.CentreTarget | src/camera.rs:50-58 | for odd sizes the centre pixel is at (0, 0, -1) |
| Cameras.UntransformedEye | src/camera.rs:59-60 | without a transform the eye is the origin |
| Cameras.UntransformedPixel | src/camera.rs:59 | without a transform the pixel centre is not moved |
| Cameras.Untransformed | src/camera.rs:59-61 | without a transform the ray's unnormalised direction is the pixel centre's offset from the eye |
| Cameras.StraightDownIsUnit | src/camera.rs:61 | (0, 0, -1) has length 1 and normalises to itself |
| Cameras.RayForPixel | src/camera.rs:50-63 | the ray starts at the eye and points at the pixel with a direction that, scaled back by the distance, is the offset |
| Cameras.CentreRay | src/camera.rs:50-63 | the centre ray of an odd-sized untransformed camera goes from the origin along -z |
| Cameras.CentreRayExample | src/camera.rs:104-111 | the ray through pixel (100, 50) of a 201 x 101 camera |
| Cameras.Render | src/camera.rs:65-75 | a canvas of the camera's size whose every pixel holds the world's `color_at` of the ray through that pixel |
| Cameras.RenderRow | src/camera.rs:67-73 | one pass of the inner loop sets row y to the world's colours and keeps every pixel of the other rows |
| Cameras.Eye | src/camera.rs:59 | no contract of its own; stated by UntransformedEye and RayForPixel |
| Cameras.PixelInWorld | src/camera.rs:52-58 | no contract of its own; stated by UntransformedPixel, Untransformed and RayForPixel |
| Materials.LightVector | src/material.rs:33 | the direction to the light is a vector |
| Materials.LightBehindSurface | src/material.rs:38-40 | with the light behind the surface the result is the ambient term alone |
| Materials.NoHighlight | src/material.rs:44-47 | with the reflection pointing away from the eye the result is ambient plus diffuse |
| Materials.EyeOnReflectedRay | src/material.rs:41-53 | with unit light and normal vectors and the eye on the reflected light, the highlight is the full intensity times the specular coefficient, for any shininess whose power maps 1 to 1 |
| Materials.HighlightAddsLight | src/material.rs:41-53 | with the light in front, a non-negative intensity and specular coefficient, the result is channel by channel at least ambient plus diffuse, whichever way the reflection points |
| Materials.DefaultFacingLight | src/material.rs:16-26 | the default material (white, 0.1, 0.9, 0.9, 200) lit head on by a white light with the eye on the normal gives 1.9 in every channel |
| Materials.Lighting | src/material.rs:29-54 | no contract of its own; stated by LightBehindSurface, NoHighlight, EyeOnReflectedRay, HighlightAddsLight, LightingLinearInIntensity and LightingNonNegative |
| Materials.TermsLinearInIntensity | src/material.rs:31-51 | each of the three terms is proportional to the light's intensity |
| Materials.LightingLinearInIntensity | src/material.rs:29-54 | scaling the light's intensity scales the lit colour by the same factor |
| Materials.TermsNonNegative | src/material.rs:31-51 | non-negative inputs give non-negative terms |
| Materials.LightingNonNegative | src/material.rs:29-54 | non-negative colours and coefficients give a non-negative lit colour |
| Materials.FullAmbientShowsColour | src/material.rs:29-54 | under white light, a fully ambient material lit from behind shows exactly its own colour |
| Worlds.Tag | src/world.rs:48 | each of an object's times paired with the object, in order |
| Worlds.GatherMembers | src/world.rs:45-50 | the collected list holds exactly the pairs of an object of the world with one of its times |
| Worlds.Insert | src/world.rs:51 | inserting into a sorted list keeps it sorted and adds exactly that element |
| Worlds.SortByTime | src/world.rs:51 | the sorted list is ascending by time and a permutation of the input |
| Worlds.Intersects | src/world.rs:44-53 | the world's intersections are ascending by time and a permutation of every object's intersections |
| Worlds.IntersectsMembers | src/world.rs:44-53 | an intersection is in the world's list exactly when it pairs an object with one of its times |
| Worlds.SortKeepsSorted | src/world.rs:51 | sorting a sorted list changes nothing |
| Worlds.SortIdempotent | src/world.rs:51 | sorting twice is sorting once |
| Worlds.SortCons | src/world.rs:51 | sorting x followed by a list inserts x into the sorted list |
| Worlds.SortedHitIsFirstVisible | src/intersection.rs:32-37 | on a sorted list the hit is the first visible intersection |
| Worlds.SortingKeepsHit | src/world.rs:55-57 | sorting changes neither whether there is a hit nor its time |
| Worlds.MissIsBlack | src/world.rs:55-62 | when no object has a positive time the colour is black |
| Worlds.ColorAtFirstVisible | src/world.rs:55-62 | otherwise the colour is the shade of the first visible intersection in time order |
| Worlds.ShadeHitFirstLightOnly | src/world.rs:36-42 | adding lights after the first one, or changing the objects, changes no shade |
| Worlds.FullAmbientHit | src/world.rs:36-62 | with a fully ambient material lit from behind under white light, the colour is the hit object's own colour |
| Worlds.TwoObjectsInterleaved | src/world.rs:44-53 | two objects with interleaved times come out merged in time order |
| Worlds.IntersectsExample | src/world.rs:72-82 | `intersect_world_with_ray`: four intersections at 4, 4.5, 5.5, 6 |
| Worlds.NearSide | src/world.rs:123-131 | the ray from (0, 0, 0.75) along -z reaches (0, 0, 0.5) at time 0.25 facing the normal (0, 0, 1) |
| Worlds.LightBehindInnerSphere | src/world.rs:123-131 | from (0, 0, 0.5) with normal (0, 0, 1) the default light is behind the surface |
| Worlds.BehindTheRayExample | src/world.rs:123-131 | `color_with_intersection_behind_the_ray`: the colour is the inner sphere's own colour |
| Worlds.Ch7DefaultFacts | src/world.rs:20-34 | one white light at (-10, 10, -10), two spheres: the outer (0.8, 1.0, 0.6) with diffuse 0.7 and specular 0.2, the inner the default material scaled by 0.5 |
| Worlds.Gather | src/world.rs:45-50 | no contract of its own; stated by GatherMembers |
| Worlds.ShadeHit | src/world.rs:36-42 | no contract of its own; stated by ShadeHitFirstLightOnly and FullAmbientHit |
| Worlds.ColorAt | src/world.rs:55-62 | no contract of its own; stated by MissIsBlack and ColorAtFirstVisible |
| Worlds.Ch7Default | src/world.rs:20-34 | no contract of its own; stated by Ch7DefaultFacts |

## Left out

- IEEE-754 arithmetic: rounding, NaN, infinities and the ordering of -0.0 by `total_cmp` are not modelled; every number is an exact real.
- `sqrt`, `tan`, `cos`, `sin` and `powf` are parameters. Properties that need them take the needed values as hypotheses, such as `sqrt(4.0) == 2.0`.
- The golden colours computed through square roots and powers (the `shading_intersection`, `shading_intersection_inside` and `ray_hits` tests, and the `render` test) are not restated. Neither are the rotation tests that use √2/2, `ray_corner_canvas`, `ray_transformed_camera` or the five-decimal inverse of `test_inverse_4x4`.
- `Canvas::save_ppm` (file output) and `write_pixel_f` (float-to-index casts) are left out.
- Matrix `Display` and `as_array` (formatting and memory reinterpretation) are left out.
- main.rs and the src/bin demo programs only assemble scenes and write files, so they are left out.
- object.rs is a one-variant dispatch. The model replaces it by the abstract object type and the `Shapes` record, so world-space sphere intersection through the object's transform is not part of this model. lights.rs is the plain record `Materials.Light`.
- `Intersections::new` only wraps a list. Intersection lists are plain sequences.
- Canvas indices are unbounded: the `usize` overflow of `x + y * width` is not modelled.
- Spheres.LocalIntersect requires a non-zero `a` (a zero direction). In the source this divides by zero.
- Tuples.Div requires a non-zero divisor. In the source `Div<f64>` divides by zero and gives infinities or NaN.
- Tuples.Normalize requires a non-zero magnitude. In the source `norm` divides by zero and gives NaN components for the zero vector.
- Materials.Lighting requires, through Materials.CanLight, a non-zero distance from the point to the light. In the source the light vector is then NaN.
- Matrices.Inverse requires a non-zero determinant. In the source a singular matrix gives infinities or NaN.
- Cameras.PixelSize requires both sizes to be positive. In the source a zero size divides by zero.
- Cameras.RayForPixel requires an invertible transform and a non-zero distance from the eye to the pixel. In the source, violating the first gives NaN and violating the second divides by zero.
- Cameras.Render requires that the world can colour the ray through every pixel (Worlds.CanColor): the hit's normal is a vector and the first light can be applied. In the source the outcomes of a violation differ: a normal or light direction that is not a vector fails an assertion, a zero distance from the point to the light gives NaN components through `norm`, and an empty light list panics on the index `lights[0]` at world.rs:41.
- Worlds.SortByTime is a stable insertion sort, as `sort_by` is stable. The model states and proves sortedness and permutation but not stability.
- Worlds.BehindTheRayExample takes the two spheres' times, the light and the hit point and normal as hypotheses. The world-space sphere intersection through the transform is not part of this model. The hypotheses' concrete values are established separately by Worlds.NearSide and Worlds.LightBehindInnerSphere.
- Worlds.IntersectsExample takes the two spheres' times (4, 6 and 4.5, 5.5) as hypotheses for the same reason.
- Materials.Lighting carries no ensures of its own. Its branches are stated by Materials.LightBehindSurface, Materials.NoHighlight, Materials.EyeOnReflectedRay and Materials.HighlightAddsLight. The general highlight value, with the power of an arbitrary cosine, is given only by the definition.
- Util.MAX_REFLECTIONS is declared, but no modelled operation uses it, because the source's world does not recurse.
