# Nex3D renderer core in Dafny

A model of the computational core of the Nex3D WebGL renderer (`lib/*.ts`), with proofs
about it:

- **Algebra** (`algebra.dfy`): 4×4 column-major transforms over the reals. Covers identity, multiply, apply, zoom, translate, the quaternion `rotate`, the fused `compose`, the projection builders and the vector helpers.
- **GaussJordan** (`invert.dfy`): `invert`, a Gauss–Jordan elimination with partial pivoting on a 4×8 augmented array. It is written as an imperative method over `array2<real>` and proved equal to a pure step-by-step specification.
- **Shadow** (`shadow.dfy`):
  - `Shadow.getKernel`, the normalised half-Gaussian, built in a loop with a running sum.
  - The blur shader's `gaussian()` and `box()` loops over a sample field.
  - The depth fragment value `c * z`.
- **Glb** (`glb.dfy`): the GLB header and chunk reads at the head of `GLTFLoader.load`. Words are little-endian 32-bit values, and every header check only warns.
- **Loader** (`loader.dfy`):
  - The accessor tables and the strided copy in `access`.
  - The texture-index choice of `parsePrimitives`.
  - The pre-order `parseMeshes` walk that appends one mesh per mesh-bearing node, with its global transform, to the model's list in place.
- **Models** (`models.dfy`): `Model`, `Mesh` and `Primitive`. The fluent setters, the lazy one-time vertex-array creation and the indexed-or-array draw are stated over a WebGL command log.
- **WebGL** (`webgl.dfy`): the WebGL context as an object that appends every call to `log`, hands out fresh names, and answers compile, link and uniform-location queries through a `Driver` value.
- **Shading** (`shader.dfy`):
  - `Shader`: compile and link with their failure paths, the uniform-location cache, and the setters.
  - The nested model → mesh → primitive draw order.
  - The shadow-visibility expression of the scene shader.
- **Cameras** (`camera.dfy`): the camera's dirty-flag matrix cache with its coherence invariant, the setters, `orbit`, `getQuaterinion`, and the wheel-zoom rule of `setController`.
- **Lights** (`light.dfy`): the light, whose cube model's matrix always follows its position, and `getColor`.
- **RealMath** and **Wrappers**: the transcendental functions as a `MathLib` record of `real -> real` values, with the laws a proof needs stated as predicates; plus `Option`, `Result` and `Outcome`.

Arithmetic is over `real`. `sqrt`, `sin`, `cos`, `tan`, `acos`, `exp` and `log` are parameters. The lemmas rely only on the laws they name: exp is positive, exp(0) = 1, exp(x) < 1 for x < 0 and exp(x) > 1 for x > 0, log(1) = 0, sqrt(1) = 1, sqrt squares back, sin(0) = 0 and cos(0) = 1, cos(acos d) = d for d in [-1, 1], and sin² + cos² = 1.

## Model

| member | source | states |
|---|---|---|
| Algebra.Rotate | lib/algebra.ts:97-120 | the quaternion's matrix is affine: last row (0,0,0,1), no translation column |
| Algebra.Plus | lib/algebra.ts:169-171 | componentwise sum, as long as the first operand |
| Algebra.Minus | lib/algebra.ts:173-175 | componentwise difference, as long as the first operand |
| Algebra.Times | lib/algebra.ts:177-179 | componentwise scaling keeps the length |
| Algebra.Normalize | lib/algebra.ts:164-167 | each component divided by the norm; same length |
| Algebra.Lerp | lib/algebra.ts:221-225 | the interpolation is as long as `next` |
| Algebra.Slerp | lib/algebra.ts:227-243 | slerp returns a vector as long as `next` |
| Algebra.MultiplyIdentityLeft | lib/algebra.ts:10-33 | identity · M = M |
| Algebra.MultiplyIdentityRight | lib/algebra.ts:10-33 | M · identity = M |
| Algebra.ApplyIdentity | lib/algebra.ts:79-86 | the identity moves no vector |
| Algebra.ApplyMultiply | lib/algebra.ts:14-33 | apply(A·B, v) = apply(A, apply(B, v)): B first, then A |
| Algebra.MultiplyAssociative | lib/algebra.ts:14-33 | (A·B)·C = A·(B·C) |
| Algebra.MultiplyZoom | lib/algebra.ts:88-95 | M · zoom(s) scales the first three columns of M by s |
| Algebra.TranslateLinear | lib/algebra.ts:122-129 | translate(t) · M sets the translation column of a translation-free affine M to t |
| Algebra.ComposeIsTranslateRotateZoom | lib/algebra.ts:131-154 | compose(s, q, t) = translate(t) · rotate(q) · zoom(s) entrywise |
| Algebra.ComposeDefaultsIsIdentity | lib/loader.ts:52-55 | compose of the loader's defaults ([1,1,1], [0,0,0,0], [0,0,0]) is the identity |
| Algebra.TranslateMovesPoints | lib/algebra.ts:122-129 | translate(t) adds w·t to a vector and keeps w |
| Algebra.ZoomScalesPoints | lib/algebra.ts:88-95 | zoom(s) scales x, y, z by s and keeps w |
| Algebra.RotateOrthonormal | lib/algebra.ts:97-120 | for a unit quaternion the linear part of rotate(q) is orthonormal |
| Algebra.RotatePreservesLength | lib/algebra.ts:97-120 | rotating a direction by a unit quaternion keeps its length and w = 0 |
| Algebra.OrthogonalMapsBox | lib/algebra.ts:189-196 | left/right, bottom/top and −near/−far land on −1/+1; w is kept |
| Algebra.PerspectiveDepth | lib/algebra.ts:198-207 | clip w = −z; z = −near gives clip z = −w and z = −far gives clip z = +w |
| Algebra.LookAtEyeAtOrigin | lib/algebra.ts:209-219 | the eye point goes to (0,0,0,1), whatever the norms are |
| Algebra.PlusMinus | lib/algebra.ts:169-175 | (a − b) + b = a |
| Algebra.CrossIsOrthogonal | lib/algebra.ts:181-187 | a × b is orthogonal to a and to b |
| Algebra.SumOfSquaresScaled | lib/algebra.ts:177-179 | scaling by k scales the squared length by k² |
| Algebra.NormalizeIsUnit | lib/algebra.ts:164-167 | a normalized vector has unit squared length |
| Algebra.NormalizeUnit | lib/algebra.ts:164-167 | a unit vector normalizes to itself |
| Algebra.NormalizeIsScaling | lib/algebra.ts:164-167 | dividing by the norm is scaling by its inverse |
| Algebra.LerpEnds | lib/algebra.ts:221-225 | lerp at 0 is `previous` and at 1 is `next` |
| Algebra.SlerpStart | lib/algebra.ts:227-243 | slerp at 0 of a unit `previous` is `previous`, on both branches |
| Algebra.SlerpSphericalEnd | lib/algebra.ts:236-242 | on the spherical branch slerp at 1 is the sign-corrected `next` |
| Algebra.SlerpWeightsEnds | lib/algebra.ts:236-241 | the spherical weights of `previous` and `next` are (1, 0) at t = 0 and, where cos(acos d) = d, (0, 1) at t = 1 |
| Algebra.SlerpEnd | lib/algebra.ts:227-243 | slerp at 1 is `next`, or −next when the dot product was negative |
| Algebra.AxisAngleQuaternionIsUnit | lib/algebra.ts:156-162 | the axis-angle quaternion has unit length, so its rotation keeps lengths |
| Algebra.Identity | lib/algebra.ts:10-12 | the identity matrix; MultiplyIdentityLeft, MultiplyIdentityRight and ApplyIdentity state that it is neutral |
| Algebra.Multiply | lib/algebra.ts:14-33 | the column-major product; ApplyMultiply states that applying it is applying B then A, MultiplyAssociative that it is associative |
| Algebra.Apply | lib/algebra.ts:79-86 | a matrix applied to a column vector; ApplyIdentity and ApplyMultiply state its laws |
| Algebra.Zoom | lib/algebra.ts:88-95 | the scaling matrix; ZoomScalesPoints states that it scales each coordinate, MultiplyZoom that multiplying by it on the right scales the first three columns |
| Algebra.Translate | lib/algebra.ts:122-129 | the translation matrix; TranslateMovesPoints states that it moves a point by the offset, TranslateLinear that translating a matrix with no translation puts the offset in its last column |
| Algebra.Compose | lib/algebra.ts:131-154 | the fused translate-rotate-scale matrix; ComposeIsTranslateRotateZoom states that it equals their product, ComposeDefaultsIsIdentity that the defaults give the identity |
| Algebra.Dot | lib/algebra.ts:185-187 | the sum of products over the first vector; CrossIsOrthogonal and NormalizeIsUnit are stated through it |
| Algebra.Cross | lib/algebra.ts:181-183 | the cross product; CrossIsOrthogonal states that it is orthogonal to both factors |
| Algebra.RotateAroundAxisAngle | lib/algebra.ts:156-162 | the rotation by the axis-angle quaternion; AxisAngleQuaternionIsUnit states that the quaternion is a unit for a unit axis, so RotateOrthonormal applies |
| Algebra.Orthogonal | lib/algebra.ts:189-196 | the orthographic projection; OrthogonalMapsBox states that it maps each face of the box to the matching face of the clip cube and keeps w |
| Algebra.Perspective | lib/algebra.ts:198-207 | the perspective projection; PerspectiveDepth states that w becomes -z and, after the divide by w, the near plane lands at depth -1 and the far plane at 1 |
| Algebra.LookAt | lib/algebra.ts:209-219 | the view matrix; LookAtEyeAtOrigin states that it sends the eye to the origin |
| GaussJordan.PivotFromIsFirstMaximum | lib/algebra.ts:47-52 | the pivot scan returns the first row of strictly largest magnitude among i..3 |
| GaussJordan.PivotRowBounds | lib/algebra.ts:47-52 | the pivot of column i is in i..3, has the largest magnitude, and every earlier row is strictly smaller |
| GaussJordan.StepKeepsLeftColumns | lib/algebra.ts:53-69 | pass i never writes a column left of i |
| GaussJordan.SmallColumnSkipped | lib/algebra.ts:53 | a column whose pivot is below epsilon leaves the array unchanged, with no error |
| GaussJordan.DiagonalColumnStep | lib/algebra.ts:53-69 | on a column that is zero off the diagonal, a pass only normalizes the row, or is skipped |
| GaussJordan.StepOnUnitColumn | lib/algebra.ts:53-69 | a pass on a column that is already a unit column changes nothing |
| GaussJordan.Recip | lib/algebra.ts:53-63 | the diagonal left by a pass is 1/x, or 1 when x was skipped |
| GaussJordan.ReduceDiagonal | lib/algebra.ts:46-70 | the passes on [diag(d) ; I] leave [diag(d) ; diag(1/d)], with skipped entries left at 1 |
| GaussJordan.InvertZoom | lib/algebra.ts:35-77 | invert(zoom(s)) = zoom(1/s); a factor below epsilon stays 1 |
| GaussJordan.ZoomTimesInverse | lib/algebra.ts:35-77 | with every factor at least epsilon, zoom(s) · invert(zoom(s)) = I both ways round |
| GaussJordan.ZoomsCancel | lib/algebra.ts:88-95 | zooms whose factors multiply to 1 compose to the identity |
| GaussJordan.InvertZero | lib/algebra.ts:35-77 | the zero matrix is skipped column by column and comes back as the identity |
| GaussJordan.InvertIdentity | lib/algebra.ts:35-77 | invert(I) = I |
| GaussJordan.InvertTranslate | lib/algebra.ts:35-77 | invert(translate(t)) = translate(−t) |
| GaussJordan.TranslateReduces | lib/algebra.ts:46-70 | the passes on [translate(t) ; I] leave translate(t) on the left and the identity with −t in its last column on the right |
| GaussJordan.TranslateTimesInverse | lib/algebra.ts:35-77 | translate(t) · invert(translate(t)) = I both ways round |
| GaussJordan.FindPivot | lib/algebra.ts:47-52 | the pivot loop finds the specified pivot row |
| GaussJordan.SwapRows | lib/algebra.ts:54-60 | the swap exchanges rows i and p from column i on, in place |
| GaussJordan.NormalizeRow | lib/algebra.ts:61-63 | the pivot row is divided by the pivot after column i, in place |
| GaussJordan.EliminateColumn | lib/algebra.ts:64-69 | every other row loses its multiple of the pivot row after column i, in place |
| GaussJordan.EliminateRow | lib/algebra.ts:66-68 | row j loses x[j][i] times the pivot row right of column i, in place; every other entry stays |
| GaussJordan.BuildAugmented | lib/algebra.ts:38-45 | the fresh 4×8 array holds [R ; I] |
| GaussJordan.Invert | lib/algebra.ts:35-77 | `invert` returns the right half of the fully reduced [R ; I] |
| Shadow.Sigma | lib/shadow.ts:82 | the standard deviation is positive |
| Shadow.NegSigmaSquare2 | lib/shadow.ts:83 | −2σ² is negative |
| Shadow.Weights | lib/shadow.ts:79-89 | there are floor(kernelSize/2) + 1 unnormalised taps |
| Shadow.Kernel | lib/shadow.ts:79-94 | the kernel has floor(kernelSize/2) + 1 entries |
| Shadow.MirroredSumScaled | lib/shadow.ts:90-92 | dividing every tap by d divides the mirrored total by d |
| Shadow.KernelNormalized | lib/shadow.ts:84-93 | kernel[0] + 2·Σ kernel[1..halfSize] = 1 |
| Shadow.KernelPositive | lib/shadow.ts:84-93 | every tap is positive |
| Shadow.KernelCentreLargest | lib/shadow.ts:84-93 | kernel[0] is strictly larger than every other tap |
| Shadow.WeightBelowOne | lib/shadow.ts:87 | every tap but the centre has an unnormalised weight below 1 |
| Shadow.KernelFitsUniform | lib/shadow.ts:193-198 | the taps the blur reads fit `kernel[MAX_KERNEL_SIZE]` exactly when kernelSize ≤ 49 |
| Shadow.GetKernel | lib/shadow.ts:79-94 | the loop with its running sum, then the in-place division, yields the normalised kernel |
| Shadow.Gaussian | lib/shadow.ts:220-235 | the loop over rows computes d0 + log Σ kernel[abs i]·kernel[abs j]·exp(dk − d0) over the (2h+1)² footprint |
| Shadow.GaussianAccumulateRow | lib/shadow.ts:228-232 | the inner loop adds row i's weighted exponentials to the running sum |
| Shadow.Box | lib/shadow.ts:203-218 | the loop over rows computes d0 + log(Σ exp(dk − d0) / kernelSize²) over the (2h+1)² footprint |
| Shadow.BoxAccumulateRow | lib/shadow.ts:211-215 | the inner loop adds row i's exponentials to the running sum |
| Shadow.GaussianOnConstantField | lib/shadow.ts:220-235 | with any normalised kernel, a constant field blurs to its own value |
| Shadow.BlurWithKernelOnConstantField | lib/shadow.ts:220-235 | with getKernel's kernel, a constant field blurs to its own value |
| Shadow.BoxOnConstantField | lib/shadow.ts:203-218 | for an odd size, box returns the centre value of a constant field |
| Shadow.BoxOnConstantFieldEvenSize | lib/shadow.ts:203-218 | for an even size, box adds log((k+1)²/k²) > 0 to a constant field's value |
| Shadow.DepthFragment | lib/shadow.ts:173 | c·z lies in [0, c] for z in [0, 1] and c ≥ 0; it is c at z = 1 and 0 at z = 0 |
| Glb.LittleEndianOfBytes | lib/loader.ts:13 | reading back the little-endian bytes of x gives x |
| Glb.BytesOfLittleEndian | lib/loader.ts:13 | writing back the value of a byte string gives the string |
| Glb.U32 | lib/loader.ts:13 | a header word is below 2³² |
| Glb.Parse | lib/loader.ts:13-30 | JSON at [20, 20+len), bin from 28+len; one warning per failing check (magic/version, chunk types, total length), and parsing goes on |
| Glb.Encode | lib/loader.ts:13-30 | a container is 28 bytes plus its two chunks |
| Glb.ParseEncode | lib/loader.ts:13-30 | parsing an encoded container gives back both chunks with no warning |
| Glb.HeaderWordsOnlyWarn | lib/loader.ts:13-16 | the first twelve bytes never change whether or what is read |
| Loader.ComponentCodeRoundTrip | lib/loader.ts:5 | the code of each component type maps back to it |
| Loader.ComponentFromCodeInverse | lib/loader.ts:5 | exactly the six codes are known, each to the kind with that code |
| Loader.BytesPerElement | lib/loader.ts:5 | components are 1, 2 or 4 bytes |
| Loader.ElementSize | lib/loader.ts:4 | elements have 1, 2, 3, 4, 9 or 16 components |
| Loader.DecodeRange | lib/loader.ts:109 | an integer component decodes into its type's range |
| Loader.AccessorLayout | lib/loader.ts:100-105 | the layout's element size is one of the table's |
| Loader.AccessFailsExactly | lib/loader.ts:107-114 | access fails exactly when some element read is misaligned or past the end |
| Loader.AccessShape | lib/loader.ts:102-115 | the result has the accessor's count, size, type and flag, and count·size components |
| Loader.AccessComponent | lib/loader.ts:104-114 | component j of element k is read at base + k·stride + j·BYTES_PER_ELEMENT |
| Loader.AccessData | lib/loader.ts:107-114 | component i of a successful access is the i-th component of the strided copy |
| Loader.CopiedAt | lib/loader.ts:109-112 | component j of a readable element k is decoded from the bytes at its offset, which lie inside the buffer |
| Loader.DefaultStrideIsPacked | lib/loader.ts:104-105 | an absent or zero stride is elementSize·BYTES_PER_ELEMENT |
| Loader.CopyElement | lib/loader.ts:109-112 | the inner loop copies one element's components and nothing else |
| Loader.Access | lib/loader.ts:99-116 | the strided loop computes the specified buffer or error |
| Loader.TextureIndex | lib/loader.ts:86-94 | fails only for a material past the end; a texture comes from the base colour or emissive slot of the primitive's own material |
| Loader.TextureIndexPrefersBaseColor | lib/loader.ts:86-91 | the base colour texture wins; the emissive one is the fallback |
| Loader.TextureIndexAgreesWithMaterial | lib/loader.ts:86-91 | the corrected choice agrees with the code as written for every primitive with a material |
| Loader.NoMaterialThrows | lib/loader.ts:86-91 | as written, a primitive without a material throws; corrected, it has no texture |
| Loader.TextureFor | lib/loader.ts:92-94 | a texture is set exactly when there is an index; past the list it is undefined |
| Loader.PrimitiveValueBuffers | lib/loader.ts:66-97 | a primitive gets a buffer exactly for each named attribute, and a texture exactly when its material names one |
| Loader.AccessIfNamed | lib/loader.ts:70-85 | an attribute is read only when named |
| Loader.ParsePrimitive | lib/loader.ts:67-96 | a fresh primitive holding what the specification parses to, or the first error |
| Loader.ParsePrimitives | lib/loader.ts:66-97 | the primitives in order, each fresh and holding its parse |
| Loader.LocalDefaultIsIdentity | lib/loader.ts:52-55 | a node with no transform is placed at its parent |
| Loader.MeshSlotsCount | lib/loader.ts:57-63 | one mesh is appended per mesh-bearing node of the subtree |
| Loader.ParentFactorsOut | lib/loader.ts:55-62 | global = parent · local: a transform above a subtree premultiplies every mesh's |
| Loader.ParseOwnMesh | lib/loader.ts:57-60 | a node's own mesh is pushed with its global transform |
| Loader.ParseMeshes | lib/loader.ts:43-64 | appends the subtree's meshes in pre-order, leaving existing entries untouched |
| Loader.ParseChildren | lib/loader.ts:61-63 | the children's meshes follow the node's own, in order; passes exactly when they all parse |
| Loader.Load | lib/loader.ts:37-40 | a fresh identity model holding the chosen scene's meshes, root after root |
| Loader.LoadRoot | lib/loader.ts:38-39 | root i's meshes follow those of the roots before it; a failing root fails the whole scene |
| Loader.TextureIndexAsWritten | lib/loader.ts:86-91 | the texture choice as written; NoMaterialThrows states that it fails for a primitive without a material, TextureIndexAgreesWithMaterial that it agrees with the corrected choice otherwise |
| Loader.Local | lib/loader.ts:52-55 | a node's local matrix from its matrix or its translation, rotation and scale; LocalDefaultIsIdentity states that a node with none of them is the identity |
| Models.NewMesh | lib/model.ts:10-15 | a mesh defaults to the identity matrix |
| Models.Model.constructor | lib/model.ts:3-8 | a model defaults to no meshes and the identity |
| Models.Model.WithMeshes | lib/model.ts:3-8 | a model with given meshes has the identity matrix |
| Models.Visible | lib/model.ts:56-65 | what a frame shows of a command log: its uniform settings and draws, each taken from the log |
| Models.SlotsUploadInOrder | lib/model.ts:68-83 | positions, texcoords, normals, then indices are uploaded in that order |
| Models.UploadsShowNothing | lib/model.ts:85-97 | uploading the vertex buffers issues no uniform or draw command |
| Models.TextureBoundOnlyWhenSet | lib/model.ts:57-60 | a texture is bound exactly when one is set |
| Models.UploadEnables | lib/model.ts:85-91 | attribute k is enabled exactly when a present buffer goes to slot k |
| Models.UploadEnablesSet | lib/model.ts:85-91 | the same, slot by slot: enabled exactly when the first slot sets k or a later one does |
| Models.VaoEnablesPresentSlots | lib/model.ts:68-83 | slots 0/1/2 are enabled for positions/texcoords/normals, only when set |
| Models.LaterDrawsCreateNothing | lib/model.ts:52-56 | a draw with the vertex array made creates no vertex array or buffer |
| Models.Primitive.constructor | lib/model.ts:99-105 | a new primitive draws triangles and has nothing set |
| Models.Primitive.SetPositions | lib/model.ts:18-30 | stores the positions and returns itself; nothing else changes |
| Models.Primitive.SetTexCoords | lib/model.ts:32-35 | stores the coordinates and returns itself; nothing else changes |
| Models.Primitive.SetNormals | lib/model.ts:37-40 | stores the normals and returns itself; nothing else changes |
| Models.Primitive.SetIndices | lib/model.ts:42-45 | stores the indices and returns itself; nothing else changes |
| Models.Primitive.SetTexture | lib/model.ts:47-50 | stores the texture and returns itself; nothing else changes |
| Models.Primitive.Upload | lib/model.ts:85-97 | one buffer's upload commands, with a fresh buffer name |
| Models.Primitive.UploadAll | lib/model.ts:68-83 | the four uploads in slot order |
| Models.Primitive.EnableVao | lib/model.ts:68-83 | a fresh vertex array, then each set buffer uploaded and wired |
| Models.Primitive.Draw | lib/model.ts:52-66 | the vertex array is created on the first draw only, then bound, the texture bound if set, and the draw issued |
| Models.Primitive.BindAndIssue | lib/model.ts:56-65 | binds the vertex array, then the texture if set, then issues the draw call; nothing else changes |
| Models.VaoShowsNothing | lib/model.ts:68-83 | `enableVAO` issues no uniform or draw command |
| Models.DrawShowsDrawCall | lib/model.ts:56-65 | of a draw's commands only its draw call shows: drawElements with the index count when indices are set, else drawArrays with the vertex count, else nothing |
| Shading.Snapshot | lib/shader.ts:57 | records each primitive's draw call as its fields stand |
| Shading.MeshesStep | lib/shader.ts:55-58 | mesh j's "mesh" uniform and primitives extend the first j meshes' commands |
| Shading.ModelsStep | lib/shader.ts:53-59 | model i's "model" uniform and meshes extend the first i models' commands |
| Shading.Compile | lib/shader.ts:15-32 | both shaders are created, sourced and compiled; vertex failure is reported before fragment failure |
| Shading.Link | lib/shader.ts:34-46 | a fresh program with both shaders attached and linked; a link failure is an error and the program is not linked |
| Shading.Shader.Of | lib/shader.ts:97-98 | a shader starts with an empty location cache |
| Shading.Shader.New | lib/shader.ts:10-13 | fails exactly on a lost context, a compile failure (vertex first) or a link failure; otherwise a linked program |
| Shading.Shader.Use | lib/shader.ts:48-50 | issues `useProgram` for its program |
| Shading.Shader.GetUniformLocation | lib/shader.ts:86-95 | queries only on a miss; a found location is cached; an unknown one is an error and leaves the cache unchanged |
| Shading.Shader.SetUniform | lib/shader.ts:66-84 | the lookup, then the value into the uniform's location, or the lookup's error |
| Shading.Shader.SetMatrix | lib/shader.ts:62-64 | shows exactly one uniform command with the matrix |
| Shading.Shader.DrawPrimitive | lib/shader.ts:57 | a primitive's draw shows exactly its draw call |
| Shading.Shader.DrawPrimitives | lib/shader.ts:57 | the primitives' draw calls in list order |
| Shading.Shader.DrawMesh | lib/shader.ts:56-57 | mesh j's matrix into "mesh", then its primitives' draw calls |
| Shading.Shader.DrawMeshes | lib/shader.ts:55-58 | each mesh's "mesh" uniform before its primitives, in order; fails when "mesh" is unknown |
| Shading.Shader.DrawModel | lib/shader.ts:53-58 | model i's matrix into "model", then its meshes |
| Shading.Shader.Draw | lib/shader.ts:52-60 | "model" once per model, "mesh" before each mesh's primitives, all in list order; fails exactly when a needed uniform is unknown |
| Shading.Visibility | lib/shader.ts:305-308 | the visibility lies in [0, 1] |
| Shading.VisibilityLitExactlyUnoccluded | lib/shader.ts:305-308 | fully lit exactly when occluder ≥ c·z; otherwise exp(occluder − receiver) |
| RealMath.Clamp | lib/shader.ts:308 | clamp lies in [lo, hi] and is x inside, lo below and hi above |
| Cameras.ViewProjectionOfEye | lib/camera.ts:46-54 | the eye projects onto clip w = 0 |
| Cameras.AxisRotationOfUnitAxis | lib/camera.ts:56-62 | `getQuaterinion` of a unit axis is the axis-angle rotation |
| Cameras.RotatePointKeepsLength | lib/camera.ts:71 | a rotation keeps a point a point at the same distance from the origin |
| Cameras.OrbitKeepsRadius | lib/camera.ts:64-73 | orbiting keeps the eye's distance to the origin |
| Cameras.UnseededSumOfSquaresDiffers | lib/camera.ts:96 | the unseeded fold gives −4 for (−4, 0, 0), where the squared length is 16 |
| Cameras.UnseededSumOfSquaresExact | lib/camera.ts:96 | the unseeded fold is the squared length iff the first component is 0 or 1 |
| Cameras.ZoomScalesOffset | lib/camera.ts:93-95 | the proposal's offset from the target is the old one times the factor |
| Cameras.ZoomKeepsMinimumDistance | lib/camera.ts:92-100 | an accepted zoom never brings the eye closer than the minimum distance |
| Cameras.ZoomRulesDisagree | lib/camera.ts:90-97 | the corrected rule accepts a zoom where the written one takes the root of a negative sum |
| Cameras.Camera.constructor | lib/camera.ts:104-112 | the defaults, with `dirty` set, so the first getMatrix computes |
| Cameras.Camera.SetFov | lib/camera.ts:4-8 | stores fov, marks dirty, returns itself; nothing else changes |
| Cameras.Camera.SetNear | lib/camera.ts:10-14 | stores near, marks dirty, returns itself; nothing else changes |
| Cameras.Camera.SetFar | lib/camera.ts:16-20 | stores far, marks dirty, returns itself; nothing else changes |
| Cameras.Camera.SetAspect | lib/camera.ts:22-26 | stores aspect, marks dirty, returns itself; nothing else changes |
| Cameras.Camera.SetPosition | lib/camera.ts:28-32 | stores position, marks dirty, returns itself; nothing else changes |
| Cameras.Camera.SetTarget | lib/camera.ts:34-38 | stores target, marks dirty, returns itself; nothing else changes |
| Cameras.Camera.SetUp | lib/camera.ts:40-44 | stores up, marks dirty, returns itself; nothing else changes |
| Cameras.Camera.GetMatrix | lib/camera.ts:46-54 | returns perspective·lookAt of the current fields; recomputes only when dirty, else returns the cached matrix; keeps the cache coherent |
| Cameras.Camera.Orbit | lib/camera.ts:64-73 | only the position changes, to the orbited point, and the cache is marked dirty |
| Cameras.Camera.Wheel | lib/camera.ts:92-100 | moves the eye to target + factor·(eye − target) exactly when the rule accepts; otherwise nothing changes |
| Cameras.AxisRotation | lib/camera.ts:56-62 | the rotation about an axis by an angle; AxisRotationOfUnitAxis states that for a unit axis it is the axis-angle rotation `RotateAroundAxisAngle` |
| Cameras.OrbitPosition | lib/camera.ts:64-73 | where `orbit` moves the eye; OrbitKeepsRadius states that the squared length of the eye position is kept |
| Cameras.ZoomAcceptedAsWritten | lib/camera.ts:90-97 | the zoom test with the distance folded without a seed, as the source computes it |
| Cameras.ZoomRulesAgree | lib/camera.ts:90-97 | the zoom test as written and the corrected one agree when the first offset component of the eye and of the initial eye is 0 or 1 |
| Lights.PlacementCentresCube | lib/light.ts:12 | the cube's point p lands at position + p/10 |
| Lights.ColorScaling | lib/light.ts:21-23 | intensity 1 gives the colour, 0 gives black, brightness scales by intensity² |
| Lights.Light.constructor | lib/light.ts:6-13 | stores its fields and places the cube at the position |
| Lights.Light.Default | lib/light.ts:6-13 | intensity 1, white, at the origin, with the cube placed there |
| Lights.Light.SetPosition | lib/light.ts:15-19 | moves the light and its cube together and returns itself; nothing else changes |
| Lights.Light.GetColor | lib/light.ts:21-23 | the colour scaled by the intensity: the colour itself at intensity 1, black at intensity 0 |
| Lights.Light.GetColorBrightness | lib/light.ts:21-23 | the squared brightness of the returned colour is intensity² times the colour's |
| Lights.Placement | lib/light.ts:12-17 | the cube model's matrix for a position; PlacementCentresCube states that a cube point p lands at position + p/10 |

## Left out

- lib/gl.ts, webpack.config.js and app/index.ts are not part of this model. They hold texture and framebuffer creation, build configuration and the page's render loop.
- The Shadow constructor, `cast` and `blur` (lib/shadow.ts:6-77, 96-137) are fixed GL command sequences, and the commented-out horizontal pass is dead code. Only the depth fragment value and the clear value `c` are modelled.
- `fetch`, `JSON.parse`, `TextDecoder`, `loadTexture`'s image decoding and `BasicLoader`'s literal vertex tables are I/O or constant data. The document is taken already parsed, and the textures and the light's cube model are passed in.
- IEEE-754 rounding, NaN and Float32Array storage are not modelled: arithmetic is exact over `real`. A 32-bit float component is decoded by a parameter.
- The mouse listeners of `setController` are not modelled. Only the wheel rule and `orbit` are.
- Shader info-log texts and exception messages become error values.
- Glb.Parse: a buffer too short for the words read returns `Truncated`. In the source, a slice whose length is not a multiple of 4 makes `new Uint32Array` throw a RangeError, an empty slice yields `undefined` words, and a JSON chunk cut short makes `JSON.parse` throw; a buffer ending at the end of the JSON chunk goes on with `undefined` binary-chunk words.
- Loader.Access: a component type outside the table returns `UnknownComponentType`, where the source throws a TypeError reading `BYTES_PER_ELEMENT` of `undefined` (lib/loader.ts:104). An unknown element-type string is excluded by the `ElementType` datatype, where the source gets an `undefined` element size and builds an empty typed array.
- Loader.ParseMeshes: node ids are resolved into a tree of `Node` values, so missing or cyclic node references are not modelled.
- Algebra.Normalize: requires a non-zero norm. The source divides by zero and yields non-finite components.
- Algebra.Orthogonal, Algebra.Perspective and Algebra.LookAt: require their divisors to be non-zero for the same reason.
- Cameras.Camera.Wheel: follows the corrected zoom rule of the second Findings row, comparing the square root of the squared distance. The source (lib/camera.ts:90, 96) folds without a seed and compares sqrt(v0 + v1² + v2²), so for example with the eye at (3, 0, 4) from the target, minimum distance 1 and factor 0.21 the source rejects the zoom and the model accepts it. ZoomRulesAgree and ZoomRulesDisagree relate the two rules.
- Loader.ParsePrimitive: follows the corrected texture choice of the first Findings row, giving no texture to a primitive without a material. The source (lib/loader.ts:90) throws a TypeError there, so the whole load fails; the same holds for ParsePrimitives, ParseMeshes and Load, which call it. TextureIndexAsWritten and NoMaterialThrows model the throw.
- Algebra.Plus, Algebra.Minus and Algebra.Dot require `|a| <= |b|`, and Algebra.Lerp requires `|next| <= |previous|`: past the shorter vector the source reads `undefined` and computes NaN, which `real` cannot represent.
- Algebra.Slerp requires vectors of equal length and `SlerpDefined`: the normalised linear blend has a non-zero length, or the sine of the angle is non-zero. Otherwise the source divides by zero and returns NaN or infinite components.
- Cameras.Camera.GetMatrix: requires the projection and view to be defined (non-zero divisors).
- Cameras.Camera.Orbit: requires both rotation axes to have non-zero length (the same reason).
- Cameras.Camera.Wheel: requires a non-zero canvas height. `minDistance` is a parameter; the source computes it once when the controller is installed.
- Shading.Visibility: requires a non-zero clip w.
- Shading.Shader.New: models the constructor. `Shading.Link` is called only with the freshly compiled shaders, as the constructor does.
- Shading.Shader.SetUniform: covers the six setters with one method over a `UniformValue`.
- Shading.Shader.Draw: states the uniform and draw commands in order, as seen through `Visible`, and not the bind and upload commands in between. `Models.Primitive.Draw` states those for each primitive.
- Cameras.Camera.constructor: the matrix before the first `getMatrix` is unset in the source. The model holds the identity there, and `dirty` says it is stale.
- Models.Primitive.SetPositions: the bounding-box loop is not modelled, since its result is discarded.
- GaussJordan.Invert: invert(M)·M = I is proved for translations, scalings, the identity and the zero matrix, not for every non-singular matrix.

## Findings

| source | as written | input that shows it | evidently intended | confidence | as-written member | corrected member |
|---|---|---|---|---|---|---|
| lib/loader.ts:86-94 | the emissive fallback reads `gltf.materials[primitive.material]` even when the primitive has no material | a primitive with no `material` property: `materials[undefined]` is undefined and `.emissiveTexture` throws | a primitive without a material gets no texture | high, not executed | Loader.NoMaterialThrows | Loader.TextureIndex |
| lib/camera.ts:90 | the squared distance is a `reduce` without a seed, so the first component is added unsquared | eye (−4, 0, 0) looking at the origin: the sum is −4 and its square root NaN, so no wheel zoom is ever accepted | a seed of 0, giving the squared length 16 | high, not executed | Cameras.ZoomRulesDisagree | Cameras.ZoomKeepsMinimumDistance |
