# Wheel-transform and confidence helpers — a Dafny model

This project models two small helper modules of a browser front end. The front end places a 3D wheel overlay on the wheels of cars found in a captured frame:

- **Transform helpers** (`src/utils/transform3D.ts`). The backend returns, for each detected car, a nullable rear and a nullable front *wheel transform*: position, rotation (basis vectors and a quaternion), scale, bounding box and confidence. The helpers do four things:
  - choose a car's primary wheel: rear first, front as fallback;
  - flatten the wheel transforms of all cars into one list;
  - lay the three basis vectors into a column-major 4×4 matrix that starts as the identity;
  - convert between normalized device coordinates and pixel coordinates. Normalized coordinates run over [-1, 1] with y pointing up; pixels run over [0, width] × [0, height] with y pointing down.
- **Confidence checker** (`src/utils/confidenceChecker.ts`). It maps a confidence value to one of three verdicts: "tire likely", "maybe a tire" and "probably not a tire". The cut-offs are 0.75 and 0.5, and each cut-off belongs to the higher verdict.

Files:

- `wrappers.dfy`: `Option`, which models the source's `T | null` fields.
- `detection_types.dfy`: the record shapes from `src/types/detection.ts`, namely `Vec3`, `BasisVectors`, `Position3D`, `Quaternion`, `Rotation3D`, `Scale3D`, `BoundingBox`, `WheelTransform` and `CarDetection`.
- `transform3d.dfy`: the transform helpers.
  - `AllWheelTransforms` is a method with a loop, as in the source's `forEach`/`push`. It is proved equal to the specification function `Flattened`, and the order, length and membership lemmas are stated about `Flattened`.
  - `BasisVectorsToMatrix4` writes the slots of a freshly built `Matrix4` object in place. That object's `elements` array starts as the identity, as the matrix constructor does in the source.
- `confidence_checker.dfy`: the verdict datatype and the classifier.

Numbers are modelled as `real`.

## Model

| member | source | states |
|---|---|---|
| `Transform3D.PrimaryWheelTransform` | src/utils/transform3D.ts:31-36 | the rear transform whenever it is present; otherwise a transform the detection carries (so the front one); absent exactly when both rear and front are absent |
| `Transform3D.AllWheelTransforms` | src/utils/transform3D.ts:114-130 | an empty detection list gives an empty list; in general the result is `Flattened(detections)`, the rear-then-front list of all detections in order, whose properties the `Flattened*` lemmas state; its length is the number of non-null rear/front fields |
| `Transform3D.FlattenedAppend` | src/utils/transform3D.ts:118-129 | flattening `a + b` gives the flattening of `a` followed by that of `b` |
| `Transform3D.FlattenedSingle` | src/utils/transform3D.ts:120-127 | one detection contributes its rear transform (if any) followed by its front transform (if any) |
| `Transform3D.FlattenedLength` | src/utils/transform3D.ts:118-129 | the flattened list has exactly one entry per non-null rear or front field |
| `Transform3D.ContributionCarries` | src/utils/transform3D.ts:121-126 | a detection's contribution holds exactly the non-null transforms it carries (so no null entry is ever pushed) |
| `Transform3D.FlattenedMembership` | src/utils/transform3D.ts:118-129 | a transform is in the flattened list if and only if some detection carries it as its rear or front transform |
| `Transform3D.FlattenedPosition` | src/utils/transform3D.ts:120-127 | detection `i`'s transforms form one contiguous block that starts right after the transforms of detections `0..i-1`; inside the block the rear transform comes first and the front one follows it |
| `Transform3D.FlattenedBlocksOrdered` | src/utils/transform3D.ts:120-127 | for `i < j`, the block of detection `i` ends no later than the block of detection `j` starts, so detection order is preserved |
| `Transform3D.FirstTransformIsPrimary` | src/utils/transform3D.ts:118-125 | a single detection contributes nothing exactly when its primary transform is absent; otherwise the first flattened transform is the first detection's primary transform |
| `Transform3D.IdentityElements` | src/utils/transform3D.ts:43 | the 16 starting slots are the identity: entry (row, col) is 1 on the diagonal and 0 elsewhere |
| `Transform3D.Matrix4.constructor` | src/utils/transform3D.ts:43 | a fresh matrix's elements are the identity's 16 slots |
| `Transform3D.BasisVectorsToMatrix4` | src/utils/transform3D.ts:42-68 | a fresh 16-slot matrix: entry (row, col) is component `row` of axis `col` for row, col < 3; the translation column is (0, 0, 0, 1); the unwritten bottom-row slots 3, 7 and 11 keep the identity's value 0 |
| `Transform3D.NormalizedToPixel` | src/utils/transform3D.ts:84-94 | normalized x = -1 and 1 map to pixel x = 0 and width; normalized y = 1 and -1 map to pixel y = 0 and height (y flipped); partners: `NormalizedRoundTrip`, `PixelRoundTrip`, `PixelXRange`, `PixelYRange`, `PixelCorners`, `PixelXIncreasing`, `PixelYDecreasing` |
| `Transform3D.PixelToNormalized` | src/utils/transform3D.ts:99-109 | requires a nonzero width and height (see "Left out"); pixel x = 0 and width map to normalized x = -1 and 1; pixel y = 0 and height map to normalized y = 1 and -1; partners: `NormalizedRoundTrip`, `PixelRoundTrip` |
| `Transform3D.PixelXRange` | src/utils/transform3D.ts:84-94 | for a positive width, pixel x lies in [0, width] if and only if normalized x lies in [-1, 1] |
| `Transform3D.PixelYRange` | src/utils/transform3D.ts:84-94 | for a positive height, pixel y lies in [0, height] if and only if normalized y lies in [-1, 1] |
| `Transform3D.NormalizedRoundTrip` | src/utils/transform3D.ts:84-108 | for nonzero width and height, `PixelToNormalized(NormalizedToPixel(x, y))` is `(x, y)` |
| `Transform3D.PixelRoundTrip` | src/utils/transform3D.ts:84-108 | for nonzero width and height, `NormalizedToPixel(PixelToNormalized(px, py))` is `(px, py)` |
| `Transform3D.PixelCorners` | src/utils/transform3D.ts:90-93 | normalized (-1, 1) is pixel (0, 0), and normalized (1, -1) is pixel (width, height) |
| `Transform3D.PixelXIncreasing` | src/utils/transform3D.ts:91 | for a positive width, pixel x grows strictly with normalized x |
| `Transform3D.PixelYDecreasing` | src/utils/transform3D.ts:92 | for a positive height, pixel y shrinks strictly as normalized y grows (the y flip) |
| `ConfidenceChecker.MakeConfidenceChecker` | src/utils/confidenceChecker.ts:7-15 | `TireLikely` if and only if value ≥ 0.75; `MaybeATire` if and only if 0.5 ≤ value < 0.75; `ProbablyNotATire` if and only if value < 0.5 (both cut-offs belong to the higher verdict) |
| `ConfidenceChecker.ConfidenceCheckResult.Label` | src/utils/confidenceChecker.ts:1-5 | the verdict's enum string; each of "tire likely", "maybe a tire" and "probably not a tire" names exactly one verdict; partner: `LabelsDistinct` |
| `ConfidenceChecker.ClassificationMonotone` | src/utils/confidenceChecker.ts:7-15 | if a ≤ b, the verdict for a is no stronger than the verdict for b, in the order ProbablyNotATire < MaybeATire < TireLikely |
| `ConfidenceChecker.StrongerVerdictHigherConfidence` | src/utils/confidenceChecker.ts:7-15 | a strictly stronger verdict for b than for a implies a < b |
| `ConfidenceChecker.LabelsDistinct` | src/utils/confidenceChecker.ts:1-5 | different verdicts carry different label strings |

## Left out

- The wheel-well detector (`detectHorizontalLines`, `detectSemiCircles`, `detectWheelWells`) and its frame fixtures. `src/utils/geometry/wheelWellDetection` is not part of this model. Only its test file is available, and that does not fix the grid steps, gap tolerances or confidence formula.
- `applyWheelTransform` and `basisVectorsToEuler` (src/utils/transform3D.ts:8-25, 73-78). They mutate a Three.js `Object3D` or call Three.js's Euler extraction (trigonometry), which is a foreign library.
- `Matrix4` models only the `elements` array and the identity it starts with. The other Three.js matrix operations are not used by these helpers.
- Record fields the helpers never read are omitted: Euler angles, the 3×3 rotation matrix, rotation metadata, ellipse fits, car geometry, car id, and the car and wheel detections. `CarDetection` keeps only its two nullable wheel transforms.
- JavaScript truthiness (`||` and `if (transform)`) is modelled as the `Some`/`None` test. A transform is always an object, so it is truthy exactly when it is not null.
- IEEE-754 doubles: the conversions and the classifier are modelled over `real`. The round trips are exact over reals but not bit-exact in doubles. A `NaN` confidence falls through to "probably not a tire" in the source, and `real` has no value for it.
- Transform3D.PixelToNormalized: requires a nonzero width and height. In the source a zero size divides by zero and yields `Infinity`/`NaN`, which `real` cannot represent. The round-trip lemmas carry the same requirement.
- React components and hooks, canvas drawing, Three.js scene set-up, model loading, webcam capture, timers and zoom control are not part of this model. They are UI, rendering or device I/O.
