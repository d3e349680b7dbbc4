/**
 * The wheel-transform and coordinate helpers used when placing the wheel
 * overlay: choosing a detection's primary wheel, flattening all detections'
 * wheels into one list, laying basis vectors into a column-major 4x4 matrix,
 * and converting between normalized device coordinates and pixels.
 */
module Transform3D {
  import opened Wrappers
  import opened DetectionTypes

  // ---------------------------------------------------------------------------
  // Choosing and collecting wheel transforms
  // ---------------------------------------------------------------------------

  /** `t` is one of the (non-null) wheel transforms carried by `detection`. */
  predicate Carries(detection: CarDetection, t: WheelTransform)
  {
    detection.rearWheelTransform == Some(t) || detection.frontWheelTransform == Some(t)
  }

  /**
   * The wheel the overlay is anchored to: the rear wheel when the detection
   * has one, otherwise the front wheel (absent when both are).
   */
  function PrimaryWheelTransform(detection: CarDetection): (r: Option<WheelTransform>)
    ensures detection.rearWheelTransform.Some? ==> r == detection.rearWheelTransform
    ensures r.Some? ==> Carries(detection, r.value)
    ensures r.None? <==> detection.rearWheelTransform.None? && detection.frontWheelTransform.None?
  {
    if detection.rearWheelTransform.Some? then detection.rearWheelTransform
    else detection.frontWheelTransform
  }

  /** The transforms one detection contributes to the flattened list: rear, then front. */
  function WheelTransformsOf(detection: CarDetection): seq<WheelTransform>
  {
    detection.rearWheelTransform.ToSeq() + detection.frontWheelTransform.ToSeq()
  }

  /** The flattened list of every detection's wheel transforms, in detection order. */
  function Flattened(detections: seq<CarDetection>): seq<WheelTransform>
  {
    if detections == [] then [] else WheelTransformsOf(detections[0]) + Flattened(detections[1..])
  }

  /** How many rear and front wheel-transform fields of `detections` are non-null. */
  function PresentCount(detections: seq<CarDetection>): nat
  {
    if detections == [] then 0
    else
      (if detections[0].rearWheelTransform.Some? then 1 else 0)
      + (if detections[0].frontWheelTransform.Some? then 1 else 0)
      + PresentCount(detections[1..])
  }

  /**
   * Collects all wheel transforms of all detections into one list, visiting
   * the detections in order and pushing the rear transform before the front
   * one, skipping null fields.
   */
  method AllWheelTransforms(detections: seq<CarDetection>) returns (transforms: seq<WheelTransform>)
    ensures transforms == Flattened(detections)
    ensures |transforms| == PresentCount(detections)
    ensures detections == [] ==> transforms == []
  {
    transforms := [];
    for i := 0 to |detections|
      invariant transforms == Flattened(detections[..i])
    {
      var detection := detections[i];
      if detection.rearWheelTransform.Some? {
        transforms := transforms + [detection.rearWheelTransform.value];
      }
      if detection.frontWheelTransform.Some? {
        transforms := transforms + [detection.frontWheelTransform.value];
      }
      assert detections[..i + 1] == detections[..i] + [detection];
      FlattenedAppend(detections[..i], [detection]);
      FlattenedSingle(detection);
    }
    assert detections[..|detections|] == detections;
    FlattenedLength(detections);
  }

  /** A single detection flattens to its own rear-then-front transforms. */
  lemma FlattenedSingle(detection: CarDetection)
    ensures Flattened([detection]) == WheelTransformsOf(detection)
  {
    assert [detection][1..] == [];
  }

  /** Flattening distributes over concatenation. */
  lemma {:induction false} FlattenedAppend(a: seq<CarDetection>, b: seq<CarDetection>)
    ensures Flattened(a + b) == Flattened(a) + Flattened(b)
  {
    if a == [] {
      assert a + b == b;
    } else {
      assert (a + b)[0] == a[0];
      assert (a + b)[1..] == a[1..] + b;
      FlattenedAppend(a[1..], b);
    }
  }

  /** The flattened list has one entry per non-null rear or front field. */
  lemma {:induction false} FlattenedLength(detections: seq<CarDetection>)
    ensures |Flattened(detections)| == PresentCount(detections)
  {
    if detections != [] {
      FlattenedLength(detections[1..]);
    }
  }

  /** A detection's own contribution holds exactly the transforms it carries. */
  lemma ContributionCarries(detection: CarDetection, t: WheelTransform)
    ensures t in WheelTransformsOf(detection) <==> Carries(detection, t)
  {
    var rear, front := detection.rearWheelTransform.ToSeq(), detection.frontWheelTransform.ToSeq();
    assert t in rear + front <==> t in rear || t in front;
  }

  /** A transform is in the flattened list exactly when some detection carries it. */
  lemma {:induction false} FlattenedMembership(detections: seq<CarDetection>, t: WheelTransform)
    ensures t in Flattened(detections) <==> exists i :: 0 <= i < |detections| && Carries(detections[i], t)
  {
    if detections != [] {
      var d, rest := detections[0], detections[1..];
      FlattenedMembership(rest, t);
      ContributionCarries(d, t);
      assert Flattened(detections) == WheelTransformsOf(d) + Flattened(rest);
      assert t in Flattened(detections) <==> t in WheelTransformsOf(d) || t in Flattened(rest);
      if t in Flattened(detections) {
        if !Carries(d, t) {
          var j :| 0 <= j < |rest| && Carries(rest[j], t);
          assert detections[j + 1] == rest[j];
        }
      } else {
        forall i | 0 <= i < |detections|
          ensures !Carries(detections[i], t)
        {
          if i > 0 {
            assert rest[i - 1] == detections[i];
          }
        }
      }
    }
  }

  /**
   * Detection `i`'s transforms sit contiguously in the flattened list, right
   * after those of the detections before it, the rear one first.
   */
  lemma FlattenedPosition(detections: seq<CarDetection>, i: nat)
    requires i < |detections|
    ensures var k := |Flattened(detections[..i])|;
      var d := detections[i];
      && k + |WheelTransformsOf(d)| <= |Flattened(detections)|
      && Flattened(detections)[k..k + |WheelTransformsOf(d)|] == WheelTransformsOf(d)
      && (d.rearWheelTransform.Some? ==> Flattened(detections)[k] == d.rearWheelTransform.value)
      && (d.frontWheelTransform.Some? ==>
            Flattened(detections)[k + |d.rearWheelTransform.ToSeq()|] == d.frontWheelTransform.value)
  {
    var d := detections[i];
    assert detections == (detections[..i] + [d]) + detections[i + 1..];
    FlattenedAppend(detections[..i] + [d], detections[i + 1..]);
    FlattenedAppend(detections[..i], [d]);
    FlattenedSingle(d);
  }

  /**
   * Detection order is kept: everything detection `i` contributes comes
   * before anything a later detection `j` contributes.
   */
  lemma FlattenedBlocksOrdered(detections: seq<CarDetection>, i: nat, j: nat)
    requires i < j <= |detections|
    ensures |Flattened(detections[..i])| + |WheelTransformsOf(detections[i])| <= |Flattened(detections[..j])|
  {
    var d := detections[i];
    assert detections[..j] == (detections[..i] + [d]) + detections[i + 1..j];
    FlattenedAppend(detections[..i] + [d], detections[i + 1..j]);
    FlattenedAppend(detections[..i], [d]);
    FlattenedSingle(d);
  }

  /** The first flattened transform of a detection list is its first detection's primary wheel. */
  lemma FirstTransformIsPrimary(detections: seq<CarDetection>)
    requires detections != []
    ensures Flattened([detections[0]]) == [] <==> PrimaryWheelTransform(detections[0]).None?
    ensures PrimaryWheelTransform(detections[0]).Some? ==>
      Flattened(detections) != [] && Flattened(detections)[0] == PrimaryWheelTransform(detections[0]).value
  {
    FlattenedSingle(detections[0]);
  }

  // ---------------------------------------------------------------------------
  // Basis vectors as a column-major 4x4 matrix
  // ---------------------------------------------------------------------------

  /** Entry (row, col) of a 4x4 matrix stored column-major in 16 slots. */
  function Entry(elements: seq<real>, row: nat, col: nat): real
    requires |elements| == 16 && row < 4 && col < 4
  {
    elements[4 * col + row]
  }

  /** The 16 slots of the 4x4 identity matrix. */
  function IdentityElements(): (e: seq<real>)
    ensures |e| == 16
    ensures forall row: nat, col: nat :: row < 4 && col < 4 ==> Entry(e, row, col) == if row == col then 1.0 else 0.0
  {
    seq(16, i => if i / 4 == i % 4 then 1.0 else 0.0)
  }

  /** A 4x4 matrix whose 16 elements are kept column-major, initially the identity. */
  class Matrix4 {
    var elements: array<real>

    constructor ()
      ensures fresh(elements)
      ensures elements[..] == IdentityElements()
    {
      elements := new real[16](i requires 0 <= i < 16 => IdentityElements()[i]);
    }
  }

  /**
   * Helper for BasisVectorsToMatrix4: reads the 16 written slots back as
   * entries (row, col) of the column-major matrix.
   */
  lemma ColumnMajorLayout(basis: BasisVectors, e: seq<real>)
    requires |e| == 16
    requires e[0] == basis.xAxis.x && e[1] == basis.xAxis.y && e[2] == basis.xAxis.z
    requires e[4] == basis.yAxis.x && e[5] == basis.yAxis.y && e[6] == basis.yAxis.z
    requires e[8] == basis.zAxis.x && e[9] == basis.zAxis.y && e[10] == basis.zAxis.z
    requires e[3] == IdentityElements()[3] && e[7] == IdentityElements()[7] && e[11] == IdentityElements()[11]
    requires e[12] == 0.0 && e[13] == 0.0 && e[14] == 0.0 && e[15] == 1.0
    ensures forall row: nat, col: nat :: row < 3 && col < 3 ==> Entry(e, row, col) == basis.Axis(col).At(row)
    ensures forall col: nat :: col < 3 ==> Entry(e, 3, col) == Entry(IdentityElements(), 3, col)
    ensures forall row: nat :: row < 4 ==> Entry(e, row, 3) == if row == 3 then 1.0 else 0.0
  {
  }

  /**
   * Writes the basis vectors into a fresh identity matrix as its first three
   * columns and sets the translation column to (0, 0, 0, 1); the bottom row
   * of the first three columns is never written and keeps the identity's value.
   */
  method BasisVectorsToMatrix4(basis: BasisVectors) returns (matrix: Matrix4)
    ensures fresh(matrix) && fresh(matrix.elements)
    ensures matrix.elements.Length == 16
    ensures forall row: nat, col: nat :: row < 3 && col < 3 ==>
      Entry(matrix.elements[..], row, col) == basis.Axis(col).At(row)
    ensures forall col: nat :: col < 3 ==>
      Entry(matrix.elements[..], 3, col) == Entry(IdentityElements(), 3, col)
    ensures forall row: nat :: row < 4 ==>
      Entry(matrix.elements[..], row, 3) == if row == 3 then 1.0 else 0.0
  {
    matrix := new Matrix4();
    var elements := matrix.elements;

    // Column 0: x axis
    elements[0] := basis.xAxis.x;
    elements[1] := basis.xAxis.y;
    elements[2] := basis.xAxis.z;

    // Column 1: y axis
    elements[4] := basis.yAxis.x;
    elements[5] := basis.yAxis.y;
    elements[6] := basis.yAxis.z;

    // Column 2: z axis
    elements[8] := basis.zAxis.x;
    elements[9] := basis.zAxis.y;
    elements[10] := basis.zAxis.z;

    // Column 3: translation (0, 0, 0, 1)
    elements[12] := 0.0;
    elements[13] := 0.0;
    elements[14] := 0.0;
    elements[15] := 1.0;

    ColumnMajorLayout(basis, matrix.elements[..]);
  }

  // ---------------------------------------------------------------------------
  // Normalized device coordinates <-> pixels
  // ---------------------------------------------------------------------------

  datatype Point2 = Point2(x: real, y: real)

  /** Scaling by a positive factor keeps strict order. */
  lemma ScalePreservesOrder(a: real, b: real, w: real)
    requires w > 0.0 && a < b
    ensures a * w < b * w
  {
    assert b * w - a * w == (b - a) * w;
  }

  /** For a positive `w`, `a * w` lies in [0, w] exactly when `a` lies in [0, 1]. */
  lemma ScaleWithinUnit(a: real, w: real)
    requires w > 0.0
    ensures 0.0 <= a * w <= w <==> 0.0 <= a <= 1.0
  {
    if a < 0.0 {
      ScalePreservesOrder(a, 0.0, w);
    } else if a > 1.0 {
      ScalePreservesOrder(1.0, a, w);
    } else {
      if a > 0.0 { ScalePreservesOrder(0.0, a, w); }
      if a < 1.0 { ScalePreservesOrder(a, 1.0, w); }
    }
  }

  /**
   * Maps normalized coordinates ([-1, 1], y up) to pixel coordinates
   * ([0, width] x [0, height], y down).
   */
  function NormalizedToPixel(x: real, y: real, imageWidth: real, imageHeight: real): (p: Point2)
    ensures x == -1.0 ==> p.x == 0.0
    ensures x == 1.0 ==> p.x == imageWidth
    ensures y == 1.0 ==> p.y == 0.0
    ensures y == -1.0 ==> p.y == imageHeight
  {
    Point2(((x + 1.0) / 2.0) * imageWidth, ((1.0 - y) / 2.0) * imageHeight)
  }

  /** Maps pixel coordinates (y down) back to normalized coordinates (y up). */
  function PixelToNormalized(pixelX: real, pixelY: real, imageWidth: real, imageHeight: real): (n: Point2)
    requires imageWidth != 0.0 && imageHeight != 0.0
    ensures pixelX == 0.0 ==> n.x == -1.0
    ensures pixelX == imageWidth ==> n.x == 1.0
    ensures pixelY == 0.0 ==> n.y == 1.0
    ensures pixelY == imageHeight ==> n.y == -1.0
  {
    assert imageWidth / imageWidth == 1.0 && imageHeight / imageHeight == 1.0;
    Point2((pixelX / imageWidth) * 2.0 - 1.0, 1.0 - (pixelY / imageHeight) * 2.0)
  }

  /** With a positive width, normalized x in [-1, 1] is exactly pixel x in [0, width]. */
  lemma PixelXRange(x: real, y: real, imageWidth: real, imageHeight: real)
    requires imageWidth > 0.0
    ensures 0.0 <= NormalizedToPixel(x, y, imageWidth, imageHeight).x <= imageWidth <==> -1.0 <= x <= 1.0
  {
    var a := (x + 1.0) / 2.0;
    ScaleWithinUnit(a, imageWidth);
    assert NormalizedToPixel(x, y, imageWidth, imageHeight).x == a * imageWidth;
    assert 0.0 <= a <= 1.0 <==> -1.0 <= x <= 1.0;
  }

  /** With a positive height, normalized y in [-1, 1] is exactly pixel y in [0, height]. */
  lemma PixelYRange(x: real, y: real, imageWidth: real, imageHeight: real)
    requires imageHeight > 0.0
    ensures 0.0 <= NormalizedToPixel(x, y, imageWidth, imageHeight).y <= imageHeight <==> -1.0 <= y <= 1.0
  {
    var b := (1.0 - y) / 2.0;
    ScaleWithinUnit(b, imageHeight);
    assert NormalizedToPixel(x, y, imageWidth, imageHeight).y == b * imageHeight;
    assert 0.0 <= b <= 1.0 <==> -1.0 <= y <= 1.0;
  }

  /** Converting to pixels and back gives the original normalized point. */
  lemma NormalizedRoundTrip(x: real, y: real, imageWidth: real, imageHeight: real)
    requires imageWidth != 0.0 && imageHeight != 0.0
    ensures var p := NormalizedToPixel(x, y, imageWidth, imageHeight);
      PixelToNormalized(p.x, p.y, imageWidth, imageHeight) == Point2(x, y)
  {
  }

  /** Converting to normalized coordinates and back gives the original pixel. */
  lemma PixelRoundTrip(pixelX: real, pixelY: real, imageWidth: real, imageHeight: real)
    requires imageWidth != 0.0 && imageHeight != 0.0
    ensures var n := PixelToNormalized(pixelX, pixelY, imageWidth, imageHeight);
      NormalizedToPixel(n.x, n.y, imageWidth, imageHeight) == Point2(pixelX, pixelY)
  {
  }

  /** The top-left normalized corner (-1, 1) is pixel (0, 0); the bottom-right (1, -1) is (width, height). */
  lemma PixelCorners(imageWidth: real, imageHeight: real)
    ensures NormalizedToPixel(-1.0, 1.0, imageWidth, imageHeight) == Point2(0.0, 0.0)
    ensures NormalizedToPixel(1.0, -1.0, imageWidth, imageHeight) == Point2(imageWidth, imageHeight)
  {
  }

  /** Pixel x grows strictly with normalized x. */
  lemma PixelXIncreasing(x1: real, x2: real, y: real, imageWidth: real, imageHeight: real)
    requires imageWidth > 0.0 && x1 < x2
    ensures NormalizedToPixel(x1, y, imageWidth, imageHeight).x < NormalizedToPixel(x2, y, imageWidth, imageHeight).x
  {
    var a, b := (x1 + 1.0) / 2.0, (x2 + 1.0) / 2.0;
    ScalePreservesOrder(a, b, imageWidth);
  }

  /** Pixel y shrinks strictly as normalized y grows: the y axis is flipped. */
  lemma PixelYDecreasing(x: real, y1: real, y2: real, imageWidth: real, imageHeight: real)
    requires imageHeight > 0.0 && y1 < y2
    ensures NormalizedToPixel(x, y1, imageWidth, imageHeight).y > NormalizedToPixel(x, y2, imageWidth, imageHeight).y
  {
    var a, b := (1.0 - y2) / 2.0, (1.0 - y1) / 2.0;
    ScalePreservesOrder(a, b, imageHeight);
  }
}
