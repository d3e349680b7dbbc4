/**
 * The record shapes of the backend's car-detection response that the
 * transform helpers consume. Only the fields those helpers touch, or that
 * identify a wheel transform, are kept; the rest of each record is data the
 * helpers never read.
 */
module DetectionTypes {
  import opened Wrappers

  /** A fixed-length triple `[number, number, number]`. */
  datatype Vec3 = Vec3(x: real, y: real, z: real) {
    /** Component `i` of the triple, as the source's index `v[i]`. */
    function At(i: nat): real
      requires i < 3
    {
      if i == 0 then x else if i == 1 then y else z
    }
  }

  /** The three basis vectors of a wheel's local frame. */
  datatype BasisVectors = BasisVectors(xAxis: Vec3, yAxis: Vec3, zAxis: Vec3) {
    /** Axis `c` (0 = x, 1 = y, 2 = z), the vector that becomes matrix column `c`. */
    function Axis(c: nat): Vec3
      requires c < 3
    {
      if c == 0 then xAxis else if c == 1 then yAxis else zAxis
    }
  }

  /** Normalized position (x, y in [-1, 1]), estimated depth and pixel center. */
  datatype Position3D = Position3D(x: real, y: real, z: real, pixelX: real, pixelY: real)

  datatype Quaternion = Quaternion(x: real, y: real, z: real, w: real)

  /** The rotation representations the overlay uses: basis vectors and a quaternion. */
  datatype Rotation3D = Rotation3D(basisVectors: BasisVectors, quaternion: Quaternion)

  datatype Scale3D = Scale3D(uniform: real, radiusPixels: real)

  datatype BoundingBox = BoundingBox(x1: real, y1: real, x2: real, y2: real, width: real, height: real)

  /** A complete wheel placement: position, rotation, scale, box and confidence. */
  datatype WheelTransform = WheelTransform(
    position: Position3D,
    rotation: Rotation3D,
    scale: Scale3D,
    boundingBox: BoundingBox,
    confidence: real)

  /** One detected car, reduced to its two nullable wheel transforms. */
  datatype CarDetection = CarDetection(
    rearWheelTransform: Option<WheelTransform>,
    frontWheelTransform: Option<WheelTransform>)
}
