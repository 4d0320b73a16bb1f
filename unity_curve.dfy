/** ANIMCurve and ANIMKeyFrame of the Unity .anim exporter, at the one
    instantiation the exporter uses: curves of Vector3 keyframes. Floats
    are reals here; the quotient that gives a slope is a parameter, as
    single-precision division (with its infinities) is not modelled. */
module UnityCurve {

  datatype Vector3 = Vector3(x: real, y: real, z: real)

  /** default(Vector3), the slopes of a keyframe made from a time and a value. */
  const Zero := Vector3(0.0, 0.0, 0.0)

  function Sub(a: Vector3, b: Vector3): Vector3
  {
    Vector3(a.x - b.x, a.y - b.y, a.z - b.z)
  }

  /** A vector divided by a float, with div the float division. */
  function Quot(v: Vector3, t: real, div: (real, real) -> real): Vector3
  {
    Vector3(div(v.x, t), div(v.y, t), div(v.z, t))
  }

  /** ANIMKeyFrame: a time, a value and the in and out slopes. */
  datatype KeyFrame = KeyFrame(time: real, value: Vector3, inSlope: Vector3, outSlope: Vector3)

  class ANIMCurve {
    var attribute: string
    var path: string
    var keyFrames: seq<KeyFrame>

    /** new ANIMCurve(path, attribute): no keyframes yet. The exporter always
        passes the default attribute "". */
    constructor (path: string, attribute: string)
      ensures this.path == path && this.attribute == attribute && keyFrames == []
    {
      this.path := path;
      this.attribute := attribute;
      keyFrames := [];
    }

    /** Add(ANIMKeyFrame): appends the keyframe. */
    method AddKeyFrame(keyFrame: KeyFrame)
      modifies this
      ensures keyFrames == old(keyFrames) + [keyFrame]
      ensures path == old(path) && attribute == old(attribute)
    {
      keyFrames := keyFrames + [keyFrame];
    }

    /** Add(time, value): appends a keyframe with default slopes. */
    method Add(time: real, value: Vector3)
      modifies this
      ensures keyFrames == old(keyFrames) + [KeyFrame(time, value, Zero, Zero)]
      ensures path == old(path) && attribute == old(attribute)
    {
      keyFrames := keyFrames + [KeyFrame(time, value, Zero, Zero)];
    }
  }
}
