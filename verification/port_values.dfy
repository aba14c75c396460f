/** The typed value carried by a port (portdata.h).

    The repository's files come from different revisions: nodeconstructors.cpp
    stores `PortDataInt` and `PortDataUInt` values that portdata.h does not
    declare. This module reconciles them into one closed union of ten
    alternatives. Float components are modelled as mathematical reals and
    matrices as opaque payloads. */
module PortValues {

  newtype Int32 = x: int | -0x8000_0000 <= x < 0x8000_0000
  newtype UInt32 = x: int | 0 <= x < 0x1_0000_0000

  /** The tagged payload (`PortDataVar`, extended with Int and UInt). */
  datatype Data =
    | Empty
    | Float(f: real)
    | Int(i: Int32)
    | UInt(u: UInt32)
    | Vec2(x: real, y: real)
    | Vec3(x: real, y: real, z: real)
    | Vec4(x: real, y: real, z: real, w: real)
    | Mat3(m: seq<real>, editAsRowMajor: bool)
    | Mat4(m: seq<real>, editAsRowMajor: bool)
    | Str(s: string)

  /** The runtime tag of a payload, used by the dispatch signatures. */
  datatype Shape = SEmpty | SFloat | SInt | SUInt | SVec2 | SVec3 | SVec4 | SMat3 | SMat4 | SStr

  function ShapeOf(d: Data): Shape
  {
    match d
    case Empty => SEmpty
    case Float(_) => SFloat
    case Int(_) => SInt
    case UInt(_) => SUInt
    case Vec2(_, _) => SVec2
    case Vec3(_, _, _) => SVec3
    case Vec4(_, _, _, _) => SVec4
    case Mat3(_, _) => SMat3
    case Mat4(_, _) => SMat4
    case Str(_) => SStr
  }

  /** A port value: a payload plus a diagnostic description. */
  datatype PortData = PortData(d: Data, desc: string)

  /** `PortData { }`: what the evaluator pushes for under-connected nodes and
      failed dispatch. */
  function Default(): (r: PortData)
    ensures r.d.Empty? && r.desc == []
  {
    PortData(Empty, "")
  }

  function NotEnoughArgs(): (r: PortData)
    ensures r.d.Empty? && r.desc == "Not enough arguments"
  {
    PortData(Empty, "Not enough arguments")
  }

  function InvalidArgs(): (r: PortData)
    ensures r.d.Empty? && r.desc == "Invalid arguments"
  {
    PortData(Empty, "Invalid arguments")
  }

  /** The two sentinels share the Empty tag, differ only in their description,
      and neither is the default value. */
  lemma SentinelsDistinct()
    ensures NotEnoughArgs().d == InvalidArgs().d == Default().d
    ensures NotEnoughArgs() != InvalidArgs()
    ensures NotEnoughArgs() != Default() && InvalidArgs() != Default()
  {
    assert NotEnoughArgs().desc[0] == 'N';
    assert InvalidArgs().desc[0] == 'I';
  }

  /** The tag function separates the ten alternatives: two payloads with the
      same shape are built by the same constructor. */
  lemma ShapeDeterminesConstructor(a: Data, b: Data)
    requires ShapeOf(a) == ShapeOf(b)
    ensures a.Empty? <==> b.Empty?
    ensures a.Float? <==> b.Float?
    ensures a.Int? <==> b.Int?
    ensures a.UInt? <==> b.UInt?
    ensures a.Vec2? <==> b.Vec2?
    ensures a.Vec3? <==> b.Vec3?
    ensures a.Vec4? <==> b.Vec4?
    ensures a.Mat3? <==> b.Mat3?
    ensures a.Mat4? <==> b.Mat4?
    ensures a.Str? <==> b.Str?
  {
  }
}
