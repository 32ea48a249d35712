/** The binary skeleton block of one person: a 4-byte canvas header followed
    by 18 joints, each holding five big-endian 16-bit values (2D y, 2D x and
    the quantised 3D u, v, z coordinates). */
module SkeletonModel {
  import opened Wrappers
  import opened JsValues

  /** Size of the block: 4 header bytes and 18 joints of 5 values of 2 bytes. */
  function BytesLength(): (r: nat)
    ensures r == 184
  {
    4 + 18 * 5 * 2
  }

  /** Number of joints in a block. */
  const JointCount: nat := 18

  /** The named joints of the `limbs` table. */
  datatype Limb =
    | Nose | Neck
    | LeftEye | RightEye
    | LeftEar | RightEar
    | LeftHip | RightHip
    | RightShoulder | RightElbow | RightHand
    | LeftShoulder | LeftElbow | LeftHand
  {
    /** The joint index the table assigns to the name. */
    function Index(): nat {
      match this
      case Nose => 0
      case Neck => 1
      case LeftEye => 15
      case RightEye => 14
      case LeftEar => 17
      case RightEar => 16
      case LeftHip => 11
      case RightHip => 8
      case RightShoulder => 2
      case RightElbow => 3
      case RightHand => 4
      case LeftShoulder => 5
      case LeftElbow => 6
      case LeftHand => 7
    }
  }

  /** Every name of the table denotes a joint of the block, and no two names
      denote the same joint. */
  lemma LimbIndices(a: Limb, b: Limb)
    ensures a.Index() < JointCount
    ensures a != b ==> a.Index() != b.Index()
  {
  }

  /** Where the `k`-th 16-bit value (0..4) of joint `idx` starts. */
  function Offset(idx: int, k: int): int {
    4 + 5 * 2 * idx + 2 * k
  }

  /** Every value of every joint, both of its bytes, lies inside the block. */
  lemma {:induction false} OffsetsInBlock(idx: int, k: int)
    requires 0 <= idx < JointCount && 0 <= k < 5
    ensures 0 <= Offset(idx, k) && Offset(idx, k) + 1 < BytesLength()
  {
  }

  /** The big-endian 16-bit number at `offset`, or `None` when the bytes lie
      outside the buffer (indexing a `Uint8Array` out of range gives
      `undefined` and the arithmetic gives NaN). */
  function Raw16(data: seq<Byte>, offset: int): (r: Option<nat>)
    ensures r.Some? <==> 0 <= offset && offset + 1 < |data|
    ensures r.Some? ==> r.value < 65536
  {
    if 0 <= offset && offset + 1 < |data| then
      Some(data[offset] as int * 256 + data[offset + 1] as int)
    else
      None
  }

  /** `decodeUint16`: 0 means "joint not detected" and gives `undefined`
      (`None`); a read past the buffer gives NaN. */
  function DecodeUint16(data: seq<Byte>, offset: int): (r: Option<JsNumber>)
    ensures r != Some(Infinity)
    ensures r.Some? && r.value.Finite? ==> 1.0 <= r.value.value <= 65535.0
  {
    match Raw16(data, offset)
    case None => Some(NaN)
    case Some(n) => if n == 0 then None else Some(Finite(n as real))
  }

  /** The two bytes that encode `v` big-endian. */
  function Encode16(v: nat): (r: seq<Byte>)
    requires v < 65536
    ensures |r| == 2
  {
    [v / 256, v % 256]
  }

  /** Decoding reads back what big-endian encoding wrote: a non-zero value
      is itself and zero is "not detected". */
  lemma {:induction false} DecodeEncode16(prefix: seq<Byte>, v: nat, suffix: seq<Byte>)
    requires v < 65536
    ensures DecodeUint16(prefix + Encode16(v) + suffix, |prefix|)
         == if v == 0 then None else Some(Finite(v as real))
  {
    var data := prefix + Encode16(v) + suffix;
    assert data[|prefix|] == v / 256 && data[|prefix| + 1] == v % 256;
  }

  /** A canvas dimension as decoded from the header: undefined or a positive
      number. */
  predicate Dimension(d: Option<JsNumber>) {
    d.None? || (d.value.Finite? && d.value.value >= 1.0)
  }

  /** `value / dim`, with `value` a decoded 16-bit number. Dividing by an
      undefined dimension gives NaN. */
  function Scale(value: JsNumber, dim: Option<JsNumber>): (r: JsNumber)
    requires value != Infinity && Dimension(dim)
    ensures r != Infinity
    ensures r.Finite? <==> value.Finite? && dim.Some?
  {
    match (value, dim)
    case (Finite(v), Some(Finite(d))) => Finite(v / d)
    case _ => NaN
  }

  /** `SkeletonBinaryDataProvider`: the data and the canvas size it decoded
      from the header. */
  datatype Provider = Provider(data: seq<Byte>, width: Option<JsNumber>, height: Option<JsNumber>) {

    /** What the constructor establishes. */
    ghost predicate Valid() {
      && |data| == BytesLength()
      && width == DecodeUint16(data, 0)
      && height == DecodeUint16(data, 2)
    }

    /** `limbY`: the value at offset 0 of the joint over the canvas height. */
    function LimbY(idx: int): (r: Option<JsNumber>)
      requires Valid()
      ensures r.None? <==> Raw16(data, Offset(idx, 0)) == Some(0)
      ensures r == Some(NaN) <==>
                Raw16(data, Offset(idx, 0)).None? || (Raw16(data, Offset(idx, 0)) != Some(0) && height.None?)
      ensures r.Some? && r.value.Finite? ==>
                && height.Some? && height.value.Finite? && Raw16(data, Offset(idx, 0)).Some?
                && r.value.value * height.value.value == Raw16(data, Offset(idx, 0)).value as real
    {
      ValidDimensions(this);
      match DecodeUint16(data, Offset(idx, 0))
      case None => None
      case Some(v) => Some(Scale(v, height))
    }

    /** `limbX`: the value at offset 2 of the joint over the canvas width. */
    function LimbX(idx: int): (r: Option<JsNumber>)
      requires Valid()
      ensures r.None? <==> Raw16(data, Offset(idx, 1)) == Some(0)
      ensures r == Some(NaN) <==>
                Raw16(data, Offset(idx, 1)).None? || (Raw16(data, Offset(idx, 1)) != Some(0) && width.None?)
      ensures r.Some? && r.value.Finite? ==>
                && width.Some? && width.value.Finite? && Raw16(data, Offset(idx, 1)).Some?
                && r.value.value * width.value.value == Raw16(data, Offset(idx, 1)).value as real
    {
      ValidDimensions(this);
      match DecodeUint16(data, Offset(idx, 1))
      case None => None
      case Some(v) => Some(Scale(v, width))
    }

    /** `limb3d`: the raw number mapped linearly onto `[lo, hi]` metres. */
    function Limb3d(offset: int, lo: real, hi: real): (r: JsNumber)
      requires lo <= hi
      ensures r != Infinity
      ensures r.Finite? <==> Raw16(data, offset).Some?
      ensures r.Finite? ==> lo <= r.value <= hi
      ensures Raw16(data, offset) == Some(0) ==> r == Finite(lo)
      ensures Raw16(data, offset) == Some(65535) ==> r == Finite(hi)
      ensures Raw16(data, offset).Some? ==>
                r.Finite? && (r.value - lo) * 65535.0 == Raw16(data, offset).value as real * (hi - lo)
    {
      match Raw16(data, offset)
      case None => NaN
      case Some(n) =>
        Dequantise(n, lo, hi);
        Finite(Linear(n, lo, hi))
    }

    /** `limbU`: 3D x coordinate, encoded over -20 m to 20 m. */
    function LimbU(idx: int): (r: JsNumber)
      ensures r.Finite? ==> -20.0 <= r.value <= 20.0
      ensures r.Finite? <==> Raw16(data, Offset(idx, 2)).Some?
      ensures Raw16(data, Offset(idx, 2)).Some? ==>
                r.Finite? && (r.value + 20.0) * 65535.0 == Raw16(data, Offset(idx, 2)).value as real * 40.0
    {
      Limb3d(Offset(idx, 2), -20.0, 20.0)
    }

    /** `limbV`: 3D y coordinate, encoded over -10 m to 10 m. */
    function LimbV(idx: int): (r: JsNumber)
      ensures r.Finite? ==> -10.0 <= r.value <= 10.0
      ensures r.Finite? <==> Raw16(data, Offset(idx, 3)).Some?
      ensures Raw16(data, Offset(idx, 3)).Some? ==>
                r.Finite? && (r.value + 10.0) * 65535.0 == Raw16(data, Offset(idx, 3)).value as real * 20.0
    {
      Limb3d(Offset(idx, 3), -10.0, 10.0)
    }

    /** `limbZ`: 3D z coordinate (depth), encoded over 0 m to 20 m. */
    function LimbZ(idx: int): (r: JsNumber)
      ensures r.Finite? ==> 0.0 <= r.value <= 20.0
      ensures r.Finite? <==> Raw16(data, Offset(idx, 4)).Some?
      ensures Raw16(data, Offset(idx, 4)).Some? ==>
                r.Finite? && r.value * 65535.0 == Raw16(data, Offset(idx, 4)).value as real * 20.0
    {
      Limb3d(Offset(idx, 4), 0.0, 20.0)
    }
  }

  /** `(num * (max - min)) / (256 * 256 - 1) + min`. */
  function Linear(n: nat, lo: real, hi: real): real {
    n as real * (hi - lo) / 65535.0 + lo
  }

  /** `Linear(n, lo, hi)` stays within `[lo, hi]`, and is the point whose
      distance from `lo` is the fraction n / 65535 of the range. */
  lemma {:induction false} Dequantise(n: nat, lo: real, hi: real)
    requires n < 65536 && lo <= hi
    ensures lo <= Linear(n, lo, hi) <= hi
    ensures (Linear(n, lo, hi) - lo) * 65535.0 == n as real * (hi - lo)
  {
    var f := n as real / 65535.0;
    var d := hi - lo;
    assert 0.0 <= f <= 1.0;
    assert n as real * d / 65535.0 == f * d;
    NonNegativeProduct(f, d);
    NonNegativeProduct(1.0 - f, d);
    assert f * d + (1.0 - f) * d == d;
  }

  lemma {:induction false} NonNegativeProduct(a: real, b: real)
    requires a >= 0.0 && b >= 0.0
    ensures a * b >= 0.0
  {
  }

  /** The provider constructor: the data must be present, non-empty and
      exactly `BytesLength()` bytes long; otherwise it throws. */
  function NewProvider(data: Option<seq<Byte>>): (r: Result<Provider>)
    ensures r.Success? <==> data.Some? && |data.value| == BytesLength()
    ensures r.Failure? ==> r.error == SchemaViolation
    ensures r.Success? ==> r.value.Valid() && r.value.data == data.value
  {
    if data.None? || |data.value| == 0 || |data.value| != BytesLength() then
      Failure(SchemaViolation)
    else
      Success(Provider(data.value, DecodeUint16(data.value, 0), DecodeUint16(data.value, 2)))
  }

  /** The canvas dimensions of a constructed provider are undefined or at
      least 1, so the 2D divisions are well defined. */
  lemma {:induction false} ValidDimensions(p: Provider)
    requires p.Valid()
    ensures Dimension(p.width) && Dimension(p.height)
  {
    assert Raw16(p.data, 0).Some? && Raw16(p.data, 2).Some?;
  }

  /** Inside the block (joint 0..17) nothing decodes to NaN except a 2D
      value over an undefined canvas dimension, and every 3D value is a
      number in its range. */
  lemma {:induction false} JointValues(p: Provider, idx: int)
    requires p.Valid() && 0 <= idx < JointCount
    ensures p.LimbX(idx).Some? && p.width.Some? ==> p.LimbX(idx).value.Finite?
    ensures p.LimbY(idx).Some? && p.height.Some? ==> p.LimbY(idx).value.Finite?
    ensures p.LimbU(idx).Finite? && p.LimbV(idx).Finite? && p.LimbZ(idx).Finite?
  {
    OffsetsInBlock(idx, 0);
    OffsetsInBlock(idx, 1);
    OffsetsInBlock(idx, 2);
    OffsetsInBlock(idx, 3);
    OffsetsInBlock(idx, 4);
  }

  /** A point as returned by `position`. */
  datatype Point = Point(x: JsNumber, y: JsNumber, z: JsNumber)

  /** `Skeleton`: a provider together with the local timestamp. */
  datatype Skeleton = Skeleton(provider: Provider, localTimestamp: real) {

    ghost predicate Valid() {
      provider.Valid()
    }

    /** `hasLimb`: both 2D coordinates are defined (NaN counts as defined,
        since `NaN != undefined`). */
    predicate HasLimb(idx: int)
      requires Valid()
    {
      provider.LimbX(idx).Some? && provider.LimbY(idx).Some?
    }

    /** `position`: undefined when a 2D coordinate is undefined, otherwise
        the 2D x, y and the 3D depth. */
    function Position(idx: int): (r: Option<Point>)
      requires Valid()
      ensures r.None? <==> !HasLimb(idx)
      ensures r.Some? ==> r.value == Point(provider.LimbX(idx).value, provider.LimbY(idx).value, provider.LimbZ(idx))
    {
      match (provider.LimbX(idx), provider.LimbY(idx))
      case (Some(x), Some(y)) => Some(Point(x, y, provider.LimbZ(idx)))
      case _ => None
    }

    /** The named getters (`nose`, `rightHand`, `hasNeck`, ...) are
        `position` and `hasLimb` on the table's index. */
    function Joint(l: Limb): (r: Option<Point>)
      requires Valid()
      ensures r.None? <==> !HasLimb(l.Index())
      ensures r == Position(l.Index())
    {
      Position(l.Index())
    }

    /** `clone`: the same provider and timestamp. */
    function Clone(): (r: Skeleton)
      ensures r.provider == provider && r.localTimestamp == localTimestamp
    {
      Skeleton(provider, localTimestamp)
    }
  }

  /** A joint is present exactly when both of its 2D raw values are non-zero
      (reads inside the block never yield `undefined` otherwise). */
  lemma {:induction false} HasLimbIffNonZero(s: Skeleton, idx: int)
    requires s.Valid() && 0 <= idx < JointCount
    ensures s.HasLimb(idx) <==>
              s.provider.data[Offset(idx, 0)] as int * 256 + s.provider.data[Offset(idx, 0) + 1] as int != 0
              && s.provider.data[Offset(idx, 1)] as int * 256 + s.provider.data[Offset(idx, 1) + 1] as int != 0
  {
    OffsetsInBlock(idx, 0);
    OffsetsInBlock(idx, 1);
  }
}
