/** The 29-byte attribute block that follows a skeleton in a binary frame:
    age, 20 face attributes as percentages, the tracking id, the
    recognition flag and three head-pose angles. */
module PersonAttributesModel {
  import opened Wrappers
  import opened JsValues

  /** 1 age byte, 20 attribute bytes, 1 ttid byte, 1 recognition byte and
      three 2-byte angles. */
  function BytesLength(): (r: nat)
    ensures r == 1 + 20 + 1 + 1 + 3 * 2
  {
    29
  }

  /** `decodeHeadposeAngle`: a big-endian 16-bit number read as a fraction
      of a half turn, shifted to start at -90 degrees. */
  function DecodeHeadposeAngle(data: seq<Byte>, offset: nat): (r: real)
    requires offset + 1 < |data|
    ensures -90.0 <= r < 90.0
  {
    var n := data[offset] as int * 256 + data[offset + 1] as int;
    AngleRange(n);
    (n as real / 65536.0) * 180.0 - 90.0
  }

  lemma {:induction false} AngleRange(n: int)
    requires 0 <= n < 65536
    ensures -90.0 <= (n as real / 65536.0) * 180.0 - 90.0 < 90.0
  {
    var f := n as real / 65536.0;
    assert 0.0 <= f < 1.0;
    assert f * 180.0 < 180.0;
  }

  /** The `indices` table: attribute name and the byte that holds it. */
  const Indices: seq<(string, nat)> := [
    ("male", 1), ("bald", 2), ("black_hair", 3), ("blond_hair", 4),
    ("blurry", 5), ("brown_hair", 6), ("chubby", 7), ("double_chin", 8),
    ("eyeglasses", 9), ("goatee", 10), ("gray_hair", 11), ("mustache", 12),
    ("no_beard", 13), ("receding_hairline", 14), ("smiling", 15),
    ("wearing_earrings", 16), ("wearing_hat", 17), ("wearing_lipstick", 18),
    ("wearing_necklace", 19), ("wearing_necktie", 20)
  ]

  /** The table has 20 entries with distinct names and distinct bytes, all
      between the age byte (0) and the ttid and recognition bytes (21, 22). */
  lemma IndicesLayout()
    ensures |Indices| == 20
    ensures forall i :: 0 <= i < |Indices| ==> 1 <= Indices[i].1 <= 20
    ensures forall i, j :: 0 <= i < j < |Indices| ==> Indices[i].0 != Indices[j].0 && Indices[i].1 != Indices[j].1
  {
    forall i | 0 <= i < |Indices| ensures Indices[i].1 == i + 1 {
    }
  }

  /** One attribute byte: 127 is the server's "undefined", anything above
      100 is an invalid percentage and also undefined, otherwise the byte
      is a percentage turned into a fraction. */
  function Percentage(b: Byte): (r: Option<real>)
    ensures r.None? <==> b == 127 || b > 100
    ensures r.Some? ==> 0.0 <= r.value <= 1.0 && r.value * 100.0 == b as real
  {
    if b == 127 then None
    else if b > 100 then None
    else Some(b as real / 100.0)
  }

  /** The attributes of the first `n` table entries, assigned in table order. */
  function FacesUpTo(data: seq<Byte>, n: nat): map<string, Option<real>>
    requires |data| >= BytesLength() && n <= |Indices|
  {
    if n == 0 then map[]
    else FacesUpTo(data, n - 1)[Indices[n - 1].0 := Percentage(data[Indices[n - 1].1])]
  }

  /** After `n` assignments exactly the first `n` names are set, each to the
      percentage of its own byte. */
  lemma {:induction false} FacesUpToContents(data: seq<Byte>, n: nat)
    requires |data| >= BytesLength() && n <= |Indices|
    ensures forall k :: k in FacesUpTo(data, n) <==> exists j :: 0 <= j < n && Indices[j].0 == k
    ensures forall j :: 0 <= j < n ==> FacesUpTo(data, n)[Indices[j].0] == Percentage(data[Indices[j].1])
  {
    IndicesLayout();
    if n > 0 {
      FacesUpToContents(data, n - 1);
    }
  }

  datatype Headpose = Headpose(yaw: real, pitch: real, roll: real)

  /** The decoded field values of a block. */
  datatype Attributes = Attributes(
    age: Option<Byte>,
    ttid: Byte,
    isRecognized: bool,
    headpose: Headpose,
    faces: map<string, Option<real>>)

  /** What the constructor computes from a block that is long enough. */
  function Decode(data: seq<Byte>): Attributes
    requires |data| >= BytesLength()
  {
    Attributes(
      if data[0] == 127 then None else Some(data[0]),
      data[21],
      data[22] == 1,
      Headpose(DecodeHeadposeAngle(data, 23), DecodeHeadposeAngle(data, 25), DecodeHeadposeAngle(data, 27)),
      FacesUpTo(data, |Indices|))
  }

  /** The decoded values, field by field: age unless 127, ttid and the
      recognition flag from their bytes, the angles in [-90, 90), and every
      attribute name set to the percentage of its byte. */
  lemma {:induction false} DecodeFields(data: seq<Byte>)
    requires |data| >= BytesLength()
    ensures Decode(data).age == (if data[0] == 127 then None else Some(data[0]))
    ensures Decode(data).ttid == data[21]
    ensures Decode(data).isRecognized <==> data[22] == 1
    ensures -90.0 <= Decode(data).headpose.yaw < 90.0
    ensures -90.0 <= Decode(data).headpose.pitch < 90.0
    ensures -90.0 <= Decode(data).headpose.roll < 90.0
    ensures Decode(data).faces.Keys == set j | 0 <= j < |Indices| :: Indices[j].0
    ensures forall j :: 0 <= j < |Indices| ==>
              Decode(data).faces[Indices[j].0] == Percentage(data[Indices[j].1])
  {
    FacesUpToContents(data, |Indices|);
  }

  /** The attribute values depend only on the first 29 bytes: bytes beyond
      the block are accepted and ignored. */
  lemma {:induction false} DecodeIgnoresTail(data: seq<Byte>, tail: seq<Byte>)
    requires |data| >= BytesLength()
    ensures Decode(data + tail) == Decode(data)
  {
    var d := data + tail;
    assert forall i :: 0 <= i < |data| ==> d[i] == data[i];
    FacesUpToSamePrefix(data, d, |Indices|);
  }

  lemma {:induction false} FacesUpToSamePrefix(a: seq<Byte>, b: seq<Byte>, n: nat)
    requires |a| >= BytesLength() && |b| >= BytesLength() && n <= |Indices|
    requires a[..BytesLength()] == b[..BytesLength()]
    ensures FacesUpTo(a, n) == FacesUpTo(b, n)
  {
    if n > 0 {
      FacesUpToSamePrefix(a, b, n - 1);
      IndicesLayout();
      var i := Indices[n - 1].1;
      assert a[i] == a[..BytesLength()][i] && b[i] == b[..BytesLength()][i];
    }
  }

  /** `PersonAttributes`: the decoded fields and a private copy of the bytes. */
  class PersonAttributes {
    var age: Option<Byte>
    var ttid: Byte
    var isRecognized: bool
    var headpose: Headpose
    /** The twenty attribute properties, by name. */
    var faces: map<string, Option<real>>
    var data: seq<Byte>

    /** The fields are what the kept bytes decode to. */
    ghost predicate Valid()
      reads this
    {
      |data| >= BytesLength() && View() == Decode(data)
    }

    function View(): Attributes
      reads this
    {
      Attributes(age, ttid, isRecognized, headpose, faces)
    }

    /** The constructor on a block that is long enough. */
    constructor (bytes: seq<Byte>)
      requires |bytes| >= BytesLength()
      ensures Valid() && data == bytes
      ensures View() == Decode(bytes)
    {
      age := if bytes[0] == 127 then None else Some(bytes[0]);
      ttid := bytes[21];
      isRecognized := bytes[22] == 1;
      headpose := Headpose(DecodeHeadposeAngle(bytes, 23), DecodeHeadposeAngle(bytes, 25), DecodeHeadposeAngle(bytes, 27));
      faces := map[];
      data := bytes;
      new;
      var i := 0;
      while i < |Indices|
        invariant 0 <= i <= |Indices|
        invariant faces == FacesUpTo(bytes, i)
        invariant data == bytes && View() == Decode(bytes).(faces := faces)
      {
        var (name, index) := Indices[i];
        faces := faces[name := Percentage(bytes[index])];
        i := i + 1;
      }
    }

    /** `toJSON`: the bytes as a plain array. */
    function ToJson(): (r: seq<Byte>)
      reads this
      requires Valid()
      ensures r == data && |r| >= BytesLength()
    {
      data
    }

    /** `clone`: a new instance decoded from the same bytes. */
    method Clone() returns (c: PersonAttributes)
      requires Valid()
      ensures fresh(c) && c.Valid()
      ensures c.data == data && c.View() == View()
    {
      c := new PersonAttributes(data);
    }
  }

  /** `new PersonAttributes(data)`: throws unless the data is present and at
      least 29 bytes long. */
  method New(bytes: Option<seq<Byte>>) returns (r: Result<PersonAttributes>)
    ensures r.Success? <==> bytes.Some? && |bytes.value| >= BytesLength()
    ensures r.Failure? ==> r.error == SchemaViolation
    ensures r.Success? ==> fresh(r.value) && r.value.Valid() && r.value.data == bytes.value
    ensures r.Success? ==> r.value.View() == Decode(bytes.value)
  {
    if bytes.None? || |bytes.value| == 0 || |bytes.value| < BytesLength() {
      return Failure(SchemaViolation);
    }
    var a := new PersonAttributes(bytes.value);
    return Success(a);
  }
}
