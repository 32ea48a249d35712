/** `SkeletonMessage`: a binary frame `[count_hi, count_lo, person, ...]`
    whose length is checked against the number of persons it announces. */
module SkeletonMessages {
  import opened Wrappers
  import opened JsValues
  import SkeletonModel
  import PersonAttributesModel

  /** What the `data` property of a binary event holds. */
  datatype Payload = Bytes(bytes: seq<Byte>) | NotBytes

  /** A binary message event; `data` may be missing. */
  datatype BinaryMessageEvent = BinaryMessageEvent(data: Option<Payload>)

  /** Bytes per person: a skeleton block and an attribute block. */
  function PersonBytes(): (r: nat)
    ensures r == 213
  {
    SkeletonModel.BytesLength() + PersonAttributesModel.BytesLength()
  }

  /** The big-endian count in the first two bytes. */
  function Header(b: seq<Byte>): nat
    requires |b| >= 2
  {
    b[0] as int * 256 + b[1] as int
  }

  /** `data[0] * 256 + data[1]`: NaN when the buffer has fewer than two bytes. */
  function PersonsCount(data: seq<Byte>): (r: JsNumber)
    ensures r.Finite? <==> |data| >= 2
    ensures r.Finite? ==> r.value == Header(data) as real
    ensures r != Infinity
  {
    if |data| >= 2 then Finite(Header(data) as real) else NaN
  }

  /** `(data.length - 2) / personsCount` in JavaScript arithmetic: a positive
      payload over a zero count is Infinity, an empty one NaN. */
  function PersonLength(len: nat, count: JsNumber): (r: JsNumber)
    requires count != Infinity
    ensures count.Finite? && count.value > 0.0 ==> r == Finite((len as real - 2.0) / count.value)
    ensures count.NaN? ==> r.NaN?
  {
    match count
    case NaN => NaN
    case Finite(c) =>
      if c != 0.0 then Finite((len as real - 2.0) / c)
      else if len > 2 then Infinity
      else NaN
  }

  /** `validate`: the event must have a byte array as `data`; a positive count
      must leave at least 213 bytes per person. Fewer than two bytes give a
      NaN count, which passes. */
  function Validate(e: BinaryMessageEvent): (r: Result<seq<Byte>>)
    ensures r.Success? <==>
              && e.data.Some? && e.data.value.Bytes?
              && var b := e.data.value.bytes;
                 !(|b| >= 2 && Header(b) > 0 && |b| - 2 < PersonBytes() * Header(b))
    ensures r.Success? ==> r.value == e.data.value.bytes
    ensures r.Failure? ==> r.error == SchemaViolation
  {
    if e.data.None? || !e.data.value.Bytes? then Failure(SchemaViolation)
    else
      var data := e.data.value.bytes;
      var count := PersonsCount(data);
      var personLength := if count == Finite(0.0) then Finite(0.0) else PersonLength(|data|, count);
      LengthRule(|data|, count);
      if count.Finite? && count.value > 0.0 && personLength.Finite? && personLength.value < PersonBytes() as real then
        Failure(SchemaViolation)
      else
        Success(data)
  }

  /** For a positive count the per-person length is a finite number below
      213 exactly when the frame is short of `213 * count + 2` bytes. */
  lemma {:induction false} LengthRule(len: nat, count: JsNumber)
    requires count != Infinity
    ensures count.Finite? && count.value > 0.0 ==>
              ((len as real - 2.0) / count.value < PersonBytes() as real
               <==> len as real - 2.0 < PersonBytes() as real * count.value)
  {
    if count.Finite? && count.value > 0.0 {
      var c := count.value;
      var q := (len as real - 2.0) / c;
      assert q * c == len as real - 2.0;
      if q < PersonBytes() as real {
        MultiplyLess(q, PersonBytes() as real, c);
      }
      if len as real - 2.0 < PersonBytes() as real * c {
        if q >= PersonBytes() as real {
          MultiplyLess(PersonBytes() as real - 1.0, q, c);
          MultiplyAtLeast(q, PersonBytes() as real, c);
        }
      }
    }
  }

  lemma {:induction false} MultiplyLess(a: real, b: real, c: real)
    requires a < b && c > 0.0
    ensures a * c < b * c
  {
  }

  lemma {:induction false} MultiplyAtLeast(a: real, b: real, c: real)
    requires a >= b && c > 0.0
    ensures a * c >= b * c
  {
  }

  datatype SkeletonMessage = SkeletonMessage(
    localTimestamp: real,
    data: seq<Byte>,
    personsCount: JsNumber,
    personLength: JsNumber)

  /** `fromObject`: the same buffer, its count and the length per person. */
  function FromObject(data: seq<Byte>, now: real): (r: SkeletonMessage)
  {
    var count := PersonsCount(data);
    SkeletonMessage(now, data, count, PersonLength(|data|, count))
  }

  /** `new SkeletonMessage(e)` at clock `now`: it keeps the event's buffer
      itself; the count is the big-endian header and, for a positive count,
      the length per person is the payload over the count. */
  function Parse(e: BinaryMessageEvent, now: real): (r: Result<SkeletonMessage>)
    ensures r.Success? <==> Validate(e).Success?
    ensures r.Success? ==> r.value.data == e.data.value.bytes && r.value.localTimestamp == now
    ensures r.Success? && |r.value.data| >= 2 ==>
              r.value.personsCount == Finite(Header(r.value.data) as real)
    ensures r.Success? && r.value.personsCount.Finite? && r.value.personsCount.value > 0.0 ==>
              && r.value.personLength.Finite?
              && r.value.personLength.value * r.value.personsCount.value == |r.value.data| as real - 2.0
              && r.value.personLength.value >= PersonBytes() as real
  {
    var data :- Validate(e);
    ValidatedLength(data, now);
    Success(FromObject(data, now))
  }

  /** A frame that passed validation and announces persons has room for
      each of them. */
  lemma {:induction false} ValidatedLength(data: seq<Byte>, now: real)
    requires !(|data| >= 2 && Header(data) > 0 && |data| - 2 < PersonBytes() * Header(data))
    ensures var m := FromObject(data, now);
            m.personsCount.Finite? && m.personsCount.value > 0.0 ==>
              && m.personLength.Finite?
              && m.personLength.value * m.personsCount.value == |data| as real - 2.0
              && m.personLength.value >= PersonBytes() as real
  {
    var m := FromObject(data, now);
    if m.personsCount.Finite? && m.personsCount.value > 0.0 {
      var c := Header(data);
      assert m.personsCount.value == c as real;
      assert |data| - 2 >= PersonBytes() * c;
      assert (|data| - 2) as real >= (PersonBytes() * c) as real;
      LengthRule(|data|, m.personsCount);
    }
  }

  /** A count of zero passes whatever the length of the buffer. */
  lemma {:induction false} ZeroCountAccepted(bytes: seq<Byte>)
    requires |bytes| >= 2 && bytes[0] == 0 && bytes[1] == 0
    ensures Validate(BinaryMessageEvent(Some(Bytes(bytes)))).Success?
  {
  }

  /** A buffer shorter than the two header bytes passes too: its count is
      NaN, and NaN is not positive. */
  lemma {:induction false} ShortBufferAccepted(bytes: seq<Byte>)
    requires |bytes| < 2
    ensures Validate(BinaryMessageEvent(Some(Bytes(bytes)))).Success?
    ensures FromObject(bytes, 0.0).personsCount == NaN
  {
  }

  /** There is no exact-multiple rule: any surplus after 213 bytes per
      person is accepted. */
  lemma {:induction false} SurplusAccepted(count: nat, extra: nat, bytes: seq<Byte>)
    requires 0 < count < 65536
    requires |bytes| == 2 + PersonBytes() * count + extra
    requires bytes[0] == count / 256 && bytes[1] == count % 256
    ensures Validate(BinaryMessageEvent(Some(Bytes(bytes)))).Success?
  {
  }
}
