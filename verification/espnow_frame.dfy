/** The ESP-NOW frame: the message type codes and the `ESPNowData` record,
    with its in-memory layout on the ESP32 (little-endian, `float` aligned to
    4 bytes) as the byte image that the sender casts the record to and the
    receiver casts back. */
module EspnowFrame {
  import opened Wrappers
  import opened Numeric

  /** `ESPNowMsgType` */
  datatype MsgType = Weight | Tare | Ack

  /** The numeric value of each enumerator. */
  function Code(t: MsgType): (c: uint8)
    ensures 1 <= c <= 3
  {
    match t
    case Weight => 1
    case Tare => 2
    case Ack => 3
  }

  /** Reading a `type` byte back as an enumerator; bytes other than 1..3 name no type. */
  function TypeOf(c: uint8): (r: Option<MsgType>)
    ensures r.Some? <==> 1 <= c <= 3
    ensures r.Some? ==> Code(r.value) == c
  {
    if c == 1 then Some(Weight) else if c == 2 then Some(Tare) else if c == 3 then Some(Ack) else None
  }

  /** The codes are pairwise distinct and `TypeOf` inverts `Code`. */
  lemma {:induction false} CodesDistinct(a: MsgType, b: MsgType)
    ensures Code(a) == Code(b) <==> a == b
    ensures TypeOf(Code(a)) == Some(a)
  {
    match a
    case Weight =>
    case Tare =>
    case Ack =>
  }

  /** Length of `char name[24]`. */
  const NAME_LEN: nat := 24

  /** Byte offsets of the fields: `type` and `id` are single bytes, two padding
      bytes align `value` to 4, `name` follows, then `timestamp`. */
  const TYPE_OFFSET: nat := 0
  const ID_OFFSET: nat := 1
  const VALUE_OFFSET: nat := 4
  const NAME_OFFSET: nat := 8
  const TIMESTAMP_OFFSET: nat := 32

  /** `sizeof(ESPNowData)` */
  const FRAME_SIZE: nat := 36

  /** The `ESPNowData` record, with fields in declaration order. The type of
      `value` is a parameter: the byte image carries a float's raw 32-bit
      pattern, the protocol logic sees the float it denotes. */
  datatype Frame<V> = Frame(msgType: uint8, id: uint8, value: V, name: seq<uint8>, timestamp: uint32)

  predicate WellFormed<V>(f: Frame<V>)
  {
    |f.name| == NAME_LEN
  }

  /** A record whose `value` is the IEEE-754 bit pattern of the float. */
  type WireFrame = Frame<uint32>

  /** A 32-bit field as it lies in memory on the little-endian ESP32. */
  function LittleEndian32(x: uint32): (b: seq<uint8>)
    ensures |b| == 4
  {
    var q1 := x / 256;
    var q2 := q1 / 256;
    var q3 := q2 / 256;
    [x % 256, q1 % 256, q2 % 256, q3]
  }

  function FromLittleEndian32(b: seq<uint8>): uint32
    requires |b| == 4
  {
    b[0] as int + 256 * (b[1] as int + 256 * (b[2] as int + 256 * b[3] as int))
  }

  /** The four bytes of a field read back as the same 32-bit value. */
  lemma LittleEndian32RoundTrip(x: uint32)
    ensures FromLittleEndian32(LittleEndian32(x)) == x
  {
    var q1 := x / 256;
    var q2 := q1 / 256;
    var q3 := q2 / 256;
    assert x == 256 * q1 + x % 256;
    assert q1 == 256 * q2 + q1 % 256;
    assert q2 == 256 * q3 + q2 % 256;
  }

  /** The two padding bytes after `id`. Their contents are indeterminate in the
      source; the encoder writes zeros and the decoder ignores them. */
  const PADDING: seq<uint8> := [0, 0]

  /** The byte image of a record: the send path's `(uint8_t *)&data`. */
  function Encode(f: WireFrame): (b: seq<uint8>)
    requires WellFormed(f)
    ensures |b| == FRAME_SIZE
    ensures b[TYPE_OFFSET] == f.msgType && b[ID_OFFSET] == f.id
    ensures b[NAME_OFFSET..TIMESTAMP_OFFSET] == f.name
  {
    [f.msgType, f.id] + PADDING + LittleEndian32(f.value) + f.name + LittleEndian32(f.timestamp)
  }

  /** The receive path's cast back: only a buffer of exactly `sizeof(ESPNowData)`
      bytes is interpreted, anything else is rejected whole. */
  function Decode(b: seq<uint8>): (r: Option<WireFrame>)
    ensures r.Some? <==> |b| == FRAME_SIZE
    ensures r.Some? ==> WellFormed(r.value)
  {
    if |b| != FRAME_SIZE then None
    else Some(Frame(b[TYPE_OFFSET], b[ID_OFFSET],
                    FromLittleEndian32(b[VALUE_OFFSET..NAME_OFFSET]),
                    b[NAME_OFFSET..TIMESTAMP_OFFSET],
                    FromLittleEndian32(b[TIMESTAMP_OFFSET..FRAME_SIZE])))
  }

  /** A record written by the sender and read by the receiver has the same
      field values: both ends use the one record definition. */
  lemma DecodeEncode(f: WireFrame)
    requires WellFormed(f)
    ensures Decode(Encode(f)) == Some(f)
  {
    var b := Encode(f);
    assert b[VALUE_OFFSET..NAME_OFFSET] == LittleEndian32(f.value);
    assert b[TIMESTAMP_OFFSET..FRAME_SIZE] == LittleEndian32(f.timestamp);
    LittleEndian32RoundTrip(f.value);
    LittleEndian32RoundTrip(f.timestamp);
  }

  /** Conversely, re-encoding a decoded buffer reproduces every byte except
      the two padding bytes, which carry no field. */
  lemma EncodeDecode(b: seq<uint8>)
    requires |b| == FRAME_SIZE
    ensures WellFormed(Decode(b).value)
    ensures var e := Encode(Decode(b).value);
      e[..2] == b[..2] && e[VALUE_OFFSET..] == b[VALUE_OFFSET..]
  {
    var f := Decode(b).value;
    var e := Encode(f);
    FromLittleEndian32Inverse(b[VALUE_OFFSET..NAME_OFFSET]);
    FromLittleEndian32Inverse(b[TIMESTAMP_OFFSET..FRAME_SIZE]);
    assert e[VALUE_OFFSET..NAME_OFFSET] == LittleEndian32(f.value);
    assert e[TIMESTAMP_OFFSET..FRAME_SIZE] == LittleEndian32(f.timestamp);
    assert e[VALUE_OFFSET..] == e[VALUE_OFFSET..NAME_OFFSET] + e[NAME_OFFSET..TIMESTAMP_OFFSET] + e[TIMESTAMP_OFFSET..FRAME_SIZE];
    assert b[VALUE_OFFSET..] == b[VALUE_OFFSET..NAME_OFFSET] + b[NAME_OFFSET..TIMESTAMP_OFFSET] + b[TIMESTAMP_OFFSET..FRAME_SIZE];
  }

  /** Any four bytes are the image of the value they denote. */
  lemma FromLittleEndian32Inverse(b: seq<uint8>)
    requires |b| == 4
    ensures LittleEndian32(FromLittleEndian32(b)) == b
  {
    var x := FromLittleEndian32(b);
    assert x / 256 == b[1] as int + 256 * (b[2] as int + 256 * b[3] as int);
    assert x / 256 / 256 == b[2] as int + 256 * b[3] as int;
    assert x / 256 / 256 / 256 == b[3];
  }
}
