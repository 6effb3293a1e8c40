/**
 * The simplified GeoNetworking header (27 bytes) and the CAM header (44 bytes) carried in
 * the simulator's V2X packets. Both are fixed-layout big-endian records. Their `double`
 * fields are copied bit for bit into a `uint64` before writing and back after reading, so
 * they are modelled here as opaque 64-bit words (the IEEE-754 bit pattern of the value).
 */
module GeoNetworking {
  import opened Ints
  import opened ByteOrder
  import opened Wrappers

  /** `PROT_NUM_GEONETWORKING`: the EtherType registered for ETSI GeoNetworking. */
  const PROT_NUM_GEONETWORKING: u16 := 0x8947
  /** `PROT_NUM_CAM`: the next-header value announcing a CAM payload. */
  const PROT_NUM_CAM: u8 := 0x02

  /** Bit pattern of the `double` value 0.0. */
  const DOUBLE_ZERO_BITS: u64 := 0

  /** `GeoNetHeader::GeoNetMessageType` */
  datatype GeoNetMessageType =
    | Beacon
    | GeoBroadcast
    | GeoUnicast
    | GeoAnycast
    | TopologicallyScopedBroadcast
  {
    /** The enumerator's numeric value, which is what goes on the wire. */
    function Code(): (c: u8)
      ensures 1 <= c <= 5
    {
      match this
      case Beacon => 1
      case GeoBroadcast => 2
      case GeoUnicast => 3
      case GeoAnycast => 4
      case TopologicallyScopedBroadcast => 5
    }
  }

  /** The named message type carrying a code, if any. */
  function MessageTypeOf(c: u8): (t: Option<GeoNetMessageType>)
    ensures t.Some? <==> 1 <= c <= 5
    ensures t.Some? ==> t.value.Code() == c
  {
    if c == 1 then Some(Beacon)
    else if c == 2 then Some(GeoBroadcast)
    else if c == 3 then Some(GeoUnicast)
    else if c == 4 then Some(GeoAnycast)
    else if c == 5 then Some(TopologicallyScopedBroadcast)
    else None
  }


  /** Distinct message types have distinct codes, and each code names its type back. */
  lemma MessageTypeCodes(t: GeoNetMessageType, t': GeoNetMessageType)
    ensures MessageTypeOf(t.Code()) == Some(t)
    ensures t.Code() == t'.Code() ==> t == t'
  {
  }

  // ---------------------------------------------------------------------------------
  // GeoNetHeader
  // ---------------------------------------------------------------------------------

  /** The field values of a `GeoNetHeader`. `messageType` holds the raw byte: `Deserialize`
      casts any byte to the enum type without checking it. */
  datatype GeoNet = GeoNet(
    version: u8,
    nextHeader: u8,
    messageType: u8,
    sourcePositionX: u64,
    sourcePositionY: u64,
    sourceId: u32,
    radius: u16,
    lifetime: u16)

  /** `GeoNetHeader::GetSerializedSize`: the length of every encoded GeoNetworking header. */
  function GeoNetSerializedSize(): (n: nat)
    ensures forall h :: |EncodeGeoNet(h)| == n
  {
    1 + 1 + 1 + 8 + 8 + 4 + 2 + 2
  }

  /** The bytes `GeoNetHeader::Serialize` writes, in write order. */
  function EncodeGeoNet(h: GeoNet): (b: seq<u8>)
  {
    WriteU8(h.version) + WriteU8(h.nextHeader) + WriteU8(h.messageType)
    + WriteHtonU64(h.sourcePositionX) + WriteHtonU64(h.sourcePositionY)
    + WriteHtonU32(h.sourceId) + WriteHtonU16(h.radius) + WriteHtonU16(h.lifetime)
  }

  /** The fields `GeoNetHeader::Deserialize` reads from the first 27 bytes of a buffer. */
  function DecodeGeoNet(b: seq<u8>): (r: GeoNet)
    requires |b| >= 27
  {
    GeoNet(b[0], b[1], b[2],
           ReadNtohU64(b[3..11]), ReadNtohU64(b[11..19]),
           ReadNtohU32(b[19..23]), ReadNtohU16(b[23..25]), ReadNtohU16(b[25..27]))
  }

  /** Where each piece of a 27-byte GeoNetworking header lies. */
  lemma GeoNetPieces(v: u8, n: u8, t: u8, x: seq<u8>, y: seq<u8>, id: seq<u8>, r: seq<u8>, l: seq<u8>)
    requires |x| == 8 && |y| == 8 && |id| == 4 && |r| == 2 && |l| == 2
    ensures var b := [v] + [n] + [t] + x + y + id + r + l;
      && |b| == 27 && b[0] == v && b[1] == n && b[2] == t
      && b[3..11] == x && b[11..19] == y && b[19..23] == id && b[23..25] == r && b[25..27] == l
  {
  }

  lemma GeoNetReassemble(b: seq<u8>)
    requires |b| == 27
    ensures b == [b[0]] + [b[1]] + [b[2]] + b[3..11] + b[11..19] + b[19..23] + b[23..25] + b[25..27]
  {
  }

  /** The wire layout: one byte each of version, next header and message type at offsets
      0..2, then the two position words, the source id, the radius and the lifetime,
      each big-endian. */
  lemma GeoNetLayout(h: GeoNet)
    ensures var b := EncodeGeoNet(h);
      && |b| == 27
      && b[0] == h.version && b[1] == h.nextHeader && b[2] == h.messageType
      && FromBigEndian(b[3..11]) == h.sourcePositionX
      && FromBigEndian(b[11..19]) == h.sourcePositionY
      && FromBigEndian(b[19..23]) == h.sourceId
      && FromBigEndian(b[23..25]) == h.radius
      && FromBigEndian(b[25..27]) == h.lifetime
  {
    GeoNetPieces(h.version, h.nextHeader, h.messageType,
                 WriteHtonU64(h.sourcePositionX), WriteHtonU64(h.sourcePositionY),
                 WriteHtonU32(h.sourceId), WriteHtonU16(h.radius), WriteHtonU16(h.lifetime));
    RoundTripU64(h.sourcePositionX);
    RoundTripU64(h.sourcePositionY);
    RoundTripU32(h.sourceId);
    RoundTripU16(h.radius);
    RoundTripU16(h.lifetime);
  }

  /** Deserialize(Serialize(h)) restores every field bit for bit. */
  lemma GeoNetRoundTrip(h: GeoNet)
    ensures DecodeGeoNet(EncodeGeoNet(h)) == h
  {
    GeoNetLayout(h);
  }

  /** Every 27-byte string is accepted, whatever its message-type byte, and re-encodes to itself. */
  lemma GeoNetBytesRoundTrip(b: seq<u8>)
    requires |b| == 27
    ensures EncodeGeoNet(DecodeGeoNet(b)) == b
  {
    BytesU64(b[3..11]);
    BytesU64(b[11..19]);
    BytesU32(b[19..23]);
    BytesU16(b[23..25]);
    BytesU16(b[25..27]);
    GeoNetReassemble(b);
  }

  /** `ns3::GeoNetHeader`: a header object whose setters and `Deserialize` assign its fields. */
  class GeoNetHeader {
    var version: u8
    var nextHeader: u8
    var messageType: u8
    var sourcePositionX: u64
    var sourcePositionY: u64
    var sourceId: u32
    var radius: u16
    var lifetime: u16

    /** The header's current field values. */
    function Fields(): (r: GeoNet)
      reads this
    {
      GeoNet(version, nextHeader, messageType, sourcePositionX, sourcePositionY, sourceId, radius, lifetime)
    }

    /** The default header: version 1, a CAM payload, GEOBROADCAST, position (0.0, 0.0),
        source 0, radius 1000 and lifetime 60. */
    constructor ()
      ensures Fields() == GeoNet(1, PROT_NUM_CAM, GeoBroadcast.Code(), DOUBLE_ZERO_BITS, DOUBLE_ZERO_BITS, 0, 1000, 60)
    {
      version := 1;
      nextHeader := PROT_NUM_CAM;
      messageType := GeoBroadcast.Code();
      sourcePositionX := DOUBLE_ZERO_BITS;
      sourcePositionY := DOUBLE_ZERO_BITS;
      sourceId := 0;
      radius := 1000;
      lifetime := 60;
    }

    /** Writes the header field by field, as the buffer iterator does. */
    method Serialize() returns (bytes: seq<u8>)
      ensures bytes == EncodeGeoNet(Fields())
      ensures |bytes| == GeoNetSerializedSize()
    {
      bytes := WriteU8(version);
      bytes := bytes + WriteU8(nextHeader);
      bytes := bytes + WriteU8(messageType);
      bytes := bytes + WriteHtonU64(sourcePositionX);
      bytes := bytes + WriteHtonU64(sourcePositionY);
      bytes := bytes + WriteHtonU32(sourceId);
      bytes := bytes + WriteHtonU16(radius);
      bytes := bytes + WriteHtonU16(lifetime);
    }

    /** Reads the header from the front of a buffer and reports the bytes consumed. */
    method Deserialize(start: seq<u8>) returns (consumed: u32)
      requires |start| >= GeoNetSerializedSize()
      modifies this
      ensures Fields() == DecodeGeoNet(start)
      ensures consumed == GeoNetSerializedSize()
    {
      var h := DecodeGeoNet(start);
      version, nextHeader, messageType := h.version, h.nextHeader, h.messageType;
      sourcePositionX, sourcePositionY := h.sourcePositionX, h.sourcePositionY;
      sourceId, radius, lifetime := h.sourceId, h.radius, h.lifetime;
      consumed := GeoNetSerializedSize();
    }

    method SetVersion(v: u8)
      modifies this
      ensures Fields() == old(Fields()).(version := v)
    {
      version := v;
    }

    method SetNextHeader(n: u8)
      modifies this
      ensures Fields() == old(Fields()).(nextHeader := n)
    {
      nextHeader := n;
    }

    method SetMessageType(t: GeoNetMessageType)
      modifies this
      ensures Fields() == old(Fields()).(messageType := t.Code())
      ensures MessageTypeOf(Fields().messageType) == Some(t)
    {
      messageType := t.Code();
    }

    method SetSourcePosition(x: u64, y: u64)
      modifies this
      ensures Fields() == old(Fields()).(sourcePositionX := x, sourcePositionY := y)
    {
      sourcePositionX := x;
      sourcePositionY := y;
    }

    method SetSourceId(id: u32)
      modifies this
      ensures Fields() == old(Fields()).(sourceId := id)
    {
      sourceId := id;
    }

    method SetRadius(r: u16)
      modifies this
      ensures Fields() == old(Fields()).(radius := r)
    {
      radius := r;
    }

    method SetLifetime(seconds: u16)
      modifies this
      ensures Fields() == old(Fields()).(lifetime := seconds)
    {
      lifetime := seconds;
    }

    function GetVersion(): (r: u8) reads this { version }
    function GetNextHeader(): (r: u8) reads this { nextHeader }
    function GetMessageType(): (r: u8) reads this { messageType }
    function GetSourcePositionX(): (r: u64) reads this { sourcePositionX }
    function GetSourcePositionY(): (r: u64) reads this { sourcePositionY }
    function GetSourceId(): (r: u32) reads this { sourceId }
    function GetRadius(): (r: u16) reads this { radius }
    function GetLifetime(): (r: u16) reads this { lifetime }
  }

  // ---------------------------------------------------------------------------------
  // CamHeader
  // ---------------------------------------------------------------------------------

  /** The field values of a `CamHeader`. */
  datatype Cam = Cam(
    vehicleId: u32,
    positionX: u64,
    positionY: u64,
    speed: u64,
    heading: u64,
    timestamp: u64)

  /** `CamHeader::GetSerializedSize`: the sum of the field sizes, the length of every encoded CAM. */
  function CamSerializedSize(): (n: nat)
    ensures forall c :: |EncodeCam(c)| == n
  {
    4 + 8 + 8 + 8 + 8 + 8
  }

  /** The bytes `CamHeader::Serialize` writes, in write order. */
  function EncodeCam(c: Cam): (b: seq<u8>)
  {
    WriteHtonU32(c.vehicleId)
    + WriteHtonU64(c.positionX) + WriteHtonU64(c.positionY)
    + WriteHtonU64(c.speed) + WriteHtonU64(c.heading)
    + WriteHtonU64(c.timestamp)
  }

  /** The fields `CamHeader::Deserialize` reads from the first 44 bytes of a buffer. */
  function DecodeCam(b: seq<u8>): (r: Cam)
    requires |b| >= 44
  {
    Cam(ReadNtohU32(b[0..4]),
        ReadNtohU64(b[4..12]), ReadNtohU64(b[12..20]),
        ReadNtohU64(b[20..28]), ReadNtohU64(b[28..36]),
        ReadNtohU64(b[36..44]))
  }

  /** Where each piece of a 44-byte CAM lies. */
  lemma CamPieces(id: seq<u8>, x: seq<u8>, y: seq<u8>, sp: seq<u8>, hd: seq<u8>, ts: seq<u8>)
    requires |id| == 4 && |x| == 8 && |y| == 8 && |sp| == 8 && |hd| == 8 && |ts| == 8
    ensures var b := id + x + y + sp + hd + ts;
      && |b| == 44 && b[0..4] == id && b[4..12] == x && b[12..20] == y
      && b[20..28] == sp && b[28..36] == hd && b[36..44] == ts
  {
  }

  lemma CamReassemble(b: seq<u8>)
    requires |b| == 44
    ensures b == b[0..4] + b[4..12] + b[12..20] + b[20..28] + b[28..36] + b[36..44]
  {
  }

  /** The wire layout: the vehicle id big-endian in 4 bytes, then position x, position y,
      speed, heading and timestamp as big-endian 8-byte words. */
  lemma CamLayout(c: Cam)
    ensures var b := EncodeCam(c);
      && |b| == 44
      && FromBigEndian(b[0..4]) == c.vehicleId
      && FromBigEndian(b[4..12]) == c.positionX
      && FromBigEndian(b[12..20]) == c.positionY
      && FromBigEndian(b[20..28]) == c.speed
      && FromBigEndian(b[28..36]) == c.heading
      && FromBigEndian(b[36..44]) == c.timestamp
  {
    CamPieces(WriteHtonU32(c.vehicleId), WriteHtonU64(c.positionX), WriteHtonU64(c.positionY),
              WriteHtonU64(c.speed), WriteHtonU64(c.heading), WriteHtonU64(c.timestamp));
    RoundTripU32(c.vehicleId);
    RoundTripU64(c.positionX);
    RoundTripU64(c.positionY);
    RoundTripU64(c.speed);
    RoundTripU64(c.heading);
    RoundTripU64(c.timestamp);
  }

  /** Deserialize(Serialize(c)) restores every field bit for bit. */
  lemma CamRoundTrip(c: Cam)
    ensures DecodeCam(EncodeCam(c)) == c
  {
    CamLayout(c);
  }

  /** Every 44-byte string decodes to a CAM that re-encodes to it. */
  lemma CamBytesRoundTrip(b: seq<u8>)
    requires |b| == 44
    ensures EncodeCam(DecodeCam(b)) == b
  {
    BytesU32(b[0..4]);
    BytesU64(b[4..12]);
    BytesU64(b[12..20]);
    BytesU64(b[20..28]);
    BytesU64(b[28..36]);
    BytesU64(b[36..44]);
    CamReassemble(b);
  }

  /** `ns3::CamHeader` */
  class CamHeader {
    var vehicleId: u32
    var positionX: u64
    var positionY: u64
    var speed: u64
    var heading: u64
    var timestamp: u64

    function Fields(): (r: Cam)
      reads this
    {
      Cam(vehicleId, positionX, positionY, speed, heading, timestamp)
    }

    /** The default CAM: vehicle 0, every double 0.0, timestamp 0. */
    constructor ()
      ensures Fields() == Cam(0, DOUBLE_ZERO_BITS, DOUBLE_ZERO_BITS, DOUBLE_ZERO_BITS, DOUBLE_ZERO_BITS, 0)
    {
      vehicleId := 0;
      positionX := DOUBLE_ZERO_BITS;
      positionY := DOUBLE_ZERO_BITS;
      speed := DOUBLE_ZERO_BITS;
      heading := DOUBLE_ZERO_BITS;
      timestamp := 0;
    }

    method Serialize() returns (bytes: seq<u8>)
      ensures bytes == EncodeCam(Fields())
      ensures |bytes| == CamSerializedSize()
    {
      bytes := WriteHtonU32(vehicleId);
      bytes := bytes + WriteHtonU64(positionX);
      bytes := bytes + WriteHtonU64(positionY);
      bytes := bytes + WriteHtonU64(speed);
      bytes := bytes + WriteHtonU64(heading);
      bytes := bytes + WriteHtonU64(timestamp);
    }

    method Deserialize(start: seq<u8>) returns (consumed: u32)
      requires |start| >= CamSerializedSize()
      modifies this
      ensures Fields() == DecodeCam(start)
      ensures consumed == CamSerializedSize()
    {
      var c := DecodeCam(start);
      vehicleId, positionX, positionY := c.vehicleId, c.positionX, c.positionY;
      speed, heading, timestamp := c.speed, c.heading, c.timestamp;
      consumed := CamSerializedSize();
    }

    method SetVehicleId(id: u32)
      modifies this
      ensures Fields() == old(Fields()).(vehicleId := id)
    {
      vehicleId := id;
    }

    method SetPositionX(x: u64)
      modifies this
      ensures Fields() == old(Fields()).(positionX := x)
    {
      positionX := x;
    }

    method SetPositionY(y: u64)
      modifies this
      ensures Fields() == old(Fields()).(positionY := y)
    {
      positionY := y;
    }

    method SetSpeed(s: u64)
      modifies this
      ensures Fields() == old(Fields()).(speed := s)
    {
      speed := s;
    }

    method SetHeading(h: u64)
      modifies this
      ensures Fields() == old(Fields()).(heading := h)
    {
      heading := h;
    }

    method SetTimestamp(t: u64)
      modifies this
      ensures Fields() == old(Fields()).(timestamp := t)
    {
      timestamp := t;
    }

    function GetVehicleId(): (r: u32) reads this { vehicleId }
    function GetPositionX(): (r: u64) reads this { positionX }
    function GetPositionY(): (r: u64) reads this { positionY }
    function GetSpeed(): (r: u64) reads this { speed }
    function GetHeading(): (r: u64) reads this { heading }
    function GetTimestamp(): (r: u64) reads this { timestamp }
  }
}
