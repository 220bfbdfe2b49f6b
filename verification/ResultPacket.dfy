/** The wire form of one DIC result: a 48-byte header and 36 bytes per point. */
module ResultPacket {
  import opened Outcomes
  import opened Bytes
  import opened Crc

  const MAGIC: nat := 0x3243_4944
  const VERSION: nat := 1
  const HEADER_SIZE: nat := 48
  const POINT_SIZE: nat := 36
  const MAXIMUM_POINT_COUNT: nat := 1_000_000

  /** Floats and doubles appear as the bit patterns that bit_cast gives. */
  datatype Point = Point(
    x: Int32, y: Int32, u: UInt32, v: UInt32, quality: UInt32, valid: bool,
    exx: UInt32, eyy: UInt32, exy: UInt32, strainValid: bool)

  datatype DicResult = DicResult(sequence: UInt64, timestamp: UInt64, processingMs: UInt64, points: seq<Point>)

  function Flags(p: Point): UInt32 {
    (if p.valid then 1 else 0) + (if p.strainValid then 2 else 0)
  }

  function PointBytes(p: Point): (bytes: seq<Byte>)
    ensures |bytes| == POINT_SIZE
  {
    LittleEndian(ToUnsigned(p.x), 4) + LittleEndian(ToUnsigned(p.y), 4) + LittleEndian(p.u, 4) + LittleEndian(p.v, 4)
    + LittleEndian(p.quality, 4) + LittleEndian(p.exx, 4) + LittleEndian(p.eyy, 4) + LittleEndian(p.exy, 4)
    + LittleEndian(Flags(p), 4)
  }

  function Payload(points: seq<Point>): (bytes: seq<Byte>)
    ensures |bytes| == |points| * POINT_SIZE
  {
    if points == [] then [] else PointBytes(points[0]) + Payload(points[1..])
  }

  function Header(r: DicResult, crc: nat): (bytes: seq<Byte>)
    ensures |bytes| == HEADER_SIZE
  {
    LittleEndian(MAGIC, 4) + LittleEndian(VERSION, 2) + LittleEndian(HEADER_SIZE, 2)
    + LittleEndian(HEADER_SIZE + |r.points| * POINT_SIZE, 4) + LittleEndian(POINT_SIZE, 4)
    + LittleEndian(r.sequence, 8) + LittleEndian(r.timestamp, 8) + LittleEndian(r.processingMs, 8)
    + LittleEndian(|r.points|, 4) + LittleEndian(crc, 4)
  }

  function Packet(r: DicResult): (bytes: seq<Byte>)
    ensures |bytes| == HEADER_SIZE + |r.points| * POINT_SIZE
  {
    Header(r, Crc32(Payload(r.points))) + Payload(r.points)
  }

  predicate Encodable(r: DicResult) { |r.points| <= MAXIMUM_POINT_COUNT }

  predicate AllEncodable(results: seq<DicResult>) {
    forall i :: 0 <= i < |results| ==> Encodable(results[i])
  }

  function Encode(r: DicResult): Outcome<seq<Byte>> {
    if Encodable(r) then Done(Packet(r)) else Threw(TooManyPoints)
  }

  function Field(bytes: seq<Byte>, at: nat, width: nat): nat
    requires at + width <= |bytes|
  {
    Value(bytes[at..at + width])
  }

  function DecodePoint(bytes: seq<Byte>): Outcome<Point>
    requires |bytes| == POINT_SIZE
  {
    var flags := Field(bytes, 32, 4);
    if flags >= 4 then Threw(FlagsInvalid) else
    FourBytes(bytes, 0); FourBytes(bytes, 4); FourBytes(bytes, 8); FourBytes(bytes, 12); FourBytes(bytes, 16);
    FourBytes(bytes, 20); FourBytes(bytes, 24); FourBytes(bytes, 28);
    Done(Point(ToSigned(Field(bytes, 0, 4)), ToSigned(Field(bytes, 4, 4)),
               Field(bytes, 8, 4), Field(bytes, 12, 4), Field(bytes, 16, 4), flags % 2 == 1,
               Field(bytes, 20, 4), Field(bytes, 24, 4), Field(bytes, 28, 4), flags / 2 % 2 == 1))
  }

  function DecodePoints(bytes: seq<Byte>): Outcome<seq<Point>>
    requires |bytes| % POINT_SIZE == 0
  {
    if bytes == [] then Done([]) else
    match DecodePoint(bytes[..POINT_SIZE])
    case Threw(e) => Threw(e)
    case Done(p) =>
      match DecodePoints(bytes[POINT_SIZE..])
      case Threw(e) => Threw(e)
      case Done(rest) => Done([p] + rest)
  }

  function Decode(packet: seq<Byte>): Outcome<DicResult> {
    if |packet| < HEADER_SIZE then Threw(PacketTruncated)
    else if Field(packet, 0, 4) != MAGIC || Field(packet, 4, 2) != VERSION ||
            Field(packet, 6, 2) != HEADER_SIZE || Field(packet, 12, 4) != POINT_SIZE then Threw(HeaderUnsupported)
    else if Field(packet, 8, 4) != |packet| then Threw(LengthMismatch)
    else if Field(packet, 40, 4) > MAXIMUM_POINT_COUNT ||
            |packet| - HEADER_SIZE != Field(packet, 40, 4) * POINT_SIZE then Threw(PointCountInvalid)
    else if Crc32(packet[HEADER_SIZE..]) != Field(packet, 44, 4) then Threw(ChecksumFailed)
    else
      match DecodePoints(packet[HEADER_SIZE..])
      case Threw(e) => Threw(e)
      case Done(points) =>
        EightBytes(packet, 16); EightBytes(packet, 24); EightBytes(packet, 32);
        Done(DicResult(Field(packet, 16, 8), Field(packet, 24, 8), Field(packet, 32, 8), points))
  }

  lemma Powers()
    ensures Pow256(2) == 0x1_0000 && Pow256(4) == 0x1_0000_0000 && Pow256(8) == 0x1_0000_0000_0000_0000
  {
    assert Pow256(3) == 0x100_0000;
    assert Pow256(6) == 0x1_0000_0000_0000;
  }

  lemma FourBytes(bytes: seq<Byte>, at: nat)
    requires at + 4 <= |bytes|
    ensures Field(bytes, at, 4) < 0x1_0000_0000
  {
    Powers();
    LittleEndianOfValue(bytes[at..at + 4]);
  }

  lemma EightBytes(bytes: seq<Byte>, at: nat)
    requires at + 8 <= |bytes|
    ensures Field(bytes, at, 8) < 0x1_0000_0000_0000_0000
  {
    Powers();
    LittleEndianOfValue(bytes[at..at + 8]);
  }

  // Round trips.

  lemma FieldOfLittleEndian(bytes: seq<Byte>, at: nat, width: nat, value: nat)
    requires at + width <= |bytes| && bytes[at..at + width] == LittleEndian(value, width)
    requires value < Pow256(width)
    ensures Field(bytes, at, width) == value
  {
    ValueOfLittleEndian(value, width);
  }

  lemma LittleEndianOfField(bytes: seq<Byte>, at: nat, width: nat)
    requires at + width <= |bytes|
    ensures LittleEndian(Field(bytes, at, width), width) == bytes[at..at + width]
  {
    LittleEndianOfValue(bytes[at..at + width]);
  }

  lemma {:induction false} PointRoundTrip(p: Point)
    ensures DecodePoint(PointBytes(p)) == Done(p)
  {
    PointFields(p);
    hide LittleEndian;
    hide Field;
    hide PointBytes;
  }

  /** What lies in the first of two joined sequences is found at the same place in the join, and so is the second. */
  lemma Joined(x: seq<Byte>, y: seq<Byte>)
    ensures forall at: nat, end: nat :: at <= end <= |x| ==> (x + y)[at..end] == x[at..end]
    ensures (x + y)[|x|..|x| + |y|] == y && x[0..|x|] == x
  {
    forall at: nat, end: nat | at <= end <= |x|
      ensures (x + y)[at..end] == x[at..end]
    {
    }
  }

  lemma PointFields(p: Point)
    ensures var bytes := PointBytes(p);
            && Field(bytes, 0, 4) == ToUnsigned(p.x) && Field(bytes, 4, 4) == ToUnsigned(p.y)
            && Field(bytes, 8, 4) == p.u && Field(bytes, 12, 4) == p.v && Field(bytes, 16, 4) == p.quality
            && Field(bytes, 20, 4) == p.exx && Field(bytes, 24, 4) == p.eyy && Field(bytes, 28, 4) == p.exy
            && Field(bytes, 32, 4) == Flags(p)
  {
    hide LittleEndian;
    hide Field;
    Powers();
    hide Pow256;
    var s1 := LittleEndian(ToUnsigned(p.x), 4);
    var s2 := s1 + LittleEndian(ToUnsigned(p.y), 4);
    var s3 := s2 + LittleEndian(p.u, 4);
    var s4 := s3 + LittleEndian(p.v, 4);
    var s5 := s4 + LittleEndian(p.quality, 4);
    var s6 := s5 + LittleEndian(p.exx, 4);
    var s7 := s6 + LittleEndian(p.eyy, 4);
    var s8 := s7 + LittleEndian(p.exy, 4);
    var s9 := s8 + LittleEndian(Flags(p), 4);
    assert PointBytes(p) == s9;
    Joined(s1, LittleEndian(ToUnsigned(p.y), 4));
    Joined(s2, LittleEndian(p.u, 4));
    Joined(s3, LittleEndian(p.v, 4));
    Joined(s4, LittleEndian(p.quality, 4));
    Joined(s5, LittleEndian(p.exx, 4));
    Joined(s6, LittleEndian(p.eyy, 4));
    Joined(s7, LittleEndian(p.exy, 4));
    Joined(s8, LittleEndian(Flags(p), 4));
    FieldOfLittleEndian(s9, 0, 4, ToUnsigned(p.x));
    FieldOfLittleEndian(s9, 4, 4, ToUnsigned(p.y));
    FieldOfLittleEndian(s9, 8, 4, p.u);
    FieldOfLittleEndian(s9, 12, 4, p.v);
    FieldOfLittleEndian(s9, 16, 4, p.quality);
    FieldOfLittleEndian(s9, 20, 4, p.exx);
    FieldOfLittleEndian(s9, 24, 4, p.eyy);
    FieldOfLittleEndian(s9, 28, 4, p.exy);
    FieldOfLittleEndian(s9, 32, 4, Flags(p));
  }

  lemma PointBytesOfDecoded(bytes: seq<Byte>)
    requires |bytes| == POINT_SIZE && DecodePoint(bytes).Done?
    ensures PointBytes(DecodePoint(bytes).value) == bytes
  {
    hide LittleEndian;
    var p := DecodePoint(bytes).value;
    LittleEndianOfField(bytes, 0, 4);
    LittleEndianOfField(bytes, 4, 4);
    LittleEndianOfField(bytes, 8, 4);
    LittleEndianOfField(bytes, 12, 4);
    LittleEndianOfField(bytes, 16, 4);
    LittleEndianOfField(bytes, 20, 4);
    LittleEndianOfField(bytes, 24, 4);
    LittleEndianOfField(bytes, 28, 4);
    LittleEndianOfField(bytes, 32, 4);
    FourBytes(bytes, 0);
    FourBytes(bytes, 4);
    assert ToUnsigned(p.x) == Field(bytes, 0, 4) && ToUnsigned(p.y) == Field(bytes, 4, 4);
    assert Flags(p) == Field(bytes, 32, 4);
    hide Field;
    assert bytes == bytes[0..4] + bytes[4..8] + bytes[8..12] + bytes[12..16] + bytes[16..20]
                    + bytes[20..24] + bytes[24..28] + bytes[28..32] + bytes[32..36];
  }

  lemma {:induction false} PointsRoundTrip(points: seq<Point>)
    ensures DecodePoints(Payload(points)) == Done(points)
  {
    if points != [] {
      hide DecodePoint;
      hide PointBytes;
      var bytes := Payload(points);
      assert bytes[..POINT_SIZE] == PointBytes(points[0]);
      assert bytes[POINT_SIZE..] == Payload(points[1..]);
      PointRoundTrip(points[0]);
      PointsRoundTrip(points[1..]);
      assert points == [points[0]] + points[1..];
    }
  }

  lemma {:induction false} PayloadOfDecoded(bytes: seq<Byte>)
    requires |bytes| % POINT_SIZE == 0 && DecodePoints(bytes).Done?
    ensures Payload(DecodePoints(bytes).value) == bytes
  {
    if bytes != [] {
      hide DecodePoint;
      hide PointBytes;
      PointBytesOfDecoded(bytes[..POINT_SIZE]);
      PayloadOfDecoded(bytes[POINT_SIZE..]);
      var points := DecodePoints(bytes).value;
      assert points[1..] == DecodePoints(bytes[POINT_SIZE..]).value;
      assert bytes == bytes[..POINT_SIZE] + bytes[POINT_SIZE..];
    }
  }

  /** Each header field is found where the decoder reads it. */
  lemma HeaderFields(r: DicResult, crc: nat, tail: seq<Byte>)
    requires Encodable(r) && crc < 0x1_0000_0000
    ensures var p := Header(r, crc) + tail;
            && Field(p, 0, 4) == MAGIC && Field(p, 4, 2) == VERSION && Field(p, 6, 2) == HEADER_SIZE
            && Field(p, 8, 4) == HEADER_SIZE + |r.points| * POINT_SIZE && Field(p, 12, 4) == POINT_SIZE
            && Field(p, 16, 8) == r.sequence && Field(p, 24, 8) == r.timestamp && Field(p, 32, 8) == r.processingMs
            && Field(p, 40, 4) == |r.points| && Field(p, 44, 4) == crc
  {
    hide LittleEndian;
    hide Field;
    Powers();
    hide Pow256;
    var s1 := LittleEndian(MAGIC, 4);
    var s2 := s1 + LittleEndian(VERSION, 2);
    var s3 := s2 + LittleEndian(HEADER_SIZE, 2);
    var s4 := s3 + LittleEndian(HEADER_SIZE + |r.points| * POINT_SIZE, 4);
    var s5 := s4 + LittleEndian(POINT_SIZE, 4);
    var s6 := s5 + LittleEndian(r.sequence, 8);
    var s7 := s6 + LittleEndian(r.timestamp, 8);
    var s8 := s7 + LittleEndian(r.processingMs, 8);
    var s9 := s8 + LittleEndian(|r.points|, 4);
    var s10 := s9 + LittleEndian(crc, 4);
    assert Header(r, crc) == s10;
    var p := s10 + tail;
    Joined(s1, LittleEndian(VERSION, 2));
    Joined(s2, LittleEndian(HEADER_SIZE, 2));
    Joined(s3, LittleEndian(HEADER_SIZE + |r.points| * POINT_SIZE, 4));
    Joined(s4, LittleEndian(POINT_SIZE, 4));
    Joined(s5, LittleEndian(r.sequence, 8));
    Joined(s6, LittleEndian(r.timestamp, 8));
    Joined(s7, LittleEndian(r.processingMs, 8));
    Joined(s8, LittleEndian(|r.points|, 4));
    Joined(s9, LittleEndian(crc, 4));
    Joined(s10, tail);
    FieldOfLittleEndian(p, 0, 4, MAGIC);
    FieldOfLittleEndian(p, 4, 2, VERSION);
    FieldOfLittleEndian(p, 6, 2, HEADER_SIZE);
    FieldOfLittleEndian(p, 8, 4, HEADER_SIZE + |r.points| * POINT_SIZE);
    FieldOfLittleEndian(p, 12, 4, POINT_SIZE);
    FieldOfLittleEndian(p, 16, 8, r.sequence);
    FieldOfLittleEndian(p, 24, 8, r.timestamp);
    FieldOfLittleEndian(p, 32, 8, r.processingMs);
    FieldOfLittleEndian(p, 40, 4, |r.points|);
    FieldOfLittleEndian(p, 44, 4, crc);
  }

  lemma {:induction false} DecodeOfEncode(r: DicResult)
    requires Encodable(r)
    ensures Decode(Packet(r)) == Done(r)
  {
    hide Header;
    hide Field;
    hide Crc32;
    var crc := Crc32(Payload(r.points));
    CrcFitsWord(Payload(r.points));
    HeaderFields(r, crc, Payload(r.points));
    assert Packet(r)[HEADER_SIZE..] == Payload(r.points);
    PointsRoundTrip(r.points);
  }

  lemma {:induction false} EncodeOfDecode(packet: seq<Byte>)
    requires Decode(packet).Done?
    ensures Encode(Decode(packet).value) == Done(packet)
  {
    hide LittleEndian;
    hide Crc32;
    hide DecodePoints;
    hide Payload;
    var r := Decode(packet).value;
    PayloadOfDecoded(packet[HEADER_SIZE..]);
    LittleEndianOfField(packet, 0, 4);
    LittleEndianOfField(packet, 4, 2);
    LittleEndianOfField(packet, 6, 2);
    LittleEndianOfField(packet, 8, 4);
    LittleEndianOfField(packet, 12, 4);
    LittleEndianOfField(packet, 16, 8);
    LittleEndianOfField(packet, 24, 8);
    LittleEndianOfField(packet, 32, 8);
    LittleEndianOfField(packet, 40, 4);
    LittleEndianOfField(packet, 44, 4);
    assert packet[..48] == packet[0..4] + packet[4..6] + packet[6..8] + packet[8..12] + packet[12..16] + packet[16..24]
                           + packet[24..32] + packet[32..40] + packet[40..44] + packet[44..48];
    assert packet == packet[..48] + packet[48..];
  }

  lemma {:induction false} EncodeInjective(r: DicResult, q: DicResult)
    requires Encodable(r) && Encodable(q) && Packet(r) == Packet(q)
    ensures r == q
  {
    hide *;
    DecodeOfEncode(r);
    DecodeOfEncode(q);
  }

  /** The decoder accepts the encodings and nothing else. */
  lemma {:induction false} AcceptedAreEncodings(packet: seq<Byte>)
    ensures Decode(packet).Done? <==> exists r :: Encodable(r) && Packet(r) == packet
  {
    hide *;
    if Decode(packet).Done? {
      EncodeOfDecode(packet);
      EncodeIsPacket(Decode(packet).value);
    }
    if r :| Encodable(r) && Packet(r) == packet {
      DecodeOfEncode(r);
    }
  }

  lemma EncodeIsPacket(r: DicResult)
    requires Encode(r).Done?
    ensures Encodable(r) && Encode(r).value == Packet(r)
  {
  }

  // Damage.

  lemma SameField(p: seq<Byte>, q: seq<Byte>, at: nat, width: nat)
    requires at + width <= |p| == |q|
    requires forall i :: at <= i < at + width ==> p[i] == q[i]
    ensures Field(p, at, width) == Field(q, at, width)
  {
    hide Value;
    assert p[at..at + width] == q[at..at + width];
  }

  /** A change within four consecutive payload bytes is rejected. */
  lemma {:induction false} PayloadDamageRejected(packet: seq<Byte>, damaged: seq<Byte>, from: nat)
    requires Decode(packet).Done?
    requires |damaged| == |packet| && damaged != packet
    requires HEADER_SIZE <= from && DifferWithin(packet, damaged, from)
    ensures Decode(damaged) == Threw(ChecksumFailed)
  {
    hide Crc32;
    hide Field;
    hide DecodePoints;
    SameField(packet, damaged, 0, 4);
    SameField(packet, damaged, 4, 2);
    SameField(packet, damaged, 6, 2);
    SameField(packet, damaged, 8, 4);
    SameField(packet, damaged, 12, 4);
    SameField(packet, damaged, 40, 4);
    SameField(packet, damaged, 44, 4);
    DamageIn(packet, damaged, from, HEADER_SIZE);
    BurstChangesCrc(packet[HEADER_SIZE..], damaged[HEADER_SIZE..], from - HEADER_SIZE);
  }

  /** A window behind `start` is a window of the bytes from `start` on. */
  lemma DamageIn(a: seq<Byte>, b: seq<Byte>, from: nat, start: nat)
    requires start <= |a| == |b| && start <= from
    requires DifferWithin(a, b, from) && a != b
    ensures DifferWithin(a[start..], b[start..], from - start)
    ensures a[start..] != b[start..]
  {
    forall i | 0 <= i < |a[start..]| && !(from - start <= i < from - start + 4)
      ensures a[start..][i] == b[start..][i]
    {
      assert a[start..][i] == a[i + start] && b[start..][i] == b[i + start];
    }
    assert a == a[..start] + a[start..] && b == b[..start] + b[start..];
    assert a[..start] == b[..start];
  }

  /** The packet's checksum leaves out its header: other numbers in bytes 16 to 39 are accepted. */
  lemma {:induction false} HeaderDamageAccepted(packet: seq<Byte>, damaged: seq<Byte>)
    requires Decode(packet).Done?
    requires |damaged| == |packet|
    requires forall i :: 0 <= i < |packet| && !(16 <= i < 40) ==> packet[i] == damaged[i]
    ensures Decode(damaged).Done? && Decode(damaged).value.points == Decode(packet).value.points
  {
    hide Crc32;
    hide Field;
    hide DecodePoints;
    SameField(packet, damaged, 0, 4);
    SameField(packet, damaged, 4, 2);
    SameField(packet, damaged, 6, 2);
    SameField(packet, damaged, 8, 4);
    SameField(packet, damaged, 12, 4);
    SameField(packet, damaged, 40, 4);
    SameField(packet, damaged, 44, 4);
    assert packet[HEADER_SIZE..] == damaged[HEADER_SIZE..];
  }

  // The code: bytes appended and read field by field.

  lemma {:induction false} PayloadAppend(a: seq<Point>, b: seq<Point>)
    ensures Payload(a + b) == Payload(a) + Payload(b)
  {
    hide PointBytes;
    if a == [] {
      assert a + b == b;
    } else {
      assert (a + b)[1..] == a[1..] + b;
      PayloadAppend(a[1..], b);
    }
  }

  lemma PayloadSnoc(points: seq<Point>, p: Point)
    ensures Payload(points + [p]) == Payload(points) + PointBytes(p)
  {
    PayloadAppend(points, [p]);
    hide PointBytes;
    assert [p][1..] == [];
    assert Payload([p]) == PointBytes(p) + Payload([]);
  }

  method AppendPoint(output: seq<Byte>, point: Point) returns (grown: seq<Byte>)
    ensures grown == output + PointBytes(point)
  {
    hide LittleEndian;
    Powers();
    grown := AppendLittleEndian([], ToUnsigned(point.x), 4);
    grown := AppendLittleEndian(grown, ToUnsigned(point.y), 4);
    grown := AppendLittleEndian(grown, point.u, 4);
    grown := AppendLittleEndian(grown, point.v, 4);
    grown := AppendLittleEndian(grown, point.quality, 4);
    grown := AppendLittleEndian(grown, point.exx, 4);
    grown := AppendLittleEndian(grown, point.eyy, 4);
    grown := AppendLittleEndian(grown, point.exy, 4);
    var flags := (if point.valid then 1 else 0) + (if point.strainValid then 2 else 0);
    grown := AppendLittleEndian(grown, flags, 4);
    assert [] + LittleEndian(ToUnsigned(point.x), 4) == LittleEndian(ToUnsigned(point.x), 4);
    grown := output + grown;
  }

  method BuildHeader(result: DicResult, payloadCrc: UInt32) returns (header: seq<Byte>)
    requires Encodable(result)
    ensures header == Header(result, payloadCrc)
  {
    hide LittleEndian;
    Powers();
    header := AppendLittleEndian([], MAGIC, 4);
    header := AppendLittleEndian(header, VERSION, 2);
    header := AppendLittleEndian(header, HEADER_SIZE, 2);
    header := AppendLittleEndian(header, HEADER_SIZE + |result.points| * POINT_SIZE, 4);
    header := AppendLittleEndian(header, POINT_SIZE, 4);
    header := AppendLittleEndian(header, result.sequence, 8);
    header := AppendLittleEndian(header, result.timestamp, 8);
    header := AppendLittleEndian(header, result.processingMs, 8);
    header := AppendLittleEndian(header, |result.points|, 4);
    header := AppendLittleEndian(header, payloadCrc, 4);
    assert [] + LittleEndian(MAGIC, 4) == LittleEndian(MAGIC, 4);
  }

  /** The header is reserved first and filled in when the payload's checksum is known. */
  method EncodeResultPacket(result: DicResult) returns (packet: Outcome<seq<Byte>>)
    ensures packet == Encode(result)
  {
    if |result.points| > MAXIMUM_POINT_COUNT {
      return Threw(TooManyPoints);
    }
    hide PointBytes;
    var packetSize := HEADER_SIZE + |result.points| * POINT_SIZE;
    assert packetSize <= 0xFFFF_FFFF;  // so the 32-bit size check passes
    var reserved: seq<Byte> := seq(HEADER_SIZE, i => 0);
    var output := reserved;
    for index := 0 to |result.points|
      invariant output == reserved + Payload(result.points[..index])
    {
      output := AppendPoint(output, result.points[index]);
      PayloadSnoc(result.points[..index], result.points[index]);
      assert result.points[..index + 1] == result.points[..index] + [result.points[index]];
    }
    assert result.points[..|result.points|] == result.points;
    assert output[HEADER_SIZE..] == Payload(result.points);
    var payloadCrc := ComputeCrc32(output[HEADER_SIZE..]);
    CrcFitsWord(Payload(result.points));
    var header := BuildHeader(result, payloadCrc);
    output := header + output[HEADER_SIZE..];
    return Done(output);
  }

  method ReadPoint(bytes: seq<Byte>) returns (point: Outcome<Point>)
    requires |bytes| == POINT_SIZE
    ensures point == DecodePoint(bytes)
  {
    FourBytes(bytes, 0);
    FourBytes(bytes, 4);
    FourBytes(bytes, 8);
    FourBytes(bytes, 12);
    FourBytes(bytes, 16);
    FourBytes(bytes, 20);
    FourBytes(bytes, 24);
    FourBytes(bytes, 28);
    hide Value;
    var offset := 0;
    var x, y, u, v, quality, exx, eyy, exy, flags;
    x, offset := ReadLittleEndian(bytes, offset, 4);
    y, offset := ReadLittleEndian(bytes, offset, 4);
    u, offset := ReadLittleEndian(bytes, offset, 4);
    v, offset := ReadLittleEndian(bytes, offset, 4);
    quality, offset := ReadLittleEndian(bytes, offset, 4);
    exx, offset := ReadLittleEndian(bytes, offset, 4);
    eyy, offset := ReadLittleEndian(bytes, offset, 4);
    exy, offset := ReadLittleEndian(bytes, offset, 4);
    flags, offset := ReadLittleEndian(bytes, offset, 4);
    if flags.value >= 4 {
      return Threw(FlagsInvalid);
    }
    return Done(Point(ToSigned(x.value), ToSigned(y.value), u.value, v.value, quality.value, flags.value % 2 == 1,
                      exx.value, eyy.value, exy.value, flags.value / 2 % 2 == 1));
  }

  /** What remains to be decoded after the points read so far. */
  function Continue(read: seq<Point>, rest: Outcome<seq<Point>>): Outcome<seq<Point>> {
    match rest
    case Threw(e) => Threw(e)
    case Done(points) => Done(read + points)
  }

  method ReadFormat(packet: seq<Byte>)
    returns (magic: nat, version: nat, headerSize: nat, declared: nat, pointSize: nat)
    requires |packet| >= HEADER_SIZE
    ensures magic == Field(packet, 0, 4) && version == Field(packet, 4, 2) && headerSize == Field(packet, 6, 2)
    ensures declared == Field(packet, 8, 4) && pointSize == Field(packet, 12, 4)
  {
    hide Value;
    var offset := 0;
    var a, b, c, d, e;
    a, offset := ReadLittleEndian(packet, offset, 4);
    b, offset := ReadLittleEndian(packet, offset, 2);
    c, offset := ReadLittleEndian(packet, offset, 2);
    d, offset := ReadLittleEndian(packet, offset, 4);
    e, offset := ReadLittleEndian(packet, offset, 4);
    return a.value, b.value, c.value, d.value, e.value;
  }

  method ReadContent(packet: seq<Byte>)
    returns (sequence: UInt64, timestamp: UInt64, processingMs: UInt64, pointCount: nat, crc: nat)
    requires |packet| >= HEADER_SIZE
    ensures sequence == Field(packet, 16, 8) && timestamp == Field(packet, 24, 8)
    ensures processingMs == Field(packet, 32, 8)
    ensures pointCount == Field(packet, 40, 4) && crc == Field(packet, 44, 4)
  {
    EightBytes(packet, 16);
    EightBytes(packet, 24);
    EightBytes(packet, 32);
    hide Value;
    var offset := 16;
    var a, b, c, d, e;
    a, offset := ReadLittleEndian(packet, offset, 8);
    b, offset := ReadLittleEndian(packet, offset, 8);
    c, offset := ReadLittleEndian(packet, offset, 8);
    d, offset := ReadLittleEndian(packet, offset, 4);
    e, offset := ReadLittleEndian(packet, offset, 4);
    return a.value, b.value, c.value, d.value, e.value;
  }

  method DecodeResultPacket(packet: seq<Byte>) returns (result: Outcome<DicResult>)
    ensures result == Decode(packet)
  {
    if |packet| < HEADER_SIZE {
      return Threw(PacketTruncated);
    }
    hide Field;
    hide Crc32;
    hide DecodePoints;
    var magic, version, headerSize, declared, pointSize := ReadFormat(packet);
    if magic != MAGIC || version != VERSION || headerSize != HEADER_SIZE || pointSize != POINT_SIZE {
      return Threw(HeaderUnsupported);
    }
    if declared != |packet| {
      return Threw(LengthMismatch);
    }
    var sequence, timestamp, processingMs, pointCount, expectedCrc := ReadContent(packet);
    if pointCount > MAXIMUM_POINT_COUNT || |packet| - HEADER_SIZE != pointCount * POINT_SIZE {
      return Threw(PointCountInvalid);
    }
    var payload := packet[HEADER_SIZE..];
    var crc := ComputeCrc32(payload);
    if crc != expectedCrc {
      return Threw(ChecksumFailed);
    }
    var points := ReadPoints(packet, pointCount);
    match points
    case Threw(e) => return Threw(e);
    case Done(ps) => return Done(DicResult(sequence, timestamp, processingMs, ps));
  }

  method ReadPoints(packet: seq<Byte>, pointCount: nat) returns (points: Outcome<seq<Point>>)
    requires |packet| == HEADER_SIZE + pointCount * POINT_SIZE
    ensures points == DecodePoints(packet[HEADER_SIZE..])
  {
    hide DecodePoint;
    var read: seq<Point> := [];
    var offset := HEADER_SIZE;
    ContinueNothing(DecodePoints(packet[HEADER_SIZE..]));
    for index := 0 to pointCount
      invariant offset == HEADER_SIZE + index * POINT_SIZE
      invariant DecodePoints(packet[HEADER_SIZE..]) == Continue(read, DecodePoints(packet[offset..]))
    {
      var point := ReadPoint(packet[offset..offset + POINT_SIZE]);
      assert packet[offset..][..POINT_SIZE] == packet[offset..offset + POINT_SIZE];
      assert packet[offset..][POINT_SIZE..] == packet[offset + POINT_SIZE..];
      match point
      case Threw(e) => return Threw(e);
      case Done(p) =>
        ContinueOne(read, p, DecodePoints(packet[offset + POINT_SIZE..]));
        read := read + [p];
      offset := offset + POINT_SIZE;
    }
    assert packet[offset..] == [];
    assert read + [] == read;
    return Done(read);
  }

  lemma ContinueNothing(rest: Outcome<seq<Point>>)
    ensures Continue([], rest) == rest
  {
    if rest.Done? {
      assert [] + rest.value == rest.value;
    }
  }

  lemma ContinueOne(read: seq<Point>, p: Point, rest: Outcome<seq<Point>>)
    ensures Continue(read + [p], rest)
            == Continue(read, match rest case Threw(e) => Threw(e) case Done(ps) => Done([p] + ps))
  {
    if rest.Done? {
      assert read + [p] + rest.value == read + ([p] + rest.value);
    }
  }
}
