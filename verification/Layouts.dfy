/** Where each field of a packet and of a session file lies, byte by byte. */
module Layouts {
  import opened Outcomes
  import opened Bytes
  import opened Crc
  import opened ResultPacket
  import opened SessionBinary

  lemma MagicBytes()
    ensures LittleEndian(0x3243_4944, 4) == [0x44, 0x49, 0x43, 0x32]
    ensures LittleEndian(0x3144_3250, 4) == [0x50, 0x32, 0x44, 0x31]
    ensures LittleEndian(0x324D_5246, 4) == [0x46, 0x52, 0x4D, 0x32]
  {
    LittleEndianFour(0x3243_4944);
    LittleEndianFour(0x3144_3250);
    LittleEndianFour(0x324D_5246);
  }

  lemma LittleEndianFour(value: nat)
    ensures LittleEndian(value, 4)
            == [value % 256, value / 256 % 256, value / 256 / 256 % 256, value / 256 / 256 / 256 % 256]
  {
    assert LittleEndian(value, 4) == [value % 256] + LittleEndian(value / 256, 3);
    assert LittleEndian(value / 256, 3) == [value / 256 % 256] + LittleEndian(value / 256 / 256, 2);
    assert LittleEndian(value / 256 / 256, 2) == [value / 256 / 256 % 256] + LittleEndian(value / 256 / 256 / 256, 1);
    assert LittleEndian(value / 256 / 256 / 256, 1)
           == [value / 256 / 256 / 256 % 256] + LittleEndian(value / 256 / 256 / 256 / 256, 0);
  }

  /** The header: "DIC2", version, sizes, the frame's numbers, and the checksum of everything behind the header. */
  lemma {:induction false} PacketLayout(r: DicResult)
    requires Encodable(r)
    ensures var p := Packet(r);
            && |p| == 48 + 36 * |r.points| && p[0..4] == [0x44, 0x49, 0x43, 0x32]
            && Field(p, 4, 2) == 1 && Field(p, 6, 2) == 48 && Field(p, 8, 4) == |p| && Field(p, 12, 4) == 36
            && Field(p, 16, 8) == r.sequence && Field(p, 24, 8) == r.timestamp && Field(p, 32, 8) == r.processingMs
            && Field(p, 40, 4) == |r.points| && Field(p, 44, 4) == Crc32(p[48..])
  {
    hide LittleEndian;
    hide Field;
    hide Payload;
    hide Crc32;
    MagicBytes();
    CrcFitsWord(Payload(r.points));
    HeaderFields(r, Crc32(Payload(r.points)), Payload(r.points));
    assert Packet(r)[48..] == Payload(r.points);
    assert Packet(r)[0..4] == LittleEndian(MAGIC, 4);
  }

  /** Results of up to a million points are encoded, and no others. */
  lemma {:induction false} EncodedExactly(r: DicResult)
    ensures Encode(r) == if |r.points| <= 1_000_000 then Done(Packet(r)) else Threw(TooManyPoints)
  {
    hide Packet;
  }

  lemma {:induction false} PayloadSlice(points: seq<Point>, i: nat)
    requires i < |points|
    ensures 36 * i + 36 <= |Payload(points)| && Payload(points)[36 * i..36 * i + 36] == PointBytes(points[i])
  {
    hide PointBytes;
    if i > 0 {
      PayloadSlice(points[1..], i - 1);
      var rest := Payload(points[1..]);
      assert Payload(points) == PointBytes(points[0]) + rest;
      assert Payload(points)[36 * i..36 * i + 36] == rest[36 * (i - 1)..36 * (i - 1) + 36];
    }
  }

  /** Point i: position, displacement, quality, strain, and one bit each for valid and for a valid strain. */
  lemma {:induction false} PointLayout(r: DicResult, i: nat)
    requires Encodable(r) && i < |r.points|
    ensures 48 + 36 * i + 36 <= |Packet(r)|
    ensures var b, q := Packet(r)[48 + 36 * i..48 + 36 * i + 36], r.points[i];
            && Field(b, 0, 4) == (if q.x < 0 then q.x + 0x1_0000_0000 else q.x)
            && Field(b, 4, 4) == (if q.y < 0 then q.y + 0x1_0000_0000 else q.y)
            && Field(b, 8, 4) == q.u && Field(b, 12, 4) == q.v && Field(b, 16, 4) == q.quality
            && Field(b, 20, 4) == q.exx && Field(b, 24, 4) == q.eyy && Field(b, 28, 4) == q.exy
            && Field(b, 32, 4) == (if q.valid then 1 else 0) + (if q.strainValid then 2 else 0)
  {
    hide Header;
    hide Field;
    hide PointBytes;
    hide Crc32;
    PayloadSlice(r.points, i);
    PointFields(r.points[i]);
    var payload := Payload(r.points);
    hide Payload;
    assert Packet(r)[48 + 36 * i..48 + 36 * i + 36] == payload[36 * i..36 * i + 36];
  }

  /** The file's header: "P2D1", version, its size, the image size, frame rate and scale. */
  lemma {:induction false} FileLayout(info: SessionInfo, results: seq<DicResult>)
    ensures var f := File(info, results);
            && |f| >= 32 && f[0..4] == [0x50, 0x32, 0x44, 0x31] && Field(f, 4, 2) == 1 && Field(f, 6, 2) == 32
            && Field(f, 8, 4) == info.width && Field(f, 12, 4) == info.height
            && Field(f, 16, 8) == info.fps && Field(f, 24, 8) == info.millimetersPerPixel
  {
    FileHeaderFields(info, Records(results));
    hide Records;
    hide Field;
  }

  lemma FileHeaderFields(info: SessionInfo, tail: seq<Byte>)
    ensures var f := FileHeader(info) + tail;
            && f[0..4] == [0x50, 0x32, 0x44, 0x31] && Field(f, 4, 2) == 1 && Field(f, 6, 2) == 32
            && Field(f, 8, 4) == info.width && Field(f, 12, 4) == info.height
            && Field(f, 16, 8) == info.fps && Field(f, 24, 8) == info.millimetersPerPixel
  {
    hide LittleEndian;
    hide Field;
    Powers();
    hide Pow256;
    MagicBytes();
    var s1 := LittleEndian(FILE_MAGIC, 4);
    var s2 := s1 + LittleEndian(FILE_VERSION, 2);
    var s3 := s2 + LittleEndian(FILE_HEADER_SIZE, 2);
    var s4 := s3 + LittleEndian(info.width, 4);
    var s5 := s4 + LittleEndian(info.height, 4);
    var s6 := s5 + LittleEndian(info.fps, 8);
    var s7 := s6 + LittleEndian(info.millimetersPerPixel, 8);
    assert FileHeader(info) == s7;
    var f := s7 + tail;
    assert f[0..4] == s1;
    assert f[4..6] == LittleEndian(FILE_VERSION, 2);
    assert f[6..8] == LittleEndian(FILE_HEADER_SIZE, 2);
    assert f[8..12] == LittleEndian(info.width, 4);
    assert f[12..16] == LittleEndian(info.height, 4);
    assert f[16..24] == LittleEndian(info.fps, 8);
    assert f[24..32] == LittleEndian(info.millimetersPerPixel, 8);
    FieldOfLittleEndian(f, 4, 2, FILE_VERSION);
    FieldOfLittleEndian(f, 6, 2, FILE_HEADER_SIZE);
    FieldOfLittleEndian(f, 8, 4, info.width);
    FieldOfLittleEndian(f, 12, 4, info.height);
    FieldOfLittleEndian(f, 16, 8, info.fps);
    FieldOfLittleEndian(f, 24, 8, info.millimetersPerPixel);
  }

  /** A record: "FRM2", its size, the checksum of its packet, four zero bytes, the packet. */
  lemma {:induction false} RecordLayout(r: DicResult)
    requires Encodable(r)
    ensures var b := Record(r);
            && |b| == 16 + |Packet(r)| && b[0..4] == [0x46, 0x52, 0x4D, 0x32] && b[16..] == Packet(r)
            && Field(b, 4, 4) == |b| && Field(b, 8, 4) == Crc32(b[16..]) && Field(b, 12, 4) == 0
  {
    hide *;
    RecordFits(r);
    RecordIs(r);
    RecordFields(Packet(r), Packet(r));
    RecordParts(Packet(r));
  }

  lemma RecordIs(r: DicResult)
    ensures Record(r) == RecordHeader(Packet(r)) + Packet(r)
  {
    hide RecordHeader;
    hide Packet;
  }

  lemma RecordParts(packet: seq<Byte>)
    ensures var b := RecordHeader(packet) + packet; b[0..4] == [0x46, 0x52, 0x4D, 0x32] && b[16..] == packet
    ensures RECORD_HEADER_SIZE == 16
  {
    MagicBytes();
    hide LittleEndian;
    hide Crc32;
    var b := RecordHeader(packet) + packet;
    assert b[0..4] == LittleEndian(RECORD_MAGIC, 4);
  }
}
