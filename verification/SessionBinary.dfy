/** The session file results.p2dic: a 32-byte header, then one checksummed record per result. */
module SessionBinary {
  import opened Outcomes
  import opened Bytes
  import opened Crc
  import opened ResultPacket

  const FILE_MAGIC: nat := 0x3144_3250
  const RECORD_MAGIC: nat := 0x324D_5246
  const MAXIMUM_RECORD_SIZE: nat := 64 * 1024 * 1024
  const FILE_VERSION: nat := 1
  const FILE_HEADER_SIZE: nat := 32
  const RECORD_HEADER_SIZE: nat := 16

  /** The part of the session information that the file holds; doubles as bit patterns. */
  datatype SessionInfo = SessionInfo(width: UInt32, height: UInt32, fps: UInt64, millimetersPerPixel: UInt64)

  datatype Scan = Scan(info: SessionInfo, results: seq<DicResult>, validBytes: nat, truncatedOrCorrupt: bool)

  function FileHeader(info: SessionInfo): (bytes: seq<Byte>)
    ensures |bytes| == FILE_HEADER_SIZE
  {
    LittleEndian(FILE_MAGIC, 4) + LittleEndian(FILE_VERSION, 2) + LittleEndian(FILE_HEADER_SIZE, 2)
    + LittleEndian(info.width, 4) + LittleEndian(info.height, 4)
    + LittleEndian(info.fps, 8) + LittleEndian(info.millimetersPerPixel, 8)
  }

  function RecordHeader(packet: seq<Byte>): (bytes: seq<Byte>)
    ensures |bytes| == RECORD_HEADER_SIZE
  {
    LittleEndian(RECORD_MAGIC, 4) + LittleEndian(RECORD_HEADER_SIZE + |packet|, 4)
    + LittleEndian(Crc32(packet), 4) + LittleEndian(0, 4)
  }

  function Record(r: DicResult): seq<Byte> {
    RecordHeader(Packet(r)) + Packet(r)
  }

  function Records(results: seq<DicResult>): seq<Byte> {
    if results == [] then [] else Record(results[0]) + Records(results[1..])
  }

  function File(info: SessionInfo, results: seq<DicResult>): seq<Byte> {
    FileHeader(info) + Records(results)
  }

  // What a scan finds.

  datatype Found = Nothing | Found(result: DicResult, size: nat)

  /** The record at the start of `bytes`, if there is a whole and undamaged one. */
  function FirstRecord(bytes: seq<Byte>): (found: Found)
    ensures found.Found? ==> RECORD_HEADER_SIZE <= found.size <= |bytes|
  {
    if |bytes| < RECORD_HEADER_SIZE then Nothing
    else
      var size := Field(bytes, 4, 4);
      if Field(bytes, 0, 4) != RECORD_MAGIC || Field(bytes, 12, 4) != 0 ||
         size < RECORD_HEADER_SIZE || size > MAXIMUM_RECORD_SIZE then Nothing
      else if size > |bytes| || Crc32(bytes[RECORD_HEADER_SIZE..size]) != Field(bytes, 8, 4) then Nothing
      else
        match Decode(bytes[RECORD_HEADER_SIZE..size])
        case Threw(_) => Nothing
        case Done(r) => Found(r, size)
  }

  datatype Tail = Tail(results: seq<DicResult>, consumed: nat, corrupt: bool)

  function ScanRecords(bytes: seq<Byte>): (t: Tail)
    ensures t.consumed <= |bytes|
    decreases |bytes|
  {
    if bytes == [] then Tail([], 0, false)
    else
      match FirstRecord(bytes)
      case Nothing => Tail([], 0, true)
      case Found(r, size) =>
        var rest := ScanRecords(bytes[size..]);
        Tail([r] + rest.results, size + rest.consumed, rest.corrupt)
  }

  function ScanFile(file: seq<Byte>): Outcome<Scan> {
    if |file| < FILE_HEADER_SIZE then Threw(SessionHeaderTruncated)
    else
      FourBytes(file, 8); FourBytes(file, 12); EightBytes(file, 16); EightBytes(file, 24);
      var info := SessionInfo(Field(file, 8, 4), Field(file, 12, 4), Field(file, 16, 8), Field(file, 24, 8));
      if Field(file, 0, 4) != FILE_MAGIC || Field(file, 4, 2) != FILE_VERSION ||
         Field(file, 6, 2) != FILE_HEADER_SIZE || info.width == 0 || info.height == 0 then Threw(SessionHeaderInvalid)
      else
        var t := ScanRecords(file[FILE_HEADER_SIZE..]);
        Done(Scan(info, t.results, FILE_HEADER_SIZE + t.consumed, t.corrupt))
  }

  /** Every encodable result fits the record, so the size check on append passes. */
  lemma {:induction false} RecordFits(r: DicResult)
    requires Encodable(r)
    ensures |Packet(r)| <= MAXIMUM_RECORD_SIZE - RECORD_HEADER_SIZE
    ensures |Record(r)| == RECORD_HEADER_SIZE + |Packet(r)|
  {
  }

  lemma RecordFields(packet: seq<Byte>, tail: seq<Byte>)
    requires |packet| <= MAXIMUM_RECORD_SIZE - RECORD_HEADER_SIZE
    ensures var b := RecordHeader(packet) + tail;
            && Field(b, 0, 4) == RECORD_MAGIC && Field(b, 4, 4) == RECORD_HEADER_SIZE + |packet|
            && Field(b, 8, 4) == Crc32(packet) && Field(b, 12, 4) == 0
  {
    Powers();
    CrcFitsWord(packet);
    hide LittleEndian;
    hide Crc32;
    var b := RecordHeader(packet) + tail;
    FieldOfLittleEndian(b, 0, 4, RECORD_MAGIC);
    FieldOfLittleEndian(b, 4, 4, RECORD_HEADER_SIZE + |packet|);
    FieldOfLittleEndian(b, 8, 4, Crc32(packet));
    FieldOfLittleEndian(b, 12, 4, 0);
  }

  lemma FirstOfRecord(r: DicResult, tail: seq<Byte>)
    requires Encodable(r)
    ensures FirstRecord(Record(r) + tail) == Found(r, |Record(r)|)
  {
    hide Field;
    hide RecordHeader;
    hide Packet;
    hide Crc32;
    hide Decode;
    RecordFits(r);
    var packet := Packet(r);
    var bytes := Record(r) + tail;
    assert bytes == RecordHeader(packet) + (packet + tail);
    RecordFields(packet, packet + tail);
    assert bytes[RECORD_HEADER_SIZE..|Record(r)|] == packet;
    DecodeOfEncode(r);
  }

  /** A record cut short is not found, wherever the cut is. */
  lemma CutRecord(r: DicResult, n: nat)
    requires Encodable(r) && n < |Record(r)|
    ensures FirstRecord(Record(r)[..n]) == Nothing
  {
    hide Field;
    hide RecordHeader;
    hide Packet;
    hide Crc32;
    hide Decode;
    RecordFits(r);
    if n >= RECORD_HEADER_SIZE {
      var packet := Packet(r);
      assert Record(r)[..n] == RecordHeader(packet) + packet[..n - RECORD_HEADER_SIZE];
      RecordFields(packet, packet[..n - RECORD_HEADER_SIZE]);
    }
  }

  /** Records before the point where the rest begins are all found. */
  lemma {:induction false} ScanThrough(results: seq<DicResult>, rest: seq<Byte>)
    requires AllEncodable(results)
    ensures ScanRecords(Records(results) + rest)
         == (var t := ScanRecords(rest);
             Tail(results + t.results, |Records(results)| + t.consumed, t.corrupt))
    decreases |results|
  {
    hide Record;
    hide FirstRecord;
    var t := ScanRecords(rest);
    if results == [] {
      assert Records(results) + rest == rest;
      assert results + t.results == t.results;
    } else {
      var first, others := results[0], results[1..];
      var bytes := Records(results) + rest;
      assert bytes == Record(first) + (Records(others) + rest);
      RecordNonempty(first);
      FirstOfRecord(first, Records(others) + rest);
      assert bytes[|Record(first)|..] == Records(others) + rest;
      ScanThrough(others, rest);
      assert [first] + (others + t.results) == results + t.results;
    }
  }

  lemma RecordNonempty(r: DicResult)
    ensures |Record(r)| >= RECORD_HEADER_SIZE
  {
  }

  lemma {:induction false} RecordsAppend(a: seq<DicResult>, b: seq<DicResult>)
    ensures Records(a + b) == Records(a) + Records(b)
    decreases |a|
  {
    hide Record;
    if a == [] {
      assert a + b == b;
    } else {
      assert (a + b)[1..] == a[1..] + b;
      RecordsAppend(a[1..], b);
    }
  }

  lemma ScanHeader(info: SessionInfo, rest: seq<Byte>)
    requires info.width > 0 && info.height > 0
    ensures ScanFile(FileHeader(info) + rest)
         == (var t := ScanRecords(rest);
             Done(Scan(info, t.results, FILE_HEADER_SIZE + t.consumed, t.corrupt)))
  {
    hide LittleEndian;
    hide ScanRecords;
    Powers();
    var file := FileHeader(info) + rest;
    FieldOfLittleEndian(file, 0, 4, FILE_MAGIC);
    FieldOfLittleEndian(file, 4, 2, FILE_VERSION);
    FieldOfLittleEndian(file, 6, 2, FILE_HEADER_SIZE);
    FieldOfLittleEndian(file, 8, 4, info.width);
    FieldOfLittleEndian(file, 12, 4, info.height);
    FieldOfLittleEndian(file, 16, 8, info.fps);
    FieldOfLittleEndian(file, 24, 8, info.millimetersPerPixel);
    assert file[FILE_HEADER_SIZE..] == rest;
  }

  /** What a scan of whole records and then `rest` finds. */
  lemma ScanWholeThen(info: SessionInfo, results: seq<DicResult>, rest: seq<Byte>)
    requires info.width > 0 && info.height > 0 && AllEncodable(results)
    ensures ScanFile(File(info, results) + rest)
         == (var t := ScanRecords(rest);
             Done(Scan(info, results + t.results, |File(info, results)| + t.consumed, t.corrupt)))
  {
    hide ScanRecords;
    hide Records;
    hide FileHeader;
    assert File(info, results) + rest == FileHeader(info) + (Records(results) + rest);
    ScanHeader(info, Records(results) + rest);
    ScanThrough(results, rest);
  }

  lemma {:induction false} ScanOfWritten(info: SessionInfo, results: seq<DicResult>)
    requires info.width > 0 && info.height > 0 && AllEncodable(results)
    ensures ScanFile(File(info, results)) == Done(Scan(info, results, |File(info, results)|, false))
  {
    hide FileHeader;
    hide Records;
    assert File(info, results) + [] == File(info, results);
    ScanWholeThen(info, results, []);
    assert results + [] == results;
  }

  /** The first `k` records, and no more, lie within the first `n` bytes of the file. */
  predicate CutAt(info: SessionInfo, results: seq<DicResult>, n: nat, k: nat) {
    && k <= |results|
    && |File(info, results[..k])| <= n
    && (k < |results| ==> n < |File(info, results[..k + 1])|)
  }

  lemma {:induction false} CutExists(info: SessionInfo, results: seq<DicResult>, n: nat) returns (k: nat)
    requires FILE_HEADER_SIZE <= n <= |File(info, results)|
    ensures CutAt(info, results, n, k)
    decreases |results|
  {
    hide Record;
    hide FileHeader;
    hide Records;
    if |File(info, results)| <= n {
      k := |results|;
      assert results[..k] == results;
    } else {
      NoRecords();
      var shorter := results[..|results| - 1];
      if n < |File(info, shorter)| {
        k := CutExists(info, shorter, n);
        assert shorter[..k] == results[..k];
        assert k < |shorter| ==> shorter[..k + 1] == results[..k + 1];
        assert results[..|results| - 1] == shorter;
      } else {
        k := |results| - 1;
        assert results[..k] == shorter && results[..k + 1] == results;
      }
    }
  }

  lemma NoRecords()
    ensures Records([]) == []
  {
  }

  /** A file cut anywhere behind its header scans to its longest prefix of whole records. */
  lemma {:induction false} ScanOfCut(info: SessionInfo, results: seq<DicResult>, n: nat, k: nat)
    requires info.width > 0 && info.height > 0 && AllEncodable(results)
    requires n <= |File(info, results)| && CutAt(info, results, n, k)
    ensures var boundary := |File(info, results[..k])|;
            ScanFile(File(info, results)[..n]) == Done(Scan(info, results[..k], boundary, n != boundary))
  {
    hide FileHeader;
    hide Record;
    hide FirstRecord;
    hide ScanFile;
    var whole := results[..k];
    if k == |results| {
      assert whole == results;
      assert File(info, results)[..n] == File(info, results);
      ScanOfWritten(info, results);
    } else {
      var cut := n - |File(info, whole)|;
      SplitFile(info, results, k);
      var partial := Record(results[k])[..cut];
      assert File(info, results)[..n] == File(info, whole) + partial;
      ScanWholeThen(info, whole, partial);
      CutRecord(results[k], cut);
      assert whole + [] == whole;
      assert cut == 0 ==> partial == [];
    }
  }

  lemma SplitFile(info: SessionInfo, results: seq<DicResult>, k: nat)
    requires k < |results|
    ensures File(info, results[..k + 1]) == File(info, results[..k]) + Record(results[k])
    ensures File(info, results) == File(info, results[..k]) + Record(results[k]) + Records(results[k + 1..])
  {
    hide FileHeader;
    hide Record;
    var whole, rest := results[..k], results[k..];
    assert results == whole + rest;
    RecordsAppend(whole, rest);
    assert rest[0] == results[k] && rest[1..] == results[k + 1..];
    assert results[..k + 1] == whole + [results[k]];
    RecordsAppend(whole, [results[k]]);
    assert [results[k]][1..] == [];
    assert Records([results[k]]) == Record(results[k]) + Records([]);
  }

  lemma {:induction false} ScanOfHeaderCut(file: seq<Byte>, n: nat)
    requires n <= |file| && n < FILE_HEADER_SIZE
    ensures ScanFile(file[..n]) == Threw(SessionHeaderTruncated)
  {
  }

  /** Damage within four consecutive bytes of one record's packet costs that record and what follows it. */
  lemma {:induction false} ScanOfDamaged(
      info: SessionInfo, results: seq<DicResult>, k: nat, damaged: seq<Byte>, from: nat)
    requires info.width > 0 && info.height > 0 && AllEncodable(results) && k < |results|
    requires |damaged| == |Packet(results[k])| && damaged != Packet(results[k])
    requires DifferWithin(Packet(results[k]), damaged, from)
    ensures var file :=
            File(info, results[..k]) + (RecordHeader(Packet(results[k])) + damaged) + Records(results[k + 1..]);
            ScanFile(file) == Done(Scan(info, results[..k], |File(info, results[..k])|, true))
  {
    hide FileHeader;
    hide Packet;
    hide ScanFile;
    hide File;
    hide RecordHeader;
    hide Crc32;
    hide Decode;
    hide Field;
    hide Records;
    var packet := Packet(results[k]);
    var rest := (RecordHeader(packet) + damaged) + Records(results[k + 1..]);
    assert File(info, results[..k]) + (RecordHeader(packet) + damaged) + Records(results[k + 1..])
           == File(info, results[..k]) + rest;
    ScanWholeThen(info, results[..k], rest);
    RecordFits(results[k]);
    assert rest == RecordHeader(packet) + (damaged + Records(results[k + 1..]));
    RecordFields(packet, damaged + Records(results[k + 1..]));
    assert rest[RECORD_HEADER_SIZE..RECORD_HEADER_SIZE + |packet|] == damaged;
    BurstChangesCrc(packet, damaged, from);
    assert FirstRecord(rest) == Nothing;
    assert results[..k] + [] == results[..k];
  }

  // Whatever the bytes are, what a scan reports is a clean file of its own.

  lemma FoundIsRecord(bytes: seq<Byte>)
    requires FirstRecord(bytes).Found?
    ensures var f := FirstRecord(bytes);
            Encodable(f.result) && bytes[..f.size] == Record(f.result)
  {
    hide LittleEndian;
    hide Crc32;
    hide Decode;
    hide Packet;
    var f := FirstRecord(bytes);
    EncodeOfDecode(bytes[RECORD_HEADER_SIZE..f.size]);
    EncodeIsPacket(f.result);
    LittleEndianOfField(bytes, 0, 4);
    LittleEndianOfField(bytes, 4, 4);
    LittleEndianOfField(bytes, 8, 4);
    LittleEndianOfField(bytes, 12, 4);
    assert bytes[..f.size] == bytes[0..4] + bytes[4..8] + bytes[8..12] + bytes[12..16] + bytes[16..f.size];
  }

  lemma {:induction false} ConsumedIsRecords(bytes: seq<Byte>)
    ensures var t := ScanRecords(bytes);
            && AllEncodable(t.results) && bytes[..t.consumed] == Records(t.results)
            && (!t.corrupt <==> t.consumed == |bytes|)
    decreases |bytes|
  {
    hide Record;
    hide FirstRecord;
    var t := ScanRecords(bytes);
    if bytes != [] && FirstRecord(bytes).Found? {
      var f := FirstRecord(bytes);
      FoundIsRecord(bytes);
      ConsumedIsRecords(bytes[f.size..]);
      var rest := ScanRecords(bytes[f.size..]);
      assert t.results[1..] == rest.results;
      assert bytes[..t.consumed] == bytes[..f.size] + bytes[f.size..][..rest.consumed];
    }
  }

  /** Recovery: truncating any scanned file to its valid bytes gives a clean file with the same results. */
  lemma {:induction false} TruncationRecovers(file: seq<Byte>)
    requires ScanFile(file).Done?
    ensures var scan := ScanFile(file).value;
            && FILE_HEADER_SIZE <= scan.validBytes <= |file|
            && file[..scan.validBytes] == File(scan.info, scan.results)
            && ScanFile(file[..scan.validBytes]) == Done(scan.(truncatedOrCorrupt := false))
            && (!scan.truncatedOrCorrupt <==> scan.validBytes == |file|)
  {
    hide ScanFile;
    hide ScanRecords;
    hide File;
    hide FileHeader;
    hide Records;
    ScanParts(file);
    ConsumedIsRecords(file[FILE_HEADER_SIZE..]);
    HeaderOfScanned(file);
    var scan := ScanFile(file).value;
    FileIs(scan.info, scan.results);
    assert file[..scan.validBytes]
           == file[..FILE_HEADER_SIZE] + file[FILE_HEADER_SIZE..][..scan.validBytes - FILE_HEADER_SIZE];
    ScanOfWritten(scan.info, scan.results);
  }

  lemma FileIs(info: SessionInfo, results: seq<DicResult>)
    ensures File(info, results) == FileHeader(info) + Records(results)
  {
  }

  lemma ScanParts(file: seq<Byte>)
    requires ScanFile(file).Done?
    ensures |file| >= FILE_HEADER_SIZE
    ensures var scan := ScanFile(file).value;
            var t := ScanRecords(file[FILE_HEADER_SIZE..]);
            && scan.results == t.results && scan.validBytes == FILE_HEADER_SIZE + t.consumed
            && scan.truncatedOrCorrupt == t.corrupt && scan.info.width > 0 && scan.info.height > 0
  {
    hide Field;
    hide ScanRecords;
  }

  lemma HeaderOfScanned(file: seq<Byte>)
    requires ScanFile(file).Done?
    ensures file[..FILE_HEADER_SIZE] == FileHeader(ScanFile(file).value.info)
  {
    hide LittleEndian;
    hide ScanRecords;
    LittleEndianOfField(file, 0, 4);
    LittleEndianOfField(file, 4, 2);
    LittleEndianOfField(file, 6, 2);
    LittleEndianOfField(file, 8, 4);
    LittleEndianOfField(file, 12, 4);
    LittleEndianOfField(file, 16, 8);
    LittleEndianOfField(file, 24, 8);
    assert file[..FILE_HEADER_SIZE]
           == file[0..4] + file[4..6] + file[6..8] + file[8..12] + file[12..16] + file[16..24] + file[24..32];
  }

  // The code that writes and scans.

  /** An output file stream: the bytes it took, and whether it is still good. */
  datatype Stream = Stream(bytes: seq<Byte>, good: bool)

  /** Writing: a device with room for fewer bytes takes those and the stream fails; a failed stream takes nothing. */
  function Put(s: Stream, data: seq<Byte>, room: nat): Stream {
    if !s.good then s
    else if |data| <= room then s.(bytes := s.bytes + data)
    else Stream(s.bytes + data[..room], false)
  }

  function RoomAfter(s: Stream, data: seq<Byte>, room: nat): nat {
    if s.good && |data| <= room then room - |data| else 0
  }

  class SessionBinaryWriter {
    var isOpen: bool
    var stream: Stream

    constructor ()
      ensures !isOpen && stream.bytes == []
    {
      isOpen := false;
      stream := Stream([], false);
    }

    /** Creates the file; `creates` is whether the file system allows that, `room` how much it then takes. */
    method Open(info: SessionInfo, creates: bool, room: nat) returns (o: Outcome<()>)
      modifies this
      ensures old(isOpen) ==> o == Threw(SessionAlreadyOpen) && isOpen && stream == old(stream)
      ensures !old(isOpen) && !creates ==> o == Threw(StreamFailed) && !isOpen && stream == old(stream)
      ensures !old(isOpen) && creates ==>
                isOpen && stream == Put(Stream([], true), FileHeader(info), room)
      ensures o == Done(()) <==> !old(isOpen) && creates && FILE_HEADER_SIZE <= room
      ensures o == Done(()) ==> stream == Stream(FileHeader(info), true)
    {
      if isOpen {
        return Threw(SessionAlreadyOpen);
      }
      if !creates {
        return Threw(StreamFailed);
      }
      isOpen := true;
      stream := Stream([], true);
      var header := BuildFileHeader(info);
      stream := Put(stream, header, room);
      assert [] + header == header;
      if !stream.good {
        return Threw(StreamFailed);
      }
      return Done(());
    }

    /** Appends one record. An exception leaves a prefix of it at most, and then the stream has failed. */
    method Append(result: DicResult, room: nat) returns (o: Outcome<()>)
      modifies this
      ensures isOpen == old(isOpen)
      ensures !old(isOpen) ==> o == Threw(SessionNotOpen) && stream == old(stream)
      ensures old(isOpen) && !Encodable(result) ==> o == Threw(TooManyPoints) && stream == old(stream)
      ensures old(isOpen) && Encodable(result) ==>
                && stream == Put(old(stream), Record(result), room)
                && o == if stream.good then Done(()) else Threw(StreamFailed)
    {
      if !isOpen {
        return Threw(SessionNotOpen);
      }
      var packet := EncodeResultPacket(result);
      if packet.Threw? {
        return Threw(packet.error);
      }
      RecordFits(result);
      assert |packet.value| <= MAXIMUM_RECORD_SIZE - RECORD_HEADER_SIZE;  // so the record size check passes
      var header := BuildRecordHeader(packet.value);
      var left := RoomAfter(stream, header, room);
      stream := Put(stream, header, room);
      stream := Put(stream, packet.value, left);
      PutTwice(old(stream), header, packet.value, room);
      if !stream.good {
        return Threw(StreamFailed);
      }
      return Done(());
    }

    method Close()
      modifies this
      ensures !isOpen && stream == old(stream)
    {
      isOpen := false;
    }
  }

  lemma PutTwice(s: Stream, a: seq<Byte>, b: seq<Byte>, room: nat)
    ensures Put(Put(s, a, room), b, RoomAfter(s, a, room)) == Put(s, a + b, room)
  {
    if s.good && |a| <= room {
      assert (s.bytes + a) + b == s.bytes + (a + b);
      if |a + b| > room {
        assert (s.bytes + a) + b[..room - |a|] == s.bytes + (a + b)[..room];
      }
    } else if s.good {
      assert a[..room] == (a + b)[..room];
    }
  }

  method BuildFileHeader(info: SessionInfo) returns (header: seq<Byte>)
    ensures header == FileHeader(info)
  {
    hide LittleEndian;
    Powers();
    header := AppendLittleEndian([], FILE_MAGIC, 4);
    header := AppendLittleEndian(header, FILE_VERSION, 2);
    header := AppendLittleEndian(header, FILE_HEADER_SIZE, 2);
    header := AppendLittleEndian(header, info.width, 4);
    header := AppendLittleEndian(header, info.height, 4);
    header := AppendLittleEndian(header, info.fps, 8);
    header := AppendLittleEndian(header, info.millimetersPerPixel, 8);
    assert [] + LittleEndian(FILE_MAGIC, 4) == LittleEndian(FILE_MAGIC, 4);
  }

  method BuildRecordHeader(packet: seq<Byte>) returns (header: seq<Byte>)
    requires |packet| <= MAXIMUM_RECORD_SIZE - RECORD_HEADER_SIZE
    ensures header == RecordHeader(packet)
  {
    hide LittleEndian;
    hide Crc32;
    Powers();
    CrcFitsWord(packet);
    header := AppendLittleEndian([], RECORD_MAGIC, 4);
    header := AppendLittleEndian(header, RECORD_HEADER_SIZE + |packet|, 4);
    var crc := ComputeCrc32(packet);
    header := AppendLittleEndian(header, crc, 4);
    header := AppendLittleEndian(header, 0, 4);
    assert [] + LittleEndian(RECORD_MAGIC, 4) == LittleEndian(RECORD_MAGIC, 4);
  }

  /** Reads `size` bytes or reports that the file has fewer left. */
  method ReadExact(file: seq<Byte>, offset: nat, size: nat) returns (whole: bool, bytes: seq<Byte>)
    requires offset <= |file|
    ensures whole <==> offset + size <= |file|
    ensures whole ==> bytes == file[offset..offset + size]
  {
    if |file| - offset < size {
      return false, file[offset..];
    }
    return true, file[offset..offset + size];
  }

  method ReadFileHeader(bytes: seq<Byte>)
    returns (magic: nat, version: nat, headerSize: nat, info: SessionInfo)
    requires |bytes| == FILE_HEADER_SIZE
    ensures magic == Field(bytes, 0, 4) && version == Field(bytes, 4, 2) && headerSize == Field(bytes, 6, 2)
    ensures info.width == Field(bytes, 8, 4) && info.height == Field(bytes, 12, 4)
    ensures info.fps == Field(bytes, 16, 8) && info.millimetersPerPixel == Field(bytes, 24, 8)
  {
    FourBytes(bytes, 8);
    FourBytes(bytes, 12);
    EightBytes(bytes, 16);
    EightBytes(bytes, 24);
    hide Value;
    var offset := 0;
    var a, b, c, w, h, f, m;
    a, offset := ReadLittleEndian(bytes, offset, 4);
    b, offset := ReadLittleEndian(bytes, offset, 2);
    c, offset := ReadLittleEndian(bytes, offset, 2);
    w, offset := ReadLittleEndian(bytes, offset, 4);
    h, offset := ReadLittleEndian(bytes, offset, 4);
    f, offset := ReadLittleEndian(bytes, offset, 8);
    m, offset := ReadLittleEndian(bytes, offset, 8);
    return a.value, b.value, c.value, SessionInfo(w.value, h.value, f.value, m.value);
  }

  method ReadRecordHeader(bytes: seq<Byte>) returns (magic: nat, size: nat, crc: nat, reserved: nat)
    requires |bytes| == RECORD_HEADER_SIZE
    ensures magic == Field(bytes, 0, 4) && size == Field(bytes, 4, 4)
    ensures crc == Field(bytes, 8, 4) && reserved == Field(bytes, 12, 4)
  {
    hide Value;
    var offset := 0;
    var a, b, c, d;
    a, offset := ReadLittleEndian(bytes, offset, 4);
    b, offset := ReadLittleEndian(bytes, offset, 4);
    c, offset := ReadLittleEndian(bytes, offset, 4);
    d, offset := ReadLittleEndian(bytes, offset, 4);
    return a.value, b.value, c.value, d.value;
  }

  /** One turn of the scan loop: the record at `begin`, or a reason to stop. */
  method ReadRecord(file: seq<Byte>, begin: nat) returns (found: Found)
    requires begin <= |file|
    ensures found == FirstRecord(file[begin..])
  {
    hide Field;
    hide Crc32;
    hide Decode;
    ghost var rest := file[begin..];
    var whole, bytes := ReadExact(file, begin, RECORD_HEADER_SIZE);
    if !whole {
      return Nothing;
    }
    var magic, size, expectedCrc, reserved := ReadRecordHeader(bytes);
    SameField(bytes, rest[..RECORD_HEADER_SIZE], 0, 4);
    FieldOfPrefix(rest, RECORD_HEADER_SIZE, 0, 4);
    FieldOfPrefix(rest, RECORD_HEADER_SIZE, 4, 4);
    FieldOfPrefix(rest, RECORD_HEADER_SIZE, 8, 4);
    FieldOfPrefix(rest, RECORD_HEADER_SIZE, 12, 4);
    assert bytes == rest[..RECORD_HEADER_SIZE];
    if magic != RECORD_MAGIC || reserved != 0 || size < RECORD_HEADER_SIZE || size > MAXIMUM_RECORD_SIZE {
      return Nothing;
    }
    whole, bytes := ReadExact(file, begin + RECORD_HEADER_SIZE, size - RECORD_HEADER_SIZE);
    if !whole {
      return Nothing;
    }
    assert bytes == rest[RECORD_HEADER_SIZE..size];
    var crc := ComputeCrc32(bytes);
    if crc != expectedCrc {
      return Nothing;
    }
    var result := DecodeResultPacket(bytes);
    match result
    case Threw(_) => return Nothing;
    case Done(r) => return Found(r, size);
  }

  lemma FieldOfPrefix(bytes: seq<Byte>, n: nat, at: nat, width: nat)
    requires at + width <= n <= |bytes|
    ensures Field(bytes[..n], at, width) == Field(bytes, at, width)
  {
    hide Value;
    assert bytes[..n][at..at + width] == bytes[at..at + width];
  }

  method ScanSessionBinary(file: seq<Byte>) returns (outcome: Outcome<Scan>)
    ensures outcome == ScanFile(file)
  {
    hide Field;
    hide FirstRecord;
    var whole, bytes := ReadExact(file, 0, FILE_HEADER_SIZE);
    if !whole {
      return Threw(SessionHeaderTruncated);
    }
    var magic, version, headerSize, info := ReadFileHeader(bytes);
    assert bytes == file[..FILE_HEADER_SIZE];
    FieldOfPrefix(file, FILE_HEADER_SIZE, 0, 4);
    FieldOfPrefix(file, FILE_HEADER_SIZE, 4, 2);
    FieldOfPrefix(file, FILE_HEADER_SIZE, 6, 2);
    FieldOfPrefix(file, FILE_HEADER_SIZE, 8, 4);
    FieldOfPrefix(file, FILE_HEADER_SIZE, 12, 4);
    FieldOfPrefix(file, FILE_HEADER_SIZE, 16, 8);
    FieldOfPrefix(file, FILE_HEADER_SIZE, 24, 8);
    if magic != FILE_MAGIC || version != FILE_VERSION || headerSize != FILE_HEADER_SIZE || info.width == 0
        || info.height == 0 {
      return Threw(SessionHeaderInvalid);
    }
    var scan := ScanLoop(file, info);
    return Done(scan);
  }

  method ScanLoop(file: seq<Byte>, info: SessionInfo) returns (scan: Scan)
    requires |file| >= FILE_HEADER_SIZE
    ensures var t := ScanRecords(file[FILE_HEADER_SIZE..]);
            scan == Scan(info, t.results, FILE_HEADER_SIZE + t.consumed, t.corrupt)
  {
    hide FirstRecord;
    ghost var all := ScanRecords(file[FILE_HEADER_SIZE..]);
    scan := Scan(info, [], FILE_HEADER_SIZE, false);
    while scan.validBytes < |file|
      invariant FILE_HEADER_SIZE <= scan.validBytes <= |file| && scan.info == info && !scan.truncatedOrCorrupt
      invariant var rest := ScanRecords(file[scan.validBytes..]);
                && all.results == scan.results + rest.results
                && FILE_HEADER_SIZE + all.consumed == scan.validBytes + rest.consumed
                && all.corrupt == rest.corrupt
      decreases |file| - scan.validBytes
    {
      var found := ReadRecord(file, scan.validBytes);
      ghost var rest := file[scan.validBytes..];
      match found {
        case Nothing =>
          assert scan.results + [] == scan.results;
          scan := scan.(truncatedOrCorrupt := true);
          return;
        case Found(r, size) =>
          assert rest[size..] == file[scan.validBytes + size..];
          assert scan.results + ([r] + ScanRecords(rest[size..]).results)
                 == scan.results + [r] + ScanRecords(rest[size..]).results;
          scan := scan.(results := scan.results + [r], validBytes := scan.validBytes + size);
      }
    }
    assert file[scan.validBytes..] == [];
    assert scan.results + [] == scan.results;
  }
}
