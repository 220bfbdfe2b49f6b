/** The result stream: a publisher that keeps only the newest packet, and a client that reassembles packets. */
module ResultStream {
  import opened Outcomes
  import opened Bytes
  import opened Crc
  import opened ResultPacket

  const MAXIMUM_PACKET_SIZE: nat := HEADER_SIZE + 1_000_000 * POINT_SIZE

  function Packets(results: seq<DicResult>): seq<Byte> {
    if results == [] then [] else Packet(results[0]) + Packets(results[1..])
  }

  /** What the client makes of its buffer: results, what it keeps, and whether the protocol failed. */
  datatype Drained = Drained(results: seq<DicResult>, rest: seq<Byte>, failed: bool)

  datatype Front = Incomplete | Malformed | Complete(result: DicResult, size: nat)

  /** The packet at the front of the buffer. */
  function FrontOf(buffer: seq<Byte>): (front: Front)
    ensures front.Complete? ==> HEADER_SIZE <= front.size <= |buffer|
  {
    if |buffer| < HEADER_SIZE then Incomplete
    else
      var size := Field(buffer, 8, 4);
      if size < HEADER_SIZE || size > MAXIMUM_PACKET_SIZE then Malformed
      else if |buffer| < size then Incomplete
      else
        match Decode(buffer[..size])
        case Threw(_) => Malformed
        case Done(r) => Complete(r, size)
  }

  function Drain(buffer: seq<Byte>): Drained
    decreases |buffer|
  {
    match FrontOf(buffer)
    case Incomplete => Drained([], buffer, false)
    case Malformed => Drained([], [], true)
    case Complete(r, size) =>
      var d := Drain(buffer[size..]);
      Drained([r] + d.results, d.rest, d.failed)
  }

  /** A decided front stays as it is when more bytes arrive. */
  lemma FrontStable(buffer: seq<Byte>, more: seq<Byte>)
    requires !FrontOf(buffer).Incomplete?
    ensures FrontOf(buffer + more) == FrontOf(buffer)
  {
    hide Decode;
    hide Field;
    SizeStable(buffer, more);
    var size := Field(buffer, 8, 4);
    if size <= |buffer| {
      assert (buffer + more)[..size] == buffer[..size];
    }
  }

  lemma SizeStable(buffer: seq<Byte>, more: seq<Byte>)
    requires |buffer| >= HEADER_SIZE
    ensures Field(buffer + more, 8, 4) == Field(buffer, 8, 4)
  {
    assert (buffer + more)[8..12] == buffer[8..12];
  }

  /** Draining in two goes is draining once, and a failure does not depend on what comes after it. */
  lemma {:induction false} DrainSplit(a: seq<Byte>, b: seq<Byte>)
    ensures var d := Drain(a);
            if d.failed then Drain(a + b) == d
            else Drain(a + b) == (var e := Drain(d.rest + b); Drained(d.results + e.results, e.rest, e.failed))
    decreases |a|
  {
    hide FrontOf;
    DrainUnfold(a);
    DrainUnfold(a + b);
    hide Drain;
    match FrontOf(a) {
      case Incomplete =>
        assert [] + Drain(a + b).results == Drain(a + b).results;
      case Malformed =>
        FrontStable(a, b);
      case Complete(r, size) =>
        FrontStable(a, b);
        assert (a + b)[size..] == a[size..] + b;
        DrainSplit(a[size..], b);
        var d := Drain(a[size..]);
        if !d.failed {
          var e := Drain(d.rest + b);
          assert [r] + (d.results + e.results) == [r] + d.results + e.results;
        }
    }
  }

  lemma DrainUnfold(buffer: seq<Byte>)
    ensures FrontOf(buffer).Incomplete? ==> Drain(buffer) == Drained([], buffer, false)
    ensures FrontOf(buffer).Malformed? ==> Drain(buffer) == Drained([], [], true)
    ensures FrontOf(buffer).Complete? ==>
              var f := FrontOf(buffer);
              var d := Drain(buffer[f.size..]);
              Drain(buffer) == Drained([f.result] + d.results, d.rest, d.failed)
  {
    hide FrontOf;
  }

  /** Without a failure, the bytes are the encodings of the results followed by what is kept. */
  lemma {:induction false} DrainAccounts(buffer: seq<Byte>)
    requires !Drain(buffer).failed
    ensures AllEncodable(Drain(buffer).results)
    ensures buffer == Packets(Drain(buffer).results) + Drain(buffer).rest
    decreases |buffer|
  {
    hide FrontOf;
    hide Packet;
    DrainUnfold(buffer);
    hide Drain;
    match FrontOf(buffer) {
      case Incomplete =>
        assert buffer == [] + buffer;
      case Complete(r, size) =>
        CompleteIsPacket(buffer);
        DrainAccounts(buffer[size..]);
        var d := Drain(buffer[size..]);
        assert ([r] + d.results)[1..] == d.results;
        assert buffer == buffer[..size] + buffer[size..];
    }
  }

  lemma CompleteIsPacket(buffer: seq<Byte>)
    requires FrontOf(buffer).Complete?
    ensures var f := FrontOf(buffer);
            Encodable(f.result) && buffer[..f.size] == Packet(f.result)
  {
    hide Decode;
    hide Packet;
    var f := FrontOf(buffer);
    EncodeOfDecode(buffer[..f.size]);
    EncodeIsPacket(f.result);
  }

  /** Bytes with which no valid stream goes on: a size out of range, or a whole packet that is no encoding. */
  ghost predicate Broken(bytes: seq<Byte>) {
    && |bytes| >= 48
    && var size := Field(bytes, 8, 4);
       || size < 48 || size > 36_000_048
       || (size <= |bytes| && !exists r :: Encodable(r) && Packet(r) == bytes[..size])
  }

  lemma MalformedIsBroken(buffer: seq<Byte>)
    ensures FrontOf(buffer).Malformed? <==> Broken(buffer)
  {
    hide Decode;
    hide Packet;
    hide Field;
    if |buffer| >= HEADER_SIZE {
      var size := Field(buffer, 8, 4);
      if size <= |buffer| {
        AcceptedAreEncodings(buffer[..size]);
      }
    }
  }

  lemma PacketsFront(results: seq<DicResult>, rest: seq<Byte>)
    requires results != []
    ensures Packets(results) + rest == Packet(results[0]) + (Packets(results[1..]) + rest)
  {
    hide Packet;
  }

  /** The protocol fails exactly if the buffer is the encodings of some results followed by broken bytes. */
  lemma {:induction false} FailsExactly(buffer: seq<Byte>)
    ensures Drain(buffer).failed <==>
              exists results, rest :: AllEncodable(results) && buffer == Packets(results) + rest && Broken(rest)
    decreases |buffer|
  {
    hide *;
    DrainUnfold(buffer);
    MalformedIsBroken(buffer);
    NoPackets();
    match FrontOf(buffer) {
      case Incomplete =>
        NothingBrokenInside(buffer);
      case Malformed =>
        assert buffer == Packets([]) + buffer;
      case Complete(r, size) =>
        FrontSize(buffer);
        CompleteIsPacket(buffer);
        FailsExactly(buffer[size..]);
        BrokenBehind(buffer, r, size);
    }
  }

  lemma NoPackets()
    ensures Packets([]) == [] && AllEncodable([])
    ensures forall rest :: Packets([]) + rest == rest
  {
  }

  lemma FrontSize(buffer: seq<Byte>)
    ensures FrontOf(buffer).Complete? ==> 0 < FrontOf(buffer).size <= |buffer|
  {
    hide Decode;
    hide Field;
  }

  lemma NothingBrokenInside(buffer: seq<Byte>)
    requires FrontOf(buffer).Incomplete?
    ensures forall results, rest :: AllEncodable(results) && buffer == Packets(results) + rest ==> !Broken(rest)
  {
    hide *;
    forall results, rest | AllEncodable(results) && buffer == Packets(results) + rest
      ensures !Broken(rest)
    {
      MalformedIsBroken(buffer);
      NoPackets();
      if results != [] {
        PacketsFront(results, rest);
        FirstEncodable(results);
        FrontOfPacket(results[0], Packets(results[1..]) + rest);
        assert false;
      }
    }
  }

  lemma FirstEncodable(results: seq<DicResult>)
    requires AllEncodable(results) && results != []
    ensures Encodable(results[0]) && AllEncodable(results[1..])
  {
  }

  lemma BrokenBehind(buffer: seq<Byte>, r: DicResult, size: nat)
    requires 0 < size <= |buffer| && Encodable(r) && buffer[..size] == Packet(r) && FrontOf(buffer) == Complete(r, size)
    ensures (exists results, rest :: AllEncodable(results) && buffer == Packets(results) + rest && Broken(rest))
            <==> exists results, rest ::
                   AllEncodable(results) && buffer[size..] == Packets(results) + rest && Broken(rest)
  {
    hide *;
    MalformedIsBroken(buffer);
    NoPackets();
    if results, rest :| AllEncodable(results) && buffer == Packets(results) + rest && Broken(rest) {
      BrokenFront(buffer, results, rest);
      PacketsFront(results, rest);
      FirstEncodable(results);
      FrontOfPacket(results[0], Packets(results[1..]) + rest);
      assert buffer[size..] == Packets(results[1..]) + rest;
    }
    if results, rest :| AllEncodable(results) && buffer[size..] == Packets(results) + rest && Broken(rest) {
      var all := [r] + results;
      assert all[0] == r && all[1..] == results;
      PacketsFront(all, rest);
      AllOf(r, results);
      assert buffer == buffer[..size] + buffer[size..];
    }
  }

  lemma BrokenFront(buffer: seq<Byte>, results: seq<DicResult>, rest: seq<Byte>)
    requires !FrontOf(buffer).Malformed? && buffer == Packets(results) + rest && Broken(rest)
    ensures results != []
  {
    hide *;
    NoPackets();
    MalformedIsBroken(buffer);
  }

  lemma AllOf(r: DicResult, results: seq<DicResult>)
    requires Encodable(r) && AllEncodable(results)
    ensures AllEncodable([r] + results)
  {
  }

  lemma PacketSizeField(r: DicResult, tail: seq<Byte>)
    requires Encodable(r)
    ensures Field(Packet(r) + tail, 8, 4) == |Packet(r)|
    ensures HEADER_SIZE <= |Packet(r)| <= MAXIMUM_PACKET_SIZE
  {
    hide Header;
    hide Field;
    hide Crc32;
    CrcFitsWord(Payload(r.points));
    var crc := Crc32(Payload(r.points));
    HeaderFields(r, crc, Payload(r.points) + tail);
    assert Packet(r) + tail == Header(r, crc) + (Payload(r.points) + tail);
  }

  lemma FrontOfPacket(r: DicResult, tail: seq<Byte>)
    requires Encodable(r)
    ensures FrontOf(Packet(r) + tail) == Complete(r, |Packet(r)|)
  {
    hide Packet;
    hide Field;
    hide Decode;
    PacketSizeField(r, tail);
    assert (Packet(r) + tail)[..|Packet(r)|] == Packet(r);
    DecodeOfEncode(r);
  }

  lemma FrontOfPart(r: DicResult, n: nat)
    requires Encodable(r) && n < |Packet(r)|
    ensures FrontOf(Packet(r)[..n]) == Incomplete
  {
    hide Packet;
    hide Decode;
    var part := Packet(r)[..n];
    if n >= HEADER_SIZE {
      PacketSizeField(r, []);
      assert Packet(r) + [] == Packet(r);
      assert part[8..12] == Packet(r)[8..12];
    }
  }

  lemma {:induction false} DrainThrough(results: seq<DicResult>, rest: seq<Byte>)
    requires AllEncodable(results)
    ensures var d := Drain(rest);
            Drain(Packets(results) + rest) == Drained(results + d.results, d.rest, d.failed)
    decreases |results|
  {
    hide *;
    NoPackets();
    if results == [] {
      NoResults(results, Drain(rest).results);
    } else {
      var first, others := results[0], results[1..];
      FirstEncodable(results);
      PacketsFront(results, rest);
      FrontOfPacket(first, Packets(others) + rest);
      DrainUnfold(Packets(results) + rest);
      Behind(Packet(first), Packets(others) + rest);
      DrainThrough(others, rest);
      FirstAndOthers(results, Drain(rest).results);
    }
  }

  lemma NoResults(results: seq<DicResult>, more: seq<DicResult>)
    requires results == []
    ensures results + more == more
  {
  }

  lemma FirstAndOthers(results: seq<DicResult>, more: seq<DicResult>)
    requires results != []
    ensures [results[0]] + (results[1..] + more) == results + more
  {
  }

  lemma Behind(a: seq<Byte>, b: seq<Byte>)
    ensures (a + b)[|a|..] == b
  {
  }

  /** The first `k` packets, and no more, lie within the first `n` bytes. */
  predicate CutAt(results: seq<DicResult>, n: nat, k: nat) {
    && k <= |results|
    && |Packets(results[..k])| <= n
    && (k < |results| ==> n < |Packets(results[..k + 1])|)
  }

  lemma {:induction false} CutExists(results: seq<DicResult>, n: nat) returns (k: nat)
    requires n <= |Packets(results)|
    ensures CutAt(results, n, k)
    decreases |results|
  {
    NothingToDrain();
    hide Packets;
    if |Packets(results)| <= n {
      k := |results|;
      assert results[..k] == results;
    } else {
      var shorter := results[..|results| - 1];
      if n < |Packets(shorter)| {
        k := CutExists(shorter, n);
        assert shorter[..k] == results[..k];
        assert k < |shorter| ==> shorter[..k + 1] == results[..k + 1];
        assert results[..|results| - 1] == shorter;
      } else {
        k := |results| - 1;
        assert results[..k] == shorter && results[..k + 1] == results;
      }
    }
  }

  /** Any cut of a stream of encoded results drains to the whole packets in it and keeps the rest. */
  lemma {:induction false} DrainOfSent(results: seq<DicResult>, n: nat, k: nat)
    requires AllEncodable(results) && n <= |Packets(results)| && CutAt(results, n, k)
    ensures Drain(Packets(results)[..n])
         == Drained(results[..k], Packets(results)[|Packets(results[..k])|..n], false)
  {
    hide Packet;
    hide Drain;
    hide FrontOf;
    NothingToDrain();
    var whole := results[..k];
    if k == |results| {
      assert whole == results;
      assert Packets(results)[..n] == Packets(results) + [];
      DrainThrough(results, []);
      assert results + [] == results;
    } else {
      var rest := results[k..];
      assert results == whole + rest;
      PacketsAppend(whole, rest);
      assert rest[0] == results[k];
      assert results[..k + 1] == whole + [results[k]];
      PacketsSnoc(whole, results[k]);
      var cut := n - |Packets(whole)|;
      var part := Packet(results[k])[..cut];
      assert Packets(results)[..n] == Packets(whole) + part;
      DrainThrough(whole, part);
      FrontOfPart(results[k], cut);
      DrainUnfold(part);
      assert whole + [] == whole;
    }
  }

  lemma NothingToDrain()
    ensures Drain([]) == Drained([], [], false) && Packets([]) == []
  {
  }

  /** Feeding chunk after chunk; after a failure the connection is gone and the rest is not read. */
  function FeedAll(buffer: seq<Byte>, chunks: seq<seq<Byte>>): Drained
    decreases |chunks|
  {
    if chunks == [] then Drained([], buffer, false)
    else
      var d := Drain(buffer + chunks[0]);
      if d.failed then d
      else
        var rest := FeedAll(d.rest, chunks[1..]);
        Drained(d.results + rest.results, rest.rest, rest.failed)
  }

  function Flatten(chunks: seq<seq<Byte>>): seq<Byte> {
    if chunks == [] then [] else chunks[0] + Flatten(chunks[1..])
  }

  /** How the byte stream is divided into chunks makes no difference to the results. */
  lemma {:induction false} ChunkingIrrelevant(buffer: seq<Byte>, chunks: seq<seq<Byte>>)
    requires Drain(buffer) == Drained([], buffer, false)
    ensures FeedAll(buffer, chunks) == Drain(buffer + Flatten(chunks))
    decreases |chunks|
  {
    if chunks == [] {
      assert buffer + [] == buffer;
    } else {
      hide FrontOf;
      hide Drain;
      var d := Drain(buffer + chunks[0]);
      DrainSplit(buffer + chunks[0], Flatten(chunks[1..]));
      assert (buffer + chunks[0]) + Flatten(chunks[1..]) == buffer + Flatten(chunks);
      if !d.failed {
        RestIsIncomplete(buffer + chunks[0]);
        ChunkingIrrelevant(d.rest, chunks[1..]);
      }
    }
  }

  lemma {:induction false} RestIsIncomplete(buffer: seq<Byte>)
    requires !Drain(buffer).failed
    ensures Drain(Drain(buffer).rest) == Drained([], Drain(buffer).rest, false)
    decreases |buffer|
  {
    hide FrontOf;
    if FrontOf(buffer).Complete? {
      RestIsIncomplete(buffer[FrontOf(buffer).size..]);
    }
  }

  /** The receiving end in the Studio. */
  class ResultClient {
    var buffer: seq<Byte>
    var desired: bool
    var connected: bool
    var reconnectPending: bool

    constructor (wanted: bool)
      ensures buffer == [] && desired == wanted && !connected && !reconnectPending
    {
      buffer, desired, connected, reconnectPending := [], wanted, false, false;
    }

    /** Appends what the socket has and emits every whole packet; a bad one ends the connection. */
    method OnReadyRead(arrived: seq<Byte>) returns (emitted: seq<DicResult>)
      modifies this
      ensures var d := Drain(old(buffer) + arrived);
              && emitted == d.results && buffer == d.rest
              && connected == (old(connected) && !d.failed)
              && reconnectPending == (old(reconnectPending) || (d.failed && desired))
      ensures desired == old(desired)
    {
      hide Decode;
      hide Field;
      buffer := buffer + arrived;
      ghost var all := Drain(buffer);
      emitted := [];
      while true
        invariant all == (var d := Drain(buffer); Drained(emitted + d.results, d.rest, d.failed))
        invariant connected == old(connected) && reconnectPending == old(reconnectPending) && desired == old(desired)
        decreases |buffer|
      {
        if |buffer| < HEADER_SIZE {
          assert emitted + [] == emitted;
          return;
        }
        var size := PacketSize(buffer);
        if size < HEADER_SIZE || size > MAXIMUM_PACKET_SIZE {
          assert emitted + [] == emitted;
          FailProtocol();
          return;
        }
        if |buffer| < size {
          assert emitted + [] == emitted;
          return;
        }
        var packet := buffer[..size];
        ghost var rest := Drain(buffer[size..]);
        buffer := buffer[size..];
        var result := DecodeResultPacket(packet);
        match result {
          case Threw(_) =>
            assert emitted + [] == emitted;
            FailProtocol();
            return;
          case Done(r) =>
            assert emitted + ([r] + rest.results) == emitted + [r] + rest.results;
            emitted := emitted + [r];
        }
      }
    }

    method FailProtocol()
      modifies this
      ensures buffer == [] && !connected && desired == old(desired)
      ensures reconnectPending == (old(reconnectPending) || desired)
    {
      buffer := [];
      connected := false;
      if desired && !reconnectPending {
        reconnectPending := true;
      }
    }
  }

  /** The declared size, put together from bytes 8 to 11. */
  method PacketSize(buffer: seq<Byte>) returns (size: nat)
    requires |buffer| >= 12
    ensures size == Field(buffer, 8, 4)
  {
    var b8: nat, b9: nat, b10: nat, b11: nat := buffer[8], buffer[9], buffer[10], buffer[11];
    size := b8 + 0x100 * b9 + 0x1_0000 * b10 + 0x100_0000 * b11;
    var field := buffer[8..12];
    assert field[1..] == buffer[9..12];
    assert buffer[9..12][1..] == buffer[10..12];
    assert buffer[10..12][1..] == buffer[11..12];
    assert buffer[11..12][1..] == [];
    assert Value(buffer[11..12]) == b11;
    assert Value(buffer[10..12]) == b10 + 256 * b11;
    assert Value(buffer[9..12]) == b9 + 256 * (b10 + 256 * b11);
  }

  /** The publishing end on the Edge: only the newest packet is kept. */
  class ResultStreamServer {
    var latestPacket: seq<Byte>
    var generation: nat

    constructor ()
      ensures latestPacket == [] && generation == 0
    {
      latestPacket, generation := [], 0;
    }

    method PublishPacket(packet: seq<Byte>) returns (o: Outcome<()>)
      modifies this
      ensures o == if |packet| >= 12 && Field(packet, 8, 4) == |packet| then Done(()) else Threw(PublishedPacketInvalid)
      ensures o.Done? ==> latestPacket == packet && generation == old(generation) + 1
      ensures o.Threw? ==> latestPacket == old(latestPacket) && generation == old(generation)
    {
      if |packet| < 12 {
        return Threw(PublishedPacketInvalid);
      }
      var declared := PacketSize(packet);
      if declared != |packet| {
        return Threw(PublishedPacketInvalid);
      }
      latestPacket := packet;
      generation := generation + 1;
      return Done(());
    }

    method Publish(result: DicResult) returns (o: Outcome<()>)
      modifies this
      ensures Encodable(result) ==> o == Done(()) && latestPacket == Packet(result) && generation == old(generation) + 1
      ensures !Encodable(result) ==>
              o == Threw(TooManyPoints) && latestPacket == old(latestPacket) && generation == old(generation)
    {
      hide Packet;
      var packet := EncodeResultPacket(result);
      if packet.Threw? {
        return Threw(packet.error);
      }
      PacketSizeField(result, []);
      assert Packet(result) + [] == Packet(result);
      o := PublishPacket(packet.value);
    }
  }

  const SEND_LIMIT: nat := 0x10_0000

  /** What one call of send takes of the bytes that remain, if its socket would take `reply`. */
  function Chunk(remaining: nat, reply: int): int {
    var request := if remaining < SEND_LIMIT then remaining else SEND_LIMIT;
    if reply <= request then reply else request
  }

  /** The first `calls` calls of send all took something. */
  predicate Sending(replies: nat -> int, calls: nat) { forall i: nat :: i < calls ==> replies(i) > 0 }

  /** The bytes sent by that many calls, each of which took something. */
  function Progress(size: nat, replies: nat -> int, calls: nat): (sent: nat)
    requires Sending(replies, calls)
    ensures sent <= size
  {
    if calls == 0 then 0
    else
      var before := Progress(size, replies, calls - 1);
      before + Chunk(size - before, replies(calls - 1))
  }

  /**
   * Sends a packet in pieces. `replies` are what the successive calls of send could take, or their failures. It ends
   * with everything sent, or at the first call that failed, with the proper prefix that the calls before it sent.
   */
  method SendAll(data: seq<Byte>, replies: nat -> int) returns (all: bool, sent: seq<Byte>)
    ensures sent <= data
    ensures all <==> sent == data
    ensures exists calls: nat ::
              && Sending(replies, calls) && |sent| == Progress(|data|, replies, calls)
              && (!all ==> |sent| < |data| && replies(calls) <= 0)
  {
    var count := 0;
    var calls: nat := 0;
    while count < |data|
      invariant Sending(replies, calls) && count == Progress(|data|, replies, calls)
      decreases |data| - count
    {
      var remaining := |data| - count;
      var request := if remaining < SEND_LIMIT then remaining else SEND_LIMIT;
      var chunk := if replies(calls) <= request then replies(calls) else request;
      if chunk <= 0 {
        return false, data[..count];
      }
      count := count + chunk;
      calls := calls + 1;
    }
    return true, data[..count];
  }

  // The publisher, one connection and the client together, over every interleaving.

  /**
   * `published` are the results published since the server started, so the generation is their
   * number; the other fields belong to the current connection: the generation delivered last, the
   * publications picked, the bytes of the packet being sent, the bytes in transit, and the client.
   */
  datatype State = State(
    published: seq<DicResult>,
    deliveredGeneration: nat,
    picked: seq<nat>,
    sending: seq<Byte>,
    transit: seq<Byte>,
    received: seq<Byte>,
    buffer: seq<Byte>,
    emitted: seq<DicResult>,
    failed: bool)

  ghost predicate Init(s: State) {
    s == State([], 0, [], [], [], [], [], [], false)
  }

  ghost predicate PublishStep(s: State, t: State) {
    exists r :: Encodable(r) && t == s.(published := s.published + [r])
  }

  ghost predicate PickStep(s: State, t: State) {
    && s.sending == [] && s.deliveredGeneration != |s.published|
    && s.published != []
    && t == s.(deliveredGeneration := |s.published|,
               picked := s.picked + [|s.published| - 1],
               sending := Packet(s.published[|s.published| - 1]))
  }

  ghost predicate SendStep(s: State, t: State, n: nat) {
    && 0 < n <= |s.sending|
    && t == s.(sending := s.sending[n..], transit := s.transit + s.sending[..n])
  }

  ghost predicate ReceiveStep(s: State, t: State, n: nat) {
    && 0 < n <= |s.transit| && !s.failed
    && var d := Drain(s.buffer + s.transit[..n]);
       t == s.(transit := s.transit[n..], received := s.received + s.transit[..n],
               buffer := d.rest, emitted := s.emitted + d.results, failed := d.failed)
  }

  /** A new connection starts with nothing delivered. */
  ghost predicate ReconnectStep(s: State, t: State) {
    t == State(s.published, 0, [], [], [], [], [], [], false)
  }

  ghost predicate Next(s: State, t: State) {
    || PublishStep(s, t)
    || PickStep(s, t)
    || (exists n :: SendStep(s, t, n))
    || (exists n :: ReceiveStep(s, t, n))
    || ReconnectStep(s, t)
  }

  ghost predicate Run(run: seq<State>) {
    && run != [] && Init(run[0])
    && forall i :: 0 <= i < |run| - 1 ==> Next(run[i], run[i + 1])
  }

  function Chosen(published: seq<DicResult>, picked: seq<nat>): (chosen: seq<DicResult>)
    requires forall i :: 0 <= i < |picked| ==> picked[i] < |published|
    ensures |chosen| == |picked|
    ensures forall i :: 0 <= i < |picked| ==> chosen[i] == published[picked[i]]
  {
    seq(|picked|, i requires 0 <= i < |picked| => published[picked[i]])
  }

  ghost predicate PicksIncrease(s: State) {
    && (forall i :: 0 <= i < |s.picked| ==> s.picked[i] < |s.published|)
    && (forall i, j :: 0 <= i < j < |s.picked| ==> s.picked[i] < s.picked[j])
    && s.deliveredGeneration == (if s.picked == [] then 0 else s.picked[|s.picked| - 1] + 1)
  }

  ghost predicate Inv(s: State) {
    && AllEncodable(s.published)
    && PicksIncrease(s)
    && Packets(Chosen(s.published, s.picked)) == s.received + s.transit + s.sending
    && Drain(s.received) == Drained(s.emitted, s.buffer, false)
    && !s.failed
  }

  lemma PacketsSnoc(results: seq<DicResult>, r: DicResult)
    ensures Packets(results + [r]) == Packets(results) + Packet(r)
  {
    hide Packet;
    PacketsAppend(results, [r]);
    assert [r][1..] == [];
    assert Packets([r]) == Packet(r) + Packets([]);
  }

  lemma {:induction false} PacketsAppend(a: seq<DicResult>, b: seq<DicResult>)
    ensures Packets(a + b) == Packets(a) + Packets(b)
    decreases |a|
  {
    hide Packet;
    if a == [] {
      assert a + b == b;
    } else {
      assert (a + b)[1..] == a[1..] + b;
      PacketsAppend(a[1..], b);
    }
  }

  lemma PublishKeeps(s: State, t: State)
    requires Inv(s) && PublishStep(s, t)
    ensures Inv(t)
  {
    hide Drain;
    hide Packets;
    assert Chosen(t.published, t.picked) == Chosen(s.published, s.picked);
  }

  lemma {:induction false} PickIncreases(s: State, t: State)
    requires PicksIncrease(s) && PickStep(s, t)
    ensures PicksIncrease(t)
    ensures t.picked[|t.picked| - 1] == |s.published| - 1
  {
    hide Packet;
  }

  lemma PickKeeps(s: State, t: State)
    requires Inv(s) && PickStep(s, t)
    ensures Inv(t)
  {
    hide Drain;
    hide Packets;
    hide Packet;
    PickIncreases(s, t);
    hide PicksIncrease;
    var newest := s.published[|s.published| - 1];
    ChosenSnoc(s.published, s.picked, |s.published| - 1);
    PacketsSnoc(Chosen(s.published, s.picked), newest);
    assert s.received + s.transit + s.sending == s.received + s.transit;
  }

  lemma ChosenSnoc(published: seq<DicResult>, picked: seq<nat>, n: nat)
    requires n < |published| && forall i :: 0 <= i < |picked| ==> picked[i] < |published|
    ensures Chosen(published, picked + [n]) == Chosen(published, picked) + [published[n]]
  {
  }

  lemma SendKeeps(s: State, t: State, n: nat)
    requires Inv(s) && SendStep(s, t, n)
    ensures Inv(t)
  {
    hide Drain;
    hide Packets;
    assert s.sending == s.sending[..n] + s.sending[n..];
    assert t.received + t.transit + t.sending == s.received + s.transit + s.sending;
  }

  lemma ReceiveKeeps(s: State, t: State, n: nat)
    requires Inv(s) && ReceiveStep(s, t, n)
    ensures Inv(t)
  {
    hide Drain;
    hide Packets;
    assert s.transit == s.transit[..n] + s.transit[n..];
    assert t.received + t.transit + t.sending == s.received + s.transit + s.sending;
    var chosen := Chosen(s.published, s.picked);
    DrainSplit(s.received, s.transit[..n]);
    var k := CutExists(chosen, |t.received|);
    DrainOfSent(chosen, |t.received|, k);
    assert Packets(chosen)[..|t.received|] == t.received;
  }

  lemma {:induction false} RunKeeps(run: seq<State>, i: nat)
    requires Run(run) && i < |run|
    ensures Inv(run[i])
    decreases i
  {
    if i == 0 {
      NothingToDrain();
      assert Chosen([], []) == [];
    } else {
      RunKeeps(run, i - 1);
      var s, t := run[i - 1], run[i];
      assert Next(s, t);
      if PublishStep(s, t) {
        PublishKeeps(s, t);
      } else if PickStep(s, t) {
        PickKeeps(s, t);
      } else if n :| SendStep(s, t, n) {
        SendKeeps(s, t, n);
      } else if n :| ReceiveStep(s, t, n) {
        ReceiveKeeps(s, t, n);
      } else {
        NothingToDrain();
        assert Chosen(t.published, []) == [];
      }
    }
  }

  /** However the steps interleave, a connection delivers a strictly increasing choice of the publications. */
  lemma {:induction false} DeliversNewestInOrder(run: seq<State>, i: nat)
    requires Run(run) && i < |run|
    ensures var s := run[i];
            && !s.failed
            && PicksIncrease(s)
            && s.emitted <= Chosen(s.published, s.picked)
            && s.received == Packets(s.emitted) + s.buffer
  {
    RunKeeps(run, i);
    var s := run[i];
    hide Drain;
    hide Packets;
    var chosen := Chosen(s.published, s.picked);
    var k := CutExists(chosen, |s.received|);
    DrainOfSent(chosen, |s.received|, k);
    assert Packets(chosen)[..|s.received|] == s.received;
    DrainAccounts(s.received);
  }
}
