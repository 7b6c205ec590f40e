/** Reading packets off a stream, and the packer's own steps. */
module PacketStream {
  import opened Prelude
  import opened ByteOrders
  import opened Buffers
  import opened Packet

  /**
    What one read of the stream yields. A size of zero is skipped; a size within four of the
    limit overflows the length of the packet's buffer, and the read panics.
  */
  datatype Outcome = Read(data: seq<Byte>) | Skipped | EndOfStream | CutShort | Panics

  datatype Reading = Reading(outcome: Outcome, rest: seq<Byte>)

  function ReadOne(order: ByteOrder, stream: seq<Byte>): Reading {
    if stream == [] then Reading(EndOfStream, [])
    else if |stream| < SIZE_BYTES then Reading(CutShort, [])
    else
      var size := Get(order, stream[..SIZE_BYTES]);
      var rest := stream[SIZE_BYTES..];
      if size == 0 then Reading(Skipped, rest)
      else if SIZE_BYTES + size >= SIZES then Reading(Panics, rest)
      else if rest == [] then Reading(EndOfStream, [])
      else if |rest| < size then Reading(CutShort, [])
      else Reading(Read(stream[..SIZE_BYTES + size]), rest[size..])
  }

  // --- Whole streams ---

  datatype Sent = Data(message: Message) | Beat(now: Int64)

  function Wire(o: Options, x: Sent): seq<Byte> {
    match x
    case Data(m) => Frame(o.byteOrder, Body(o, m))
    case Beat(now) => Heartbeat(o, now)
  }

  function Stream(o: Options, xs: seq<Sent>): seq<Byte> {
    if xs == [] then [] else Wire(o, xs[0]) + Stream(o, xs[1..])
  }

  function Frames(o: Options, xs: seq<Sent>): seq<seq<Byte>> {
    seq(|xs|, i requires 0 <= i < |xs| => Wire(o, xs[i]))
  }

  /** Reads until the stream ends or fails: the packets, and how it ended. */
  function ReadAll(order: ByteOrder, stream: seq<Byte>): (r: (seq<seq<Byte>>, Outcome))
    decreases |stream|
  {
    var one := ReadOne(order, stream);
    match one.outcome
    case Read(data) => var more := ReadAll(order, one.rest); ([data] + more.0, more.1)
    case Skipped => ReadAll(order, one.rest)
    case _ => ([], one.outcome)
  }

  /** A frame is read back, and nothing beyond it, exactly when its body is in range. */
  lemma FrameIsRead(order: ByteOrder, body: seq<Byte>, rest: seq<Byte>)
    ensures ReadOne(order, Frame(order, body) + rest) == Reading(Read(Frame(order, body)), rest)
            <==> 0 < |body| < SIZES - SIZE_BYTES
  {
    var f := Frame(order, body);
    var stream := f + rest;
    FrameSize(order, body);
    assert stream[..SIZE_BYTES] == f[..SIZE_BYTES];
    if |body| < SIZES {
      assert stream[..SIZE_BYTES + |body|] == f;
      assert stream[SIZE_BYTES..][|body|..] == rest;
    }
  }

  predicate Sendable(o: Options, x: Sent) {
    x.Data? ==> Refusal(o, x.message).None? && |Body(o, x.message)| < SIZES - SIZE_BYTES
  }

  lemma WireIsRead(o: Options, x: Sent, rest: seq<Byte>)
    requires Sendable(o, x)
    ensures ReadOne(o.byteOrder, Wire(o, x) + rest) == Reading(Read(Wire(o, x)), rest)
  {
    var body := WireIsFrame(o, x);
    FrameIsRead(o.byteOrder, body, rest);
  }

  lemma FramesHead(o: Options, xs: seq<Sent>)
    requires xs != []
    ensures Frames(o, xs) == [Wire(o, xs[0])] + Frames(o, xs[1..])
  {
  }

  /** A packet in front of a stream is read first, and then the stream. */
  lemma HeadIsRead(o: Options, x: Sent, rest: seq<Byte>)
    requires Sendable(o, x)
    ensures var all := ReadAll(o.byteOrder, rest);
            ReadAll(o.byteOrder, Wire(o, x) + rest) == ([Wire(o, x)] + all.0, all.1)
  {
    WireIsRead(o, x, rest);
  }

  lemma StreamHead(o: Options, xs: seq<Sent>, tail: seq<Byte>)
    requires xs != []
    ensures Stream(o, xs) + tail == Wire(o, xs[0]) + (Stream(o, xs[1..]) + tail)
  {
  }

  /** Packets in front of a stream that yields none are read back, in order, and then the stream's end. */
  lemma {:induction false} PacketsAreRead(o: Options, xs: seq<Sent>, tail: seq<Byte>, end: Outcome)
    requires forall i | 0 <= i < |xs| :: Sendable(o, xs[i])
    requires ReadAll(o.byteOrder, tail) == ([], end)
    ensures ReadAll(o.byteOrder, Stream(o, xs) + tail) == (Frames(o, xs), end)
  {
    if xs == [] {
      assert Stream(o, xs) + tail == tail && Frames(o, xs) == [];
    } else {
      StreamHead(o, xs, tail);
      HeadIsRead(o, xs[0], Stream(o, xs[1..]) + tail);
      PacketsAreRead(o, xs[1..], tail, end);
      FramesHead(o, xs);
    }
  }

  /** Any concatenation of packets is read back as those packets, in order, and then the end. */
  lemma StreamRoundTrip(o: Options, xs: seq<Sent>)
    requires forall i | 0 <= i < |xs| :: Sendable(o, xs[i])
    ensures ReadAll(o.byteOrder, Stream(o, xs)) == (Frames(o, xs), EndOfStream)
  {
    PacketsAreRead(o, xs, [], EndOfStream);
    assert Stream(o, xs) + [] == Stream(o, xs);
  }

  /** Four bytes of zero are skipped; a size that overflows the length of the buffer panics. */
  lemma SizeOnly(order: ByteOrder, size: nat, rest: seq<Byte>)
    requires size < SIZES
    ensures var stream := Put(order, size, SIZE_BYTES) + rest;
            && (ReadOne(order, stream).outcome == Skipped <==> size == 0)
            && (ReadOne(order, stream).outcome == Panics <==> size >= SIZES - SIZE_BYTES)
            && (size == 0 || size >= SIZES - SIZE_BYTES ==> ReadOne(order, stream).rest == rest)
  {
    Widths();
    PutGet(order, size, SIZE_BYTES);
    var stream := Put(order, size, SIZE_BYTES) + rest;
    assert stream[..SIZE_BYTES] == Put(order, size, SIZE_BYTES) && stream[SIZE_BYTES..] == rest;
  }

  /** A frame that breaks off: the end when not a byte of the size or of the body came, else a cut. */
  lemma TruncatedFrame(order: ByteOrder, body: seq<Byte>, k: nat)
    requires 0 < |body| < SIZES - SIZE_BYTES && k < SIZE_BYTES + |body|
    ensures k < |Frame(order, body)|
    ensures ReadOne(order, Frame(order, body)[..k]) == Reading(if k in {0, SIZE_BYTES} then EndOfStream else CutShort, [])
  {
    var f := Frame(order, body);
    FrameSize(order, body);
    if k >= SIZE_BYTES {
      Widths();
      PutGet(order, |body|, SIZE_BYTES);
      assert f[..k][..SIZE_BYTES] == f[..SIZE_BYTES];
    }
  }

  lemma WireIsFrame(o: Options, x: Sent) returns (body: seq<Byte>)
    requires Sendable(o, x)
    ensures 0 < |body| < SIZES - SIZE_BYTES && Wire(o, x) == Frame(o.byteOrder, body)
  {
    body := match x
      case Data(m) => Body(o, m)
      case Beat(now) => [HEARTBEAT_BIT] + if o.heartbeatTime then Put(o.byteOrder, now, HEARTBEAT_TIME_BYTES) else [];
  }

  lemma PacketBreaksOff(o: Options, x: Sent, k: nat)
    requires Sendable(o, x) && k < |Wire(o, x)|
    ensures ReadAll(o.byteOrder, Wire(o, x)[..k]) == ([], if k in {0, SIZE_BYTES} then EndOfStream else CutShort)
  {
    var body := WireIsFrame(o, x);
    FrameSize(o.byteOrder, body);
    TruncatedFrame(o.byteOrder, body, k);
  }

  /**
    A stream that breaks off inside a packet yields the packets before it, all of them and in
    order, and then a cut; but the plain end when it breaks off right after the size.
  */
  lemma BrokenStream(o: Options, xs: seq<Sent>, x: Sent, k: nat)
    requires Sendable(o, x) && forall i | 0 <= i < |xs| :: Sendable(o, xs[i])
    requires k < |Wire(o, x)|
    ensures ReadAll(o.byteOrder, Stream(o, xs) + Wire(o, x)[..k]) ==
            (Frames(o, xs), if k in {0, SIZE_BYTES} then EndOfStream else CutShort)
  {
    PacketBreaksOff(o, x, k);
    PacketsAreRead(o, xs, Wire(o, x)[..k], if k in {0, SIZE_BYTES} then EndOfStream else CutShort);
  }

  /** Each packet read is told apart, and each data packet unpacks to its message. */
  lemma StreamClassified(o: Options, xs: seq<Sent>, i: nat)
    requires Legal(o) && i < |xs| && forall j | 0 <= j < |xs| :: Sendable(o, xs[j])
    ensures |ReadAll(o.byteOrder, Stream(o, xs)).0| == |xs|
    ensures var frame := ReadAll(o.byteOrder, Stream(o, xs)).0[i];
            && CheckHeartbeat(o.byteOrder, frame) == Ok(xs[i].Beat?)
            && (xs[i].Data? ==>
                  var m := xs[i].message;
                  Unpacked(o, frame) == Ok(m.(number := if o.seqBytes == 0 then 0 else m.number)))
  {
    StreamRoundTrip(o, xs);
    match xs[i]
    case Data(m) =>
      Classified(o, m, 0);
      UnpackPacked(o, m);
    case Beat(now) => Classified(o, Message(0, 0, []), now);
  }

  // --- The packer ---

  /** A stream with a cursor. */
  class Reader {
    const data: seq<Byte>
    var pos: nat

    ghost predicate Valid()
      reads this
    {
      pos <= |data|
    }

    ghost function Rest(): seq<Byte>
      requires Valid()
      reads this
    {
      data[pos..]
    }

    constructor (data: seq<Byte>)
      ensures Valid() && Rest() == data && this.data == data && pos == 0
    {
      this.data, pos := data, 0;
    }

    /** `io.ReadFull`: all `n` bytes, or the end, or a cut that uses up what was left. */
    method ReadFull(n: nat) returns (r: Outcome)
      requires Valid() && n > 0
      modifies this
      ensures Valid()
      ensures var was := old(Rest());
              if was == [] then r == EndOfStream && Rest() == []
              else if |was| < n then r == CutShort && Rest() == []
              else r == Read(was[..n]) && Rest() == was[n..]
      ensures r.Read? ==> pos == old(pos) + n && r.data == data[old(pos)..pos]
    {
      if pos == |data| {
        return EndOfStream;
      }
      if |data| - pos < n {
        pos := |data|;
        return CutShort;
      }
      r := Read(data[pos..pos + n]);
      pos := pos + n;
    }
  }

  lemma SizeBound(order: ByteOrder, bs: seq<Byte>)
    requires |bs| == SIZE_BYTES
    ensures Get(order, bs) < SIZES
  {
    Widths();
    GetPut(order, bs);
  }

  lemma TwoParts(bs: seq<Byte>, m: nat, n: nat)
    requires m + n <= |bs|
    ensures bs[..m] + bs[m..][..n] == bs[..m + n]
  {
  }

  method ReadMessage(o: Options, reader: Reader) returns (r: Outcome)
    requires reader.Valid()
    modifies reader
    ensures reader.Valid() && Reading(r, reader.Rest()) == ReadOne(o.byteOrder, old(reader.Rest()))
  {
    var head := reader.ReadFull(SIZE_BYTES);
    if !head.Read? {
      return head;
    }
    var size := Get(o.byteOrder, head.data);
    if size == 0 {
      return Skipped;
    }
    SizeBound(o.byteOrder, head.data);
    // the sum is taken in 32 bits
    var length := (SIZE_BYTES + size) % SIZES;
    if length < SIZE_BYTES {
      return Panics;
    }
    var body := reader.ReadFull(length - SIZE_BYTES);
    if !body.Read? {
      return body;
    }
    TwoParts(old(reader.Rest()), SIZE_BYTES, size);
    return Read(head.data + body.data);
  }

  method Check(o: Options, m: Message) returns (r: Option<PacketError>)
    ensures r == Refusal(o, m)
  {
    var half := Values(o.routeBytes);
    if 2 * m.route >= half || 2 * m.route + half < 0 {
      return Some(RouteOverflow);
    }
    if o.seqBytes > 0 {
      half := Values(o.seqBytes);
      if 2 * m.number >= half || 2 * m.number + half < 0 {
        return Some(SeqOverflow);
      }
    }
    if |m.buffer| > o.bufferBytes {
      return Some(MessageTooLarge);
    }
    return None;
  }

  method PackMessage(o: Options, m: Message) returns (r: Result<seq<Byte>, PacketError>)
    ensures r == Packed(o, m)
  {
    var refusal := Check(o, m);
    if refusal.Some? {
      return Err(refusal.value);
    }
    var size := HEADER_BYTES + o.routeBytes + o.seqBytes + |m.buffer|;
    var buf := Put(o.byteOrder, size, SIZE_BYTES);
    buf := buf + Put(o.byteOrder, DATA_BIT, HEADER_BYTES);
    buf := buf + Put(o.byteOrder, m.route, o.routeBytes);
    buf := buf + Put(o.byteOrder, m.number, o.seqBytes);
    buf := buf + m.buffer;
    FrameIsPrefix(o, m);
    return Ok(buf);
  }

  function HeadBytes(o: Options, m: Message): seq<Byte> {
    Put(o.byteOrder, HEADER_BYTES + o.routeBytes + o.seqBytes + |m.buffer|, SIZE_BYTES)
    + Put(o.byteOrder, DATA_BIT, HEADER_BYTES)
  }

  /** What comes before the message. */
  function PrefixBytes(o: Options, m: Message): seq<Byte> {
    HeadBytes(o, m) + Put(o.byteOrder, m.route, o.routeBytes) + Put(o.byteOrder, m.number, o.seqBytes)
  }

  lemma HeaderByte(order: ByteOrder)
    ensures Put(order, DATA_BIT, HEADER_BYTES) == [DATA_BIT]
  {
    assert Little(DATA_BIT, 1) == [DATA_BIT] + Little(0, 0);
  }

  lemma FrameIsPrefix(o: Options, m: Message)
    ensures Frame(o.byteOrder, Body(o, m)) == PrefixBytes(o, m) + m.buffer
  {
    HeaderByte(o.byteOrder);
    assert |Body(o, m)| == HEADER_BYTES + o.routeBytes + o.seqBytes + |m.buffer|;
  }

  /** A signed field of the given width; an absent field reads as zero. */
  method ReadField(o: Options, reader: Reader, width: nat) returns (v: int)
    requires reader.pos + width <= |reader.data|
    modifies reader
    ensures reader.pos == old(reader.pos) + width
    ensures v == GetSigned(o.byteOrder, reader.data[old(reader.pos)..old(reader.pos) + width])
  {
    if width == 0 {
      return 0;
    }
    var field := reader.ReadFull(width);
    v := Signed(Get(o.byteOrder, field.data), width);
  }

  /** The header byte is read over; route and sequence number follow it. */
  method ReadFields(o: Options, reader: Reader) returns (route: int, number: int)
    requires reader.pos == SIZE_BYTES && Prefix(o) <= |reader.data|
    modifies reader
    ensures route == GetSigned(o.byteOrder, reader.data[5..5 + o.routeBytes])
    ensures number == GetSigned(o.byteOrder, reader.data[5 + o.routeBytes..Prefix(o)])
  {
    var header := reader.ReadFull(HEADER_BYTES);
    route := ReadField(o, reader, o.routeBytes);
    number := ReadField(o, reader, o.seqBytes);
  }

  method UnpackMessage(o: Options, data: seq<Byte>) returns (r: Result<Message, PacketError>)
    requires Legal(o)
    ensures r == Unpacked(o, data)
  {
    var ln := SIZE_BYTES + HEADER_BYTES + o.routeBytes + o.seqBytes;
    if |data| - ln < 0 {
      return Err(InvalidMessage);
    }
    var reader := new Reader(data);
    var size := reader.ReadFull(SIZE_BYTES);
    if |data| - SIZE_BYTES != Get(o.byteOrder, size.data) {
      return Err(InvalidMessage);
    }
    var route, number := ReadFields(o, reader);
    GetSignedBound(o.byteOrder, data[5..5 + o.routeBytes]);
    GetSignedBound(o.byteOrder, data[5 + o.routeBytes..ln]);
    return Ok(Message(route, number, data[ln..]));
  }

  /** Writes size and header; the writer is empty, has any room and may grow. */
  method WriteHead(o: Options, m: Message, writer: Writer)
    requires writer.Valid() && writer.off == 0
    modifies writer, writer.buf
    ensures writer.Valid() && writer.Contents() == HeadBytes(o, m)
    ensures writer.buf == old(writer.buf) || fresh(writer.buf)
  {
    writer.WriteInt(o.byteOrder, SIZE_BYTES, HEADER_BYTES + o.routeBytes + o.seqBytes + |m.buffer|);
    writer.WriteInt(o.byteOrder, HEADER_BYTES, DATA_BIT);
  }

  /** And then route and sequence number. */
  method WritePrefix(o: Options, m: Message, writer: Writer)
    requires writer.Valid() && writer.off == 0
    modifies writer, writer.buf
    ensures writer.Valid() && writer.Contents() == PrefixBytes(o, m)
    ensures writer.buf == old(writer.buf) || fresh(writer.buf)
  {
    WriteHead(o, m, writer);
    writer.WriteInt(o.byteOrder, o.routeBytes, m.route);
    if o.seqBytes > 0 {
      writer.WriteInt(o.byteOrder, o.seqBytes, m.number);
    } else {
      assert Put(o.byteOrder, m.number, o.seqBytes) == [];
    }
  }

  /**
    The two mounted blocks hold, in order, exactly the bytes of `PackMessage`. `writer` is what
    the writer pool hands out: empty, with a buffer of any length and any old bytes in it.
  */
  method PackBuffer(o: Options, m: Message, writer: Writer) returns (r: Result<NocopyBuffer, PacketError>)
    requires writer.Valid() && writer.off == 0
    modifies writer, writer.buf
    ensures r.Ok? <==> Packed(o, m).Ok?
    ensures r.Err? ==> r.error == Packed(o, m).error
    ensures r.Ok? ==> r.value.Valid() && BytesOf(r.value.blocks) == Packed(o, m).value
  {
    var refusal := Check(o, m);
    if refusal.Some? {
      return Err(refusal.value);
    }
    WritePrefix(o, m, writer);
    var buffer := new NocopyBuffer();
    buffer.Mount(Written(writer));
    buffer.Mount(Raw(m.buffer));
    assert buffer.blocks == [Written(writer), Raw(m.buffer)];
    TwoBlocks(writer, m.buffer);
    FrameIsPrefix(o, m);
    return Ok(buffer);
  }

  lemma TwoBlocks(writer: Writer, bytes: seq<Byte>)
    requires BlocksValid([Written(writer), Raw(bytes)])
    ensures [Written(writer), Raw(bytes)][0].writer in Writers([Written(writer), Raw(bytes)])
    ensures BytesOf([Written(writer), Raw(bytes)]) == writer.Contents() + bytes
  {
    var blocks := [Written(writer), Raw(bytes)];
    assert blocks[0].writer in Writers(blocks);
    NextBlock(blocks, 0);
    NextBlock(blocks, 1);
    assert blocks[2..] == [];
  }
}
