/**
  The packet format: a four-byte size, a header byte, and for data packets a route, a
  sequence number of configurable widths and the message.
*/
module Packet {
  import opened Prelude
  import opened ByteOrders

  const SIZE_BYTES := 4
  const HEADER_BYTES := 1
  const HEARTBEAT_TIME_BYTES := 8
  const DATA_BIT: Byte := 0
  const HEARTBEAT_BIT: Byte := 128
  /** One more than the largest size that the size field holds. */
  const SIZES := 0x1_0000_0000

  type Int32 = x: int | -0x8000_0000 <= x < 0x8000_0000
  type Int64 = x: int | -0x8000_0000_0000_0000 <= x < 0x8000_0000_0000_0000

  datatype Options = Options(byteOrder: ByteOrder, routeBytes: nat, seqBytes: nat, bufferBytes: nat, heartbeatTime: bool)

  /** The widths a packer can be made with. */
  predicate Legal(o: Options) {
    o.routeBytes in {1, 2, 4} && o.seqBytes in {0, 1, 2, 4}
  }

  datatype Message = Message(route: Int32, number: Int32, buffer: seq<Byte>)

  datatype PacketError = RouteOverflow | SeqOverflow | MessageTooLarge | InvalidMessage

  function Frame(order: ByteOrder, body: seq<Byte>): seq<Byte> {
    Put(order, |body|, SIZE_BYTES) + body
  }

  function Body(o: Options, m: Message): seq<Byte> {
    [DATA_BIT] + Put(o.byteOrder, m.route, o.routeBytes) + Put(o.byteOrder, m.number, o.seqBytes) + m.buffer
  }

  function Refusal(o: Options, m: Message): Option<PacketError> {
    if !FitsSigned(m.route, o.routeBytes) then Some(RouteOverflow)
    else if o.seqBytes > 0 && !FitsSigned(m.number, o.seqBytes) then Some(SeqOverflow)
    else if |m.buffer| > o.bufferBytes then Some(MessageTooLarge)
    else None
  }

  function Packed(o: Options, m: Message): Result<seq<Byte>, PacketError> {
    match Refusal(o, m)
    case Some(error) => Err(error)
    case None => Ok(Frame(o.byteOrder, Body(o, m)))
  }

  /** Where the message starts in a data packet. */
  function Prefix(o: Options): nat {
    SIZE_BYTES + HEADER_BYTES + o.routeBytes + o.seqBytes
  }

  /** The size field says how long the rest is. */
  predicate SizeMatches(order: ByteOrder, data: seq<Byte>) {
    |data| >= SIZE_BYTES && |data| - SIZE_BYTES == Get(order, data[..SIZE_BYTES])
  }

  function GetSigned(order: ByteOrder, bs: seq<Byte>): int {
    if bs == [] then 0 else Signed(Get(order, bs), |bs|)
  }

  lemma GetSignedBound(order: ByteOrder, bs: seq<Byte>)
    requires |bs| in {0, 1, 2, 4}
    ensures -0x8000_0000 <= GetSigned(order, bs) < 0x8000_0000
  {
    Widths();
    GetPut(order, bs);
  }

  /** The header byte is not looked at: the test on it cannot fail. */
  function Unpacked(o: Options, data: seq<Byte>): Result<Message, PacketError>
    requires Legal(o)
  {
    if |data| < Prefix(o) || !SizeMatches(o.byteOrder, data) then Err(InvalidMessage)
    else
      var route := data[5..5 + o.routeBytes];
      var number := data[5 + o.routeBytes..Prefix(o)];
      GetSignedBound(o.byteOrder, route);
      GetSignedBound(o.byteOrder, number);
      Ok(Message(GetSigned(o.byteOrder, route), GetSigned(o.byteOrder, number), data[Prefix(o)..]))
  }

  function Heartbeat(o: Options, now: Int64): seq<Byte> {
    Frame(o.byteOrder, [HEARTBEAT_BIT] + if o.heartbeatTime then Put(o.byteOrder, now, HEARTBEAT_TIME_BYTES) else [])
  }

  function CheckHeartbeat(order: ByteOrder, data: seq<Byte>): Result<bool, PacketError> {
    if |data| < SIZE_BYTES + HEADER_BYTES || !SizeMatches(order, data) then Err(InvalidMessage)
    else Ok(data[SIZE_BYTES] >= HEARTBEAT_BIT)
  }

  /** Half the values of a field: a signed field of one, two or four bytes holds the numbers from minus that, below that. */
  function Half(bytes: nat): nat {
    match bytes
    case 1 => 0x80
    case 2 => 0x8000
    case _ => 0x8000_0000
  }

  /** Which messages are refused, and why: the first reason of three. */
  lemma RefusalMeaning(o: Options, m: Message)
    requires Legal(o)
    ensures var routeFits := 0 - Half(o.routeBytes) <= m.route < Half(o.routeBytes);
            var numberFits := o.seqBytes == 0 || 0 - Half(o.seqBytes) <= m.number < Half(o.seqBytes);
            && (Refusal(o, m) == Some(RouteOverflow) <==> !routeFits)
            && (Refusal(o, m) == Some(SeqOverflow) <==> routeFits && !numberFits)
            && (Refusal(o, m) == Some(MessageTooLarge) <==> routeFits && numberFits && |m.buffer| > o.bufferBytes)
            && (Refusal(o, m) == None <==> routeFits && numberFits && |m.buffer| <= o.bufferBytes)
  {
    Widths();
  }

  // --- Round trips ---

  /** A frame's size field is right exactly when its body is below four gigabytes. */
  lemma FrameSize(order: ByteOrder, body: seq<Byte>)
    ensures var f := Frame(order, body);
            && |f| == SIZE_BYTES + |body| && f[SIZE_BYTES..] == body && f[..SIZE_BYTES] == Put(order, |body|, SIZE_BYTES)
            && Get(order, f[..SIZE_BYTES]) < SIZES
            && (SizeMatches(order, f) <==> |body| < SIZES)
  {
    Widths();
    GetPut(order, Put(order, |body|, SIZE_BYTES));
    if |body| < SIZES {
      PutGet(order, |body|, SIZE_BYTES);
    }
  }

  /** The size field matches exactly in frames whose body is below four gigabytes. */
  lemma MatchesIffFrame(order: ByteOrder, data: seq<Byte>)
    requires |data| >= SIZE_BYTES
    ensures SizeMatches(order, data) <==> data == Frame(order, data[SIZE_BYTES..]) && |data| - SIZE_BYTES < SIZES
  {
    var f := Frame(order, data[SIZE_BYTES..]);
    FrameSize(order, data[SIZE_BYTES..]);
    GetPut(order, data[..SIZE_BYTES]);
    Widths();
    if SizeMatches(order, data) {
      assert data == data[..SIZE_BYTES] + data[SIZE_BYTES..];
    }
  }

  /** What is taken for a packet at all: a frame with a header byte, and for a message with all its fields. */
  lemma AcceptedAreFrames(o: Options, data: seq<Byte>)
    requires Legal(o)
    ensures var framed := |data| >= SIZE_BYTES && data == Frame(o.byteOrder, data[SIZE_BYTES..]) && |data| - SIZE_BYTES < SIZES;
            && CheckHeartbeat(o.byteOrder, data) == (if framed && |data| >= 5 then Ok(data[4] >= 0x80) else Err(InvalidMessage))
            && (Unpacked(o, data).Ok? <==> framed && |data| >= 5 + o.routeBytes + o.seqBytes)
            && (Unpacked(o, data).Err? ==> Unpacked(o, data).error == InvalidMessage)
  {
    if |data| >= SIZE_BYTES {
      MatchesIffFrame(o.byteOrder, data);
    }
  }

  lemma SignedField(order: ByteOrder, v: int, n: nat)
    requires n > 0 && FitsSigned(v, n)
    ensures GetSigned(order, Put(order, v, n)) == v
  {
    PutGetSigned(order, v, n);
  }

  lemma Layout(o: Options, m: Message)
    ensures var data := Frame(o.byteOrder, Body(o, m));
            && |data| == Prefix(o) + |m.buffer|
            && data[SIZE_BYTES] == DATA_BIT
            && data[5..5 + o.routeBytes] == Put(o.byteOrder, m.route, o.routeBytes)
            && data[5 + o.routeBytes..Prefix(o)] == Put(o.byteOrder, m.number, o.seqBytes)
            && data[Prefix(o)..] == m.buffer
  {
    var size, route, number := Put(o.byteOrder, |Body(o, m)|, SIZE_BYTES), Put(o.byteOrder, m.route, o.routeBytes),
                               Put(o.byteOrder, m.number, o.seqBytes);
    var data := Frame(o.byteOrder, Body(o, m));
    assert data == size + ([DATA_BIT] + (route + (number + m.buffer))) by {
      assert Body(o, m) == [DATA_BIT] + (route + (number + m.buffer));
    }
    Inside(size, [DATA_BIT], route + (number + m.buffer));
    Inside(size + [DATA_BIT], route, number + m.buffer);
    Inside(size + [DATA_BIT] + route, number, m.buffer);
  }

  /** The middle and the end of three pieces put together. */
  lemma Inside(before: seq<Byte>, piece: seq<Byte>, after: seq<Byte>)
    ensures var whole := before + (piece + after);
            && |whole| == |before| + |piece| + |after|
            && whole[|before|..|before| + |piece|] == piece
            && whole[|before| + |piece|..] == after
            && whole == (before + piece) + after
  {
  }

  /** Unpacking a packed message gives it back, exactly while its size fits the size field. */
  lemma UnpackPacked(o: Options, m: Message)
    requires Legal(o) && Refusal(o, m).None?
    ensures Unpacked(o, Packed(o, m).value) ==
            if |Body(o, m)| < SIZES then Ok(m.(number := if o.seqBytes == 0 then 0 else m.number))
            else Err(InvalidMessage)
  {
    FrameSize(o.byteOrder, Body(o, m));
    Layout(o, m);
    SignedField(o.byteOrder, m.route, o.routeBytes);
    if o.seqBytes > 0 {
      SignedField(o.byteOrder, m.number, o.seqBytes);
    }
  }

  lemma Reassembled(o: Options, data: seq<Byte>)
    requires |data| >= Prefix(o)
    ensures data[SIZE_BYTES..] == [data[SIZE_BYTES]] + data[5..5 + o.routeBytes]
                                  + data[5 + o.routeBytes..Prefix(o)] + data[Prefix(o)..]
  {
  }

  /** Packing an unpacked message gives the bytes back, but for the header byte, which becomes zero. */
  lemma PackUnpacked(o: Options, data: seq<Byte>)
    requires Legal(o) && Unpacked(o, data).Ok?
    ensures var m := Unpacked(o, data).value;
            Packed(o, m) == if |m.buffer| > o.bufferBytes then Err(MessageTooLarge) else Ok(data[SIZE_BYTES := DATA_BIT])
  {
    var m := Unpacked(o, data).value;
    var data' := data[SIZE_BYTES := DATA_BIT];
    var route, number := data[5..5 + o.routeBytes], data[5 + o.routeBytes..Prefix(o)];
    GetPutSigned(o.byteOrder, route);
    if o.seqBytes > 0 {
      GetPutSigned(o.byteOrder, number);
    }
    Reassembled(o, data');
    assert Body(o, m) == data'[SIZE_BYTES..];
    GetPut(o.byteOrder, data[..SIZE_BYTES]);
    assert data' == data[..SIZE_BYTES] + data'[SIZE_BYTES..];
  }

  /** Of the packets that `CheckHeartbeat` takes for heartbeats, those with room for the fields unpack as messages. */
  lemma HeartbeatUnpacksIff(o: Options, data: seq<Byte>)
    requires Legal(o) && CheckHeartbeat(o.byteOrder, data) == Ok(true)
    ensures Unpacked(o, data).Ok? <==> |data| >= Prefix(o)
  {
  }

  /** So a packer's own heartbeat unpacks as a message exactly when it carries the time, and then as this one. */
  lemma OwnHeartbeatUnpacksIff(o: Options, now: Int64)
    requires Legal(o)
    ensures Unpacked(o, Heartbeat(o, now)).Ok? <==> o.heartbeatTime
    ensures o.heartbeatTime ==>
              var time, m := Put(o.byteOrder, now, HEARTBEAT_TIME_BYTES), Unpacked(o, Heartbeat(o, now)).value;
              && m.route == GetSigned(o.byteOrder, time[..o.routeBytes])
              && m.number == GetSigned(o.byteOrder, time[o.routeBytes..][..o.seqBytes])
              && m.buffer == time[o.routeBytes..][o.seqBytes..]
  {
    var time := if o.heartbeatTime then Put(o.byteOrder, now, HEARTBEAT_TIME_BYTES) else [];
    FrameSize(o.byteOrder, [HEARTBEAT_BIT] + time);
    if o.heartbeatTime {
      HeartbeatFields(o, Put(o.byteOrder, 9, SIZE_BYTES), time);
    }
  }

  lemma HeartbeatFields(o: Options, size: seq<Byte>, time: seq<Byte>)
    requires Legal(o) && |size| == SIZE_BYTES && |time| == HEARTBEAT_TIME_BYTES
    ensures var data := size + ([HEARTBEAT_BIT] + time);
            && data[5..5 + o.routeBytes] == time[..o.routeBytes]
            && data[5 + o.routeBytes..Prefix(o)] == time[o.routeBytes..][..o.seqBytes]
            && data[Prefix(o)..] == time[o.routeBytes..][o.seqBytes..]
  {
    var route, number, rest := time[..o.routeBytes], time[o.routeBytes..][..o.seqBytes], time[o.routeBytes..][o.seqBytes..];
    var data := size + ([HEARTBEAT_BIT] + time);
    assert time == route + (number + rest);
    Inside(size, [HEARTBEAT_BIT], time);
    Inside(size + [HEARTBEAT_BIT], route, number + rest);
    Inside(size + [HEARTBEAT_BIT] + route, number, rest);
  }

  /** Heartbeats and data packets are told apart; an oversized data packet is refused. */
  lemma Classified(o: Options, m: Message, now: Int64)
    ensures CheckHeartbeat(o.byteOrder, Heartbeat(o, now)) == Ok(true)
    ensures CheckHeartbeat(o.byteOrder, Frame(o.byteOrder, Body(o, m))) ==
            if |Body(o, m)| < SIZES then Ok(false) else Err(InvalidMessage)
  {
    var beat := [HEARTBEAT_BIT] + if o.heartbeatTime then Put(o.byteOrder, now, HEARTBEAT_TIME_BYTES) else [];
    FrameSize(o.byteOrder, beat);
    assert Heartbeat(o, now)[SIZE_BYTES] == beat[0];
    FrameSize(o.byteOrder, Body(o, m));
    Layout(o, m);
  }
}
