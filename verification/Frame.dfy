/** The plaintext frame of the end-to-end layer and the multiplexer events it carries. */
module Frame {
  import opened Prelude
  import opened Address

  const HEADER_LEN := 5

  const MAX_FIELD := U16_MAX

  datatype FrameType = StreamData | StreamOpen | StreamClose | KeepAliveFrame | Rekey | AddressType | DatagramType

  datatype Frame = Frame(ftype: FrameType, payload: bytes)

  datatype FrameError =
    | TooShort(length: nat)
    | BadType(value: byte)
    | LengthMismatch(declared: nat, actual: nat)
    | PayloadTooLarge(length: nat)

  function TypeByte(t: FrameType): byte {
    match t
    case StreamData => 1
    case StreamOpen => 2
    case StreamClose => 3
    case KeepAliveFrame => 4
    case Rekey => 5
    case AddressType => 6
    case DatagramType => 7
  }

  function TypeOf(v: byte): Option<FrameType> {
    match v
    case 1 => Some(StreamData)
    case 2 => Some(StreamOpen)
    case 3 => Some(StreamClose)
    case 4 => Some(KeepAliveFrame)
    case 5 => Some(Rekey)
    case 6 => Some(AddressType)
    case 7 => Some(DatagramType)
    case _ => None
  }

  function Zeros(n: nat): (r: bytes)
    ensures |r| == n
  {
    seq(n, _ => 0)
  }

  predicate Fits(f: Frame) {
    |f.payload| <= MAX_FIELD
  }

  function Header(t: FrameType, payloadLen: u16, padLen: u16): (r: bytes)
    ensures |r| == HEADER_LEN
  {
    [TypeByte(t)] + ToBe16(payloadLen) + ToBe16(padLen)
  }

  /** Header, payload and whatever fills the padding. */
  function Image(f: Frame, padding: bytes): bytes
    requires Fits(f) && |padding| <= U16_MAX
  {
    Header(f.ftype, |f.payload|, |padding|) + f.payload + padding
  }

  method Encode(f: Frame, padLen: u16) returns (r: Result<bytes, FrameError>)
    ensures r == if Fits(f) then Ok(Image(f, Zeros(padLen))) else Err(PayloadTooLarge(|f.payload|))
  {
    if |f.payload| > MAX_FIELD {
      return Err(PayloadTooLarge(|f.payload|));
    }
    var buf := [TypeByte(f.ftype)];
    buf := buf + ToBe16(|f.payload|);
    buf := buf + ToBe16(padLen);
    buf := buf + f.payload;
    buf := buf + Zeros(padLen);
    r := Ok(buf);
  }

  function Decode(buf: bytes): Result<Frame, FrameError> {
    if |buf| < HEADER_LEN then Err(TooShort(|buf|))
    else if TypeOf(buf[0]).None? then Err(BadType(buf[0]))
    else
      var payloadLen: nat := FromBe16(buf[1], buf[2]);
      var padLen: nat := FromBe16(buf[3], buf[4]);
      var declared := HEADER_LEN + payloadLen + padLen;
      if declared != |buf| then Err(LengthMismatch(declared, |buf|))
      else Ok(Frame(TypeOf(buf[0]).value, buf[HEADER_LEN..HEADER_LEN + payloadLen]))
  }

  lemma DecodeInvertsImage(f: Frame, padding: bytes)
    requires Fits(f) && |padding| <= U16_MAX
    ensures Decode(Image(f, padding)) == Ok(f)
  {
    Be16RoundTrip(|f.payload|, 0, 0);
    Be16RoundTrip(|padding|, 0, 0);
    assert Image(f, padding)[HEADER_LEN..HEADER_LEN + |f.payload|] == f.payload;
  }

  lemma HeaderOf(buf: bytes)
    requires |buf| >= HEADER_LEN && TypeOf(buf[0]).Some?
    ensures Header(TypeOf(buf[0]).value, FromBe16(buf[1], buf[2]), FromBe16(buf[3], buf[4])) == buf[..HEADER_LEN]
  {
    Be16RoundTrip(0, buf[1], buf[2]);
    Be16RoundTrip(0, buf[3], buf[4]);
  }

  lemma Rejoin(buf: bytes, a: bytes, b: bytes, c: bytes)
    requires |a| + |b| <= |buf|
    requires a == buf[..|a|] && b == buf[|a|..|a| + |b|] && c == buf[|a| + |b|..]
    ensures a + b + c == buf
  {
  }

  lemma ImageInvertsDecode(buf: bytes) returns (padding: bytes)
    requires Decode(buf).Ok?
    ensures Fits(Decode(buf).value) && |padding| <= U16_MAX && Image(Decode(buf).value, padding) == buf
  {
    var f := Decode(buf).value;
    padding := buf[HEADER_LEN + |f.payload|..];
    HeaderOf(buf);
    hide Header;
    Rejoin(buf, Header(f.ftype, |f.payload|, |padding|), f.payload, padding);
  }

  /** A buffer decodes to `f` exactly when it is an image of `f` for some padding: its length
      and contents are free, and there are no bytes missing or left over. */
  lemma DecodesExactlyImages(f: Frame, buf: bytes)
    ensures Decode(buf) == Ok(f) <==>
      Fits(f) && exists padding: bytes :: |padding| <= U16_MAX && buf == Image(f, padding)
  {
    if Decode(buf) == Ok(f) {
      var padding := ImageInvertsDecode(buf);
    }
    if Fits(f) && exists padding: bytes :: |padding| <= U16_MAX && buf == Image(f, padding) {
      var padding: bytes :| |padding| <= U16_MAX && buf == Image(f, padding);
      DecodeInvertsImage(f, padding);
    }
  }

  /** A frame cut short is too short for a header or misses the length it declares; a frame with
      bytes after it misses it too; both lengths are reported. */
  lemma WrongLengthIsTold(f: Frame, padding: bytes, tail: bytes, k: nat)
    requires Fits(f) && |padding| <= U16_MAX && k < |Image(f, padding)|
    ensures Decode(Image(f, padding)[..k]) ==
      Err(if k < HEADER_LEN then TooShort(k) else LengthMismatch(|Image(f, padding)|, k))
    ensures tail != [] ==>
      Decode(Image(f, padding) + tail) == Err(LengthMismatch(|Image(f, padding)|, |Image(f, padding)| + |tail|))
  {
    Be16RoundTrip(|f.payload|, 0, 0);
    Be16RoundTrip(|padding|, 0, 0);
  }

  // ---- Multiplexer events ----

  datatype MuxEvent =
    | Open(af: AddressFrame)
    | Data(streamId: u16, data: bytes)
    | Datagram(streamId: u16, data: bytes)
    | Close(streamId: u16)
    | KeepAlive

  datatype MuxError =
    | MissingStreamId(ftype: FrameType)
    | BadAddress(error: AddressError)
    | UnexpectedType(ftype: FrameType)

  /** The encoder panics on an address frame with a domain over 255 bytes. */
  predicate Sendable(ev: MuxEvent) {
    ev.Open? ==> Encodable(ev.af)
  }

  function ToFrame(ev: MuxEvent): Frame
    requires Sendable(ev)
  {
    match ev
    case Open(af) => Frame(AddressType, Wire(af))
    case Data(id, data) => Frame(StreamData, ToBe16(id) + data)
    case Datagram(id, data) => Frame(DatagramType, ToBe16(id) + data)
    case Close(id) => Frame(StreamClose, ToBe16(id))
    case KeepAlive => Frame(KeepAliveFrame, [])
  }

  function SplitStreamId(ftype: FrameType, payload: bytes): Result<(u16, bytes), MuxError> {
    if |payload| < 2 then Err(MissingStreamId(ftype))
    else Ok((FromBe16(payload[0], payload[1]), payload[2..]))
  }

  function FromFrame(f: Frame): Result<MuxEvent, MuxError> {
    match f.ftype
    case AddressType =>
      (match Parse(f.payload)
       case Ok(af) => Ok(Open(af))
       case Err(e) => Err(BadAddress(e)))
    case StreamData =>
      (match SplitStreamId(f.ftype, f.payload)
       case Ok(p) => Ok(Data(p.0, p.1))
       case Err(e) => Err(e))
    case DatagramType =>
      (match SplitStreamId(f.ftype, f.payload)
       case Ok(p) => Ok(Datagram(p.0, p.1))
       case Err(e) => Err(e))
    case StreamClose =>
      (match SplitStreamId(f.ftype, f.payload)
       case Ok(p) => Ok(Close(p.0))
       case Err(e) => Err(e))
    case KeepAliveFrame => Ok(KeepAlive)
    case _ => Err(UnexpectedType(f.ftype))
  }

  /** Every event survives the trip through its frame, and no event travels as a Rekey. */
  lemma EventRoundTrip(ev: MuxEvent)
    requires Sendable(ev)
    ensures FromFrame(ToFrame(ev)) == Ok(ev) && ToFrame(ev).ftype != Rekey
  {
    match ev
    case Open(af) => ParseInvertsWire(af);
    case Data(id, data) =>
      Be16RoundTrip(id, 0, 0);
      assert (ToBe16(id) + data)[2..] == data;
    case Datagram(id, data) =>
      Be16RoundTrip(id, 0, 0);
      assert (ToBe16(id) + data)[2..] == data;
    case Close(id) => Be16RoundTrip(id, 0, 0);
    case KeepAlive =>
  }

  lemma StreamIdExact(f: Frame, id: u16, data: bytes)
    ensures SplitStreamId(f.ftype, f.payload) == Ok((id, data)) <==> f.payload == ToBe16(id) + data
    ensures |f.payload| >= 2 ==> (FromBe16(f.payload[0], f.payload[1]) == id <==> ToBe16(id) <= f.payload)
  {
    Be16RoundTrip(id, 0, 0);
    if |f.payload| >= 2 {
      Be16RoundTrip(0, f.payload[0], f.payload[1]);
      assert f.payload == [f.payload[0], f.payload[1]] + f.payload[2..];
      assert (ToBe16(id) + data)[2..] == data;
    }
  }

  /** A frame is read as an event exactly when it is the event's own frame; what follows the stream
      id of a Close, or fills a KeepAlive, is not looked at. */
  lemma ReadsExactlyEvents(f: Frame, ev: MuxEvent)
    ensures FromFrame(f) == Ok(ev) <==>
      && Sendable(ev) && f.ftype == ToFrame(ev).ftype
      && if ev.Close? || ev.KeepAlive? then ToFrame(ev).payload <= f.payload else ToFrame(ev).payload == f.payload
  {
    hide Parse, Wire;
    match ev
    case Open(af) => AddressBijection(af, f.payload);
    case Data(id, data) => StreamIdExact(f, id, data);
    case Datagram(id, data) => StreamIdExact(f, id, data);
    case Close(id) => StreamIdExact(f, id, if |f.payload| >= 2 then f.payload[2..] else []);
    case KeepAlive =>
  }
}
