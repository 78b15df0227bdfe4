/** The address frame that opens a logical stream, and the SOCKS5 UDP header that carries the
    same addresses on the local side. */
module Address {
  import opened Prelude

  // ---- UTF-8 (RFC 3629, section 4): domains are strings ----

  predicate Tail(b: byte) {
    0x80 <= b <= 0xBF
  }

  /** Length of the scalar value at the head of `s`, 0 if there is no valid one. */
  function ScalarLength(s: bytes): (n: nat)
    ensures n <= |s|
  {
    if |s| >= 1 && s[0] <= 0x7F then 1
    else if |s| >= 2 && 0xC2 <= s[0] <= 0xDF && Tail(s[1]) then 2
    else if |s| >= 3 && 0xE0 <= s[0] <= 0xEF && Tail(s[1]) && Tail(s[2])
      && (s[0] == 0xE0 ==> s[1] >= 0xA0) && (s[0] == 0xED ==> s[1] <= 0x9F) then 3
    else if |s| >= 4 && 0xF0 <= s[0] <= 0xF4 && Tail(s[1]) && Tail(s[2]) && Tail(s[3])
      && (s[0] == 0xF0 ==> s[1] >= 0x90) && (s[0] == 0xF4 ==> s[1] <= 0x8F) then 4
    else 0
  }

  predicate ValidUtf8(s: bytes) {
    s == [] || (ScalarLength(s) > 0 && ValidUtf8(s[ScalarLength(s)..]))
  }

  // ---- The address frame ----

  type Utf8 = s: bytes | ValidUtf8(s) witness []

  type Octets4 = s: bytes | |s| == 4 witness [0, 0, 0, 0]

  type Octets16 = s: bytes | |s| == 16 witness [0, 0, 0, 0, 0, 0, 0, 0, 0, 0, 0, 0, 0, 0, 0, 0]

  datatype Cmd = Tcp | Udp

  datatype Addr = Ipv4(v4: Octets4) | Domain(name: Utf8) | Ipv6(v6: Octets16)

  datatype AddressFrame = AddressFrame(streamId: u16, cmd: Cmd, port: u16, addr: Addr)

  datatype AddressError =
    | Truncated(field: string)
    | BadCmd(cmd: byte)
    | BadAddrType(addrType: byte)
    | DomainTooLong(length: nat)
    | DomainNotUtf8
    | TrailingBytes(count: nat)

  const MAX_DOMAIN_LEN := 255

  /** Frames the encoder accepts. */
  predicate Encodable(f: AddressFrame) {
    f.addr.Domain? ==> |f.addr.name| <= MAX_DOMAIN_LEN
  }

  function AddrType(addr: Addr): byte {
    if addr.Ipv4? then 1 else if addr.Domain? then 2 else 3
  }

  function AddrWire(addr: Addr): bytes
    requires addr.Domain? ==> |addr.name| <= MAX_DOMAIN_LEN
  {
    match addr
    case Ipv4(v4) => v4
    case Domain(name) => [|name|] + name
    case Ipv6(v6) => v6
  }

  /** The wire image: stream id, command, port, address type, address. */
  function Wire(f: AddressFrame): bytes
    requires Encodable(f)
  {
    ToBe16(f.streamId) + [if f.cmd.Tcp? then 1 else 2] + ToBe16(f.port) + [AddrType(f.addr)] + AddrWire(f.addr)
  }

  method Encode(f: AddressFrame) returns (r: Result<bytes, AddressError>)
    ensures r == if Encodable(f) then Ok(Wire(f)) else Err(DomainTooLong(|f.addr.name|))
  {
    if f.addr.Domain? && |f.addr.name| > MAX_DOMAIN_LEN {
      return Err(DomainTooLong(|f.addr.name|));
    }
    var buf := ToBe16(f.streamId);
    buf := buf + [if f.cmd.Tcp? then 1 else 2];
    buf := buf + ToBe16(f.port);
    match f.addr {
      case Ipv4(v4) =>
        buf := buf + [1];
        buf := buf + v4;
      case Domain(name) =>
        buf := buf + [2];
        buf := buf + [|name|];
        buf := buf + name;
      case Ipv6(v6) =>
        buf := buf + [3];
        buf := buf + v6;
    }
    assert buf == Wire(f);
    r := Ok(buf);
  }

  function Filled(rest: bytes, used: nat, addr: Addr): Result<Addr, AddressError>
    requires used <= |rest|
  {
    if used < |rest| then Err(TrailingBytes(|rest| - used)) else Ok(addr)
  }

  /** The address of the given type at the head of `rest`, which it must fill. */
  function ParseAddr(addrType: byte, rest: bytes): Result<Addr, AddressError> {
    match addrType
    case 1 => if |rest| < 4 then Err(Truncated("ipv4")) else Filled(rest, 4, Ipv4(rest[..4]))
    case 2 =>
      if |rest| < 1 then Err(Truncated("domain_len"))
      else
        var n: nat := rest[0];
        if |rest| < 1 + n then Err(Truncated("domain"))
        else if !ValidUtf8(rest[1..1 + n]) then Err(DomainNotUtf8)
        else Filled(rest, 1 + n, Domain(rest[1..1 + n]))
    case 3 => if |rest| < 16 then Err(Truncated("ipv6")) else Filled(rest, 16, Ipv6(rest[..16]))
    case _ => Err(BadAddrType(addrType))
  }

  /** What the decoder answers, with the first failing field as the error. */
  function Parse(buf: bytes): Result<AddressFrame, AddressError> {
    if |buf| < 2 then Err(Truncated("stream_id"))
    else if |buf| < 3 then Err(Truncated("cmd"))
    else if buf[2] != 1 && buf[2] != 2 then Err(BadCmd(buf[2]))
    else if |buf| < 5 then Err(Truncated("port"))
    else if |buf| < 6 then Err(Truncated("addr_type"))
    else match ParseAddr(buf[5], buf[6..])
      case Err(e) => Err(e)
      case Ok(addr) =>
        Ok(AddressFrame(FromBe16(buf[0], buf[1]), if buf[2] == 1 then Tcp else Udp, FromBe16(buf[3], buf[4]), addr))
  }

  /** A cursor that never reads past the end of its buffer. */
  class Cursor {
    const buf: bytes
    var pos: nat

    constructor (buf: bytes)
      ensures this.buf == buf && pos == 0
    {
      this.buf := buf;
      pos := 0;
    }

    /** Still to be read. */
    function Rest(): bytes
      requires pos <= |buf|
      reads this
    {
      buf[pos..]
    }

    method Take(n: nat, field: string) returns (r: Result<bytes, AddressError>)
      requires pos <= |buf|
      modifies this
      ensures old(pos) <= pos <= |buf|
      ensures if n <= old(|Rest()|) then r == Ok(old(Rest())[..n]) && Rest() == old(Rest())[n..]
              else r == Err(Truncated(field)) && pos == old(pos)
    {
      if pos + n > |buf| {
        return Err(Truncated(field));
      }
      assert buf[pos..pos + n] == Rest()[..n] && buf[pos + n..] == Rest()[n..];
      r := Ok(buf[pos..pos + n]);
      pos := pos + n;
    }

    method U8(field: string) returns (r: Result<byte, AddressError>)
      requires pos <= |buf|
      modifies this
      ensures old(pos) <= pos <= |buf|
      ensures if 1 <= old(|Rest()|) then r == Ok(old(Rest())[0]) && Rest() == old(Rest())[1..]
              else r == Err(Truncated(field)) && pos == old(pos)
    {
      var s := Take(1, field);
      r := if s.Ok? then Ok(s.value[0]) else Err(s.error);
    }

    method U16(field: string) returns (r: Result<u16, AddressError>)
      requires pos <= |buf|
      modifies this
      ensures old(pos) <= pos <= |buf|
      ensures if 2 <= old(|Rest()|) then r == Ok(FromBe16(old(Rest())[0], old(Rest())[1])) && Rest() == old(Rest())[2..]
              else r == Err(Truncated(field)) && pos == old(pos)
    {
      var s := Take(2, field);
      r := if s.Ok? then Ok(FromBe16(s.value[0], s.value[1])) else Err(s.error);
    }
  }

  method DecodeAddr(cur: Cursor, addrType: byte) returns (r: Result<Addr, AddressError>)
    requires cur.pos <= |cur.buf|
    modifies cur
    ensures r == ParseAddr(addrType, old(cur.Rest()))
  {
    var addr: Addr;
    match addrType {
      case 1 =>
        var o := cur.Take(4, "ipv4");
        if o.Err? {
          return Err(o.error);
        }
        addr := Ipv4(o.value);
      case 2 =>
        var len := cur.U8("domain_len");
        if len.Err? {
          return Err(len.error);
        }
        var d := cur.Take(len.value, "domain");
        if d.Err? {
          return Err(d.error);
        }
        assert d.value == old(cur.Rest())[1..1 + len.value as nat];
        if !ValidUtf8(d.value) {
          return Err(DomainNotUtf8);
        }
        addr := Domain(d.value);
      case 3 =>
        var o := cur.Take(16, "ipv6");
        if o.Err? {
          return Err(o.error);
        }
        addr := Ipv6(o.value);
      case _ =>
        return Err(BadAddrType(addrType));
    }
    var remaining := |cur.buf| - cur.pos;
    assert remaining == |cur.Rest()|;
    r := if remaining != 0 then Err(TrailingBytes(remaining)) else Ok(addr);
  }

  method Decode(buf: bytes) returns (r: Result<AddressFrame, AddressError>)
    ensures r == Parse(buf)
  {
    hide ParseAddr;
    var cur := new Cursor(buf);
    assert cur.Rest() == buf;
    var id := cur.U16("stream_id");
    if id.Err? {
      return Err(id.error);
    }
    var cmd := cur.U8("cmd");
    if cmd.Err? {
      return Err(cmd.error);
    }
    if cmd.value != 1 && cmd.value != 2 {
      return Err(BadCmd(buf[2]));
    }
    var port := cur.U16("port");
    if port.Err? {
      return Err(port.error);
    }
    var addrType := cur.U8("addr_type");
    if addrType.Err? {
      return Err(addrType.error);
    }
    assert cur.Rest() == buf[6..];
    var addr := DecodeAddr(cur, addrType.value);
    if addr.Err? {
      return Err(addr.error);
    }
    r := Ok(AddressFrame(id.value, if cmd.value == 1 then Tcp else Udp, port.value, addr.value));
  }

  lemma ParseAddrInverts(addr: Addr)
    requires addr.Domain? ==> |addr.name| <= MAX_DOMAIN_LEN
    ensures ParseAddr(AddrType(addr), AddrWire(addr)) == Ok(addr)
  {
    match addr
    case Ipv4(v4) => assert v4[..4] == v4;
    case Domain(name) => assert AddrWire(addr)[1..1 + |name|] == name;
    case Ipv6(v6) => assert v6[..16] == v6;
  }

  lemma AddrWireInverts(addrType: byte, rest: bytes)
    requires ParseAddr(addrType, rest).Ok?
    ensures var addr := ParseAddr(addrType, rest).value;
      && (addr.Domain? ==> |addr.name| <= MAX_DOMAIN_LEN)
      && AddrType(addr) == addrType && AddrWire(addr) == rest
  {
    if addrType == 2 {
      assert rest == [rest[0]] + rest[1..];
    }
  }

  lemma ParseInvertsWire(f: AddressFrame)
    requires Encodable(f)
    ensures Parse(Wire(f)) == Ok(f)
  {
    hide ParseAddr, AddrWire;
    Be16RoundTrip(f.streamId, 0, 0);
    Be16RoundTrip(f.port, 0, 0);
    ParseAddrInverts(f.addr);
    assert Wire(f)[6..] == AddrWire(f.addr);
  }

  lemma WireInvertsParse(buf: bytes)
    requires Parse(buf).Ok?
    ensures Encodable(Parse(buf).value) && Wire(Parse(buf).value) == buf
  {
    hide ParseAddr, AddrWire;
    Be16RoundTrip(0, buf[0], buf[1]);
    Be16RoundTrip(0, buf[3], buf[4]);
    AddrWireInverts(buf[5], buf[6..]);
    assert buf == buf[..6] + buf[6..];
  }

  /** The decoder accepts exactly the images of encodable frames, and each inverts the other. */
  lemma AddressBijection(f: AddressFrame, buf: bytes)
    ensures Parse(buf) == Ok(f) <==> Encodable(f) && buf == Wire(f)
  {
    if Encodable(f) {
      ParseInvertsWire(f);
    }
    if Parse(buf).Ok? {
      WireInvertsParse(buf);
    }
  }

  // ---- What is wrong with a buffer ----

  /** The field of a frame that byte `k` belongs to. */
  function FieldAt(f: AddressFrame, k: nat): string {
    if k < 2 then "stream_id"
    else if k < 3 then "cmd"
    else if k < 5 then "port"
    else if k < 6 then "addr_type"
    else match f.addr
      case Ipv4(_) => "ipv4"
      case Domain(_) => if k < 7 then "domain_len" else "domain"
      case Ipv6(_) => "ipv6"
  }

  lemma WireFields(f: AddressFrame, tail: bytes)
    requires Encodable(f)
    ensures var s := Wire(f) + tail;
      && |Wire(f)| == 6 + |AddrWire(f.addr)|
      && s[2] == (if f.cmd.Tcp? then 1 else 2) && s[5] == AddrType(f.addr)
      && s[6..] == AddrWire(f.addr) + tail
      && FromBe16(s[0], s[1]) == f.streamId && FromBe16(s[3], s[4]) == f.port
  {
    hide AddrWire;
    Be16RoundTrip(f.streamId, 0, 0);
    Be16RoundTrip(f.port, 0, 0);
  }

  lemma AddrCut(f: AddressFrame, k: nat)
    requires Encodable(f) && 6 <= k < 6 + |AddrWire(f.addr)|
    ensures ParseAddr(AddrType(f.addr), AddrWire(f.addr)[..k - 6]) == Err(Truncated(FieldAt(f, k)))
  {
  }

  /** A frame cut short anywhere is an error that names the field the cut is in. */
  lemma CutNamesItsField(f: AddressFrame, k: nat)
    requires Encodable(f) && k < |Wire(f)|
    ensures Parse(Wire(f)[..k]) == Err(Truncated(FieldAt(f, k)))
  {
    WireFields(f, []);
    assert Wire(f) + [] == Wire(f);
    if k >= 6 {
      AddrCut(f, k);
      assert Wire(f)[..k][6..] == AddrWire(f.addr)[..k - 6];
      assert Wire(f)[..k][5] == AddrType(f.addr);
    }
    hide Wire, ParseAddr, AddrWire;
  }

  lemma AddrExtra(addr: Addr, tail: bytes)
    requires (addr.Domain? ==> |addr.name| <= MAX_DOMAIN_LEN) && tail != []
    ensures ParseAddr(AddrType(addr), AddrWire(addr) + tail) == Err(TrailingBytes(|tail|))
  {
    if addr.Domain? {
      assert (AddrWire(addr) + tail)[1..1 + |addr.name|] == addr.name;
    }
  }

  /** Bytes after a frame are counted. */
  lemma ExtraIsTrailing(f: AddressFrame, tail: bytes)
    requires Encodable(f) && tail != []
    ensures Parse(Wire(f) + tail) == Err(TrailingBytes(|tail|))
  {
    WireFields(f, tail);
    AddrExtra(f.addr, tail);
    hide Wire, ParseAddr, AddrWire;
  }

  /** A command or an address type that is none, and a domain that is no text, with everything before
      it in place. */
  lemma BadFieldIsNamed(buf: bytes)
    requires |buf| >= 3
    ensures buf[2] != 1 && buf[2] != 2 <==> Parse(buf) == Err(BadCmd(buf[2]))
    ensures |buf| >= 6 && (buf[2] == 1 || buf[2] == 2) ==>
      (buf[5] < 1 || buf[5] > 3 <==> Parse(buf) == Err(BadAddrType(buf[5])))
    ensures |buf| >= 7 && (buf[2] == 1 || buf[2] == 2) && buf[5] == 2 && |buf| >= 7 + buf[6] as nat ==>
      (!ValidUtf8(buf[7..7 + buf[6]]) <==> Parse(buf) == Err(DomainNotUtf8))
  {
    hide ValidUtf8;
    if |buf| >= 7 && |buf| >= 7 + buf[6] as nat {
      assert buf[6..][1..1 + buf[6] as nat] == buf[7..7 + buf[6]];
    }
  }

  // ---- The SOCKS5 UDP header (RFC 1928, section 7) ----

  /** The length byte of a domain is its length cut to eight bits. */
  function BuildUdpHeader(addr: Addr, port: u16): bytes {
    [0, 0, 0] +
    (match addr
     case Ipv4(v4) => [1] + v4
     case Domain(name) => [3, |name| % 0x100] + name
     case Ipv6(v6) => [4] + v6) +
    ToBe16(port)
  }

  /** The target, the port and the offset of the data, or nothing for a malformed or
      fragmented datagram. */
  function ParseUdpHeader(buf: bytes): (r: Option<(Addr, u16, nat)>)
    ensures r.Some? ==> r.value.2 <= |buf|
  {
    if |buf| < 4 || buf[0] != 0 || buf[1] != 0 || buf[2] != 0 then None
    else if buf[3] == 1 then
      if |buf| < 10 then None else Some((Ipv4(buf[4..8]), FromBe16(buf[8], buf[9]), 10))
    else if buf[3] == 3 then
      if |buf| < 5 then None
      else
        var end: nat := 5 + buf[4] as nat;
        if |buf| < end + 2 then None
        else if !ValidUtf8(buf[5..end]) then None
        else Some((Domain(buf[5..end]), FromBe16(buf[end], buf[end + 1]), end + 2))
    else if buf[3] == 4 then
      if |buf| < 22 then None else Some((Ipv6(buf[4..20]), FromBe16(buf[20], buf[21]), 22))
    else None
  }

  lemma UdpFixedRoundTrip(addr: Addr, port: u16, data: bytes)
    requires !addr.Domain?
    ensures ParseUdpHeader(BuildUdpHeader(addr, port) + data) == Some((addr, port, |BuildUdpHeader(addr, port)|))
  {
    Be16RoundTrip(port, 0, 0);
    var buf := BuildUdpHeader(addr, port) + data;
    if addr.Ipv4? {
      assert buf[4..8] == addr.v4;
    } else {
      assert buf[4..20] == addr.v6;
    }
  }

  lemma UdpDomainRoundTrip(addr: Addr, port: u16, data: bytes)
    requires addr.Domain?
    ensures ParseUdpHeader(BuildUdpHeader(addr, port) + data) == Some((addr, port, |BuildUdpHeader(addr, port)|))
      <==> |addr.name| <= MAX_DOMAIN_LEN
  {
    hide ValidUtf8, ScalarLength;
    Be16RoundTrip(port, 0, 0);
    var buf := BuildUdpHeader(addr, port) + data;
    assert buf[4] == |addr.name| % 0x100 && |buf| == 7 + |addr.name| + |data|;
    if |addr.name| <= MAX_DOMAIN_LEN {
      assert buf[5..5 + |addr.name|] == addr.name;
    } else {
      assert |buf[5..5 + buf[4]]| < |addr.name|;
    }
  }

  /** The header parses back, with the offset exactly at the data, if and only if the domain
      has at most 255 bytes. */
  lemma UdpHeaderRoundTrip(addr: Addr, port: u16, data: bytes)
    ensures ParseUdpHeader(BuildUdpHeader(addr, port) + data) == Some((addr, port, |BuildUdpHeader(addr, port)|))
      <==> (addr.Domain? ==> |addr.name| <= MAX_DOMAIN_LEN)
  {
    hide BuildUdpHeader, ParseUdpHeader;
    if addr.Domain? {
      UdpDomainRoundTrip(addr, port, data);
    } else {
      UdpFixedRoundTrip(addr, port, data);
    }
  }

  lemma Joined(buf: bytes, a: bytes, b: bytes, c: bytes)
    requires |a| + |b| + |c| <= |buf|
    requires a == buf[..|a|] && b == buf[|a|..|a| + |b|] && c == buf[|a| + |b|..|a| + |b| + |c|]
    ensures a + b + c == buf[..|a| + |b| + |c|]
  {
  }

  lemma HeadByte(buf: bytes, i: nat, j: nat)
    requires i < j <= |buf|
    ensures buf[i..j] == [buf[i]] + buf[i + 1..j]
  {
  }

  lemma PortBytes(buf: bytes, i: nat)
    requires i + 2 <= |buf|
    ensures buf[i..i + 2] == ToBe16(FromBe16(buf[i], buf[i + 1]))
  {
    Be16RoundTrip(0, buf[i], buf[i + 1]);
  }

  lemma UdpFixedRebuilt(buf: bytes, size: nat)
    requires (size == 4 && |buf| >= 10 && buf[3] == 1) || (size == 16 && |buf| >= 22 && buf[3] == 4)
    requires buf[0] == buf[1] == buf[2] == 0
    ensures var addr := if size == 4 then Ipv4(buf[4..8]) else Ipv6(buf[4..20]);
      BuildUdpHeader(addr, FromBe16(buf[4 + size], buf[5 + size])) == buf[..6 + size]
  {
    hide FromBe16, ToBe16;
    PortBytes(buf, 4 + size);
    HeadByte(buf, 3, 4 + size);
    Joined(buf, [0, 0, 0], [buf[3]] + buf[4..4 + size], ToBe16(FromBe16(buf[4 + size], buf[5 + size])));
  }

  lemma UdpDomainRebuilt(buf: bytes, name: Utf8)
    requires |buf| >= 5 && |buf| >= 7 + buf[4] as nat && buf[3] == 3 && name == buf[5..5 + buf[4]]
    requires buf[0] == buf[1] == buf[2] == 0
    ensures var end: nat := 5 + buf[4] as nat;
      BuildUdpHeader(Domain(name), FromBe16(buf[end], buf[end + 1])) == buf[..end + 2]
  {
    hide ValidUtf8, FromBe16, ToBe16;
    var end: nat := 5 + buf[4] as nat;
    PortBytes(buf, end);
    HeadByte(buf, 3, end);
    HeadByte(buf, 4, end);
    assert [3] + ([buf[4]] + name) == [3, buf[4]] + name;
    Joined(buf, [0, 0, 0], [3, buf[4]] + name, ToBe16(FromBe16(buf[end], buf[end + 1])));
  }

  lemma UdpHeaderRebuilt(buf: bytes)
    requires ParseUdpHeader(buf).Some?
    ensures var (addr, port, n) := ParseUdpHeader(buf).value;
      && (addr.Domain? ==> |addr.name| <= MAX_DOMAIN_LEN)
      && n <= |buf| && BuildUdpHeader(addr, port) == buf[..n]
  {
    hide ValidUtf8, ScalarLength, BuildUdpHeader;
    if buf[3] == 1 {
      UdpFixedRebuilt(buf, 4);
    } else if buf[3] == 3 {
      UdpDomainRebuilt(buf, ParseUdpHeader(buf).value.0.name);
    } else {
      UdpFixedRebuilt(buf, 16);
    }
  }

  /** Nothing else parses: a target, port and offset come out exactly when the datagram begins with
      the header built for them, the reserved bytes and the fragment number all zero. */
  lemma UdpHeaderExact(buf: bytes, addr: Addr, port: u16, n: nat)
    ensures ParseUdpHeader(buf) == Some((addr, port, n)) <==>
      && (addr.Domain? ==> |addr.name| <= MAX_DOMAIN_LEN)
      && n == |BuildUdpHeader(addr, port)| && BuildUdpHeader(addr, port) <= buf
  {
    if ParseUdpHeader(buf) == Some((addr, port, n)) {
      UdpHeaderRebuilt(buf);
    }
    if (addr.Domain? ==> |addr.name| <= MAX_DOMAIN_LEN) && BuildUdpHeader(addr, port) <= buf {
      var header := BuildUdpHeader(addr, port);
      assert buf == header + buf[|header|..];
      UdpHeaderRoundTrip(addr, port, buf[|header|..]);
    }
    hide BuildUdpHeader, ParseUdpHeader;
  }
}
