/** The 10-byte PLG header. The client and the relay hold the same encoder and decoder. */
module PlgProtocol {
  import opened Bits
  import opened Text

  const HEADER_SIZE: nat := 10
  const FLAG_MULTIPATH_DUP: u8 := 0x01
  const FLAG_KEEPALIVE: u8 := 0x02
  const FLAG_CONTROL: u8 := 0x04

  datatype PlgPacket = PlgPacket(sessionId: u32, seqNumber: u32, flags: u8, pathId: u8, payload: seq<u8>)

  // ---------------------------------------------------------------- constructors of the client

  function Data(session: u32, number: u32, payload: seq<u8>): PlgPacket {
    PlgPacket(session, number, 0x00, 0, payload)
  }

  function Control(session: u32, number: u32, target: seq<u8>): PlgPacket {
    PlgPacket(session, number, FLAG_CONTROL, 0, target)
  }

  function Keepalive(session: u32, number: u32): PlgPacket {
    PlgPacket(session, number, FLAG_KEEPALIVE, 0, [])
  }

  function WithMultipath(p: PlgPacket, path: u8): PlgPacket {
    OrOne(p.flags);
    p.(flags := Or(p.flags, FLAG_MULTIPATH_DUP), pathId := path)
  }

  predicate IsKeepalive(p: PlgPacket) { And(p.flags, FLAG_KEEPALIVE) != 0 }

  predicate IsControl(p: PlgPacket) { And(p.flags, FLAG_CONTROL) != 0 }

  predicate IsMultipathDup(p: PlgPacket) { And(p.flags, FLAG_MULTIPATH_DUP) != 0 }

  lemma OrOne(f: nat)
    ensures Or(f, 1) == f + 1 - f % 2
  {
  }

  /** Marking a packet as a duplicate sets that flag and the path, and changes nothing else. */
  lemma MultipathKeepsKind(p: PlgPacket, path: u8)
    ensures var q := WithMultipath(p, path);
      && IsMultipathDup(q) && q.pathId == path
      && (IsKeepalive(q) <==> IsKeepalive(p)) && (IsControl(q) <==> IsControl(p))
      && q.sessionId == p.sessionId && q.seqNumber == p.seqNumber && q.payload == p.payload
  {
    OrOne(p.flags);
    FlagBits(p.flags);
    FlagBits(WithMultipath(p, path).flags);
  }

  // ---------------------------------------------------------------- the wire

  /** A packet as bytes: session, sequence number, flags, path, payload; numbers big-endian. */
  function Wire(p: PlgPacket): (d: seq<u8>)
    ensures |d| == HEADER_SIZE + |p.payload|
  {
    Octets(p.sessionId) + Octets(p.seqNumber) + [p.flags, p.pathId] + p.payload
  }

  /** Mirrors `encode` and `serialize`, which push the same parts. */
  method Encode(p: PlgPacket) returns (buf: seq<u8>)
    ensures buf == Wire(p)
  {
    buf := [];
    buf := buf + Octets(p.sessionId);
    buf := buf + Octets(p.seqNumber);
    buf := buf + [p.flags];
    buf := buf + [p.pathId];
    buf := buf + p.payload;
  }

  function Parse(data: seq<u8>): Option<PlgPacket> {
    if |data| < HEADER_SIZE then None
    else Some(PlgPacket(FromOctets(data[0..4]), FromOctets(data[4..8]), data[8], data[9], data[HEADER_SIZE..]))
  }

  /** Each end reads what the other wrote. */
  lemma ParseWire(p: PlgPacket)
    ensures Parse(Wire(p)) == Some(p)
  {
    var d := Wire(p);
    assert d[0..4] == Octets(p.sessionId) && d[4..8] == Octets(p.seqNumber) && d[10..] == p.payload;
    OctetsRoundTrip(p.sessionId);
    OctetsRoundTrip(p.seqNumber);
  }

  /** A datagram of at least a header is the wire form of exactly the packet it parses to. */
  lemma WireParse(d: seq<u8>)
    ensures Parse(d).Some? <==> |d| >= HEADER_SIZE
    ensures Parse(d).Some? ==> Wire(Parse(d).value) == d
  {
    if |d| >= HEADER_SIZE {
      FromOctetsRoundTrip(d[0..4]);
      FromOctetsRoundTrip(d[4..8]);
      assert d == d[0..4] + d[4..8] + [d[8], d[9]] + d[10..];
    }
  }

  // ---------------------------------------------------------------- control payloads

  predicate IsAscii(s: string) { forall i :: 0 <= i < |s| ==> s[i] as int < 0x80 }

  function AsciiBytes(s: string): (b: seq<u8>)
    requires IsAscii(s)
    ensures |b| == |s|
  {
    seq(|s|, i requires 0 <= i < |s| => s[i] as int)
  }

  function AsciiText(b: seq<u8>): Option<string> {
    if forall i :: 0 <= i < |b| ==> b[i] < 0x80
    then Some(seq(|b|, i requires 0 <= i < |b| => (b[i] as int) as char))
    else None
  }

  lemma AsciiRoundTrip(s: string)
    requires IsAscii(s)
    ensures AsciiText(AsciiBytes(s)) == Some(s)
  {
    assert AsciiText(AsciiBytes(s)).value == s;
  }

  /** The target text that the client puts into a control packet. */
  function ShowTarget(ip: u32, port: u16): (s: string)
    ensures IsAscii(s)
  {
    var shown := ShowIpv4(ip);
    assert forall i :: 0 <= i < |shown| ==> shown[i] in shown;
    shown + ":" + ShowDecimal(port)
  }

  /** Mirrors the relay's `parse_control_payload`. The address part has no colon, so it can only
      be an IPv4 address; a payload with a byte above 0x7F has no reading, whether or not it is
      UTF-8, because neither part accepts such a character. */
  function ParseControlPayload(payload: seq<u8>): Option<(u32, u16)> {
    match AsciiText(payload)
    case None => None
    case Some(s) =>
      match SplitOnce(s, ':')
      case None => None
      case Some((ipText, portText)) =>
        match (ParseIpv4(ipText), ParseUnsigned(portText, U16 - 1))
        case (Some(ip), Some(port)) => Some((ip, port))
        case _ => None
  }

  /** The relay reads the target that the client wrote. */
  lemma ControlTargetRoundTrip(session: u32, number: u32, ip: u32, port: u16)
    ensures var p := Parse(Wire(Control(session, number, AsciiBytes(ShowTarget(ip, port)))));
      && p.Some? && p.value.sessionId == session && p.value.seqNumber == number
      && IsControl(p.value) && !IsKeepalive(p.value) && ParseControlPayload(p.value.payload) == Some((ip, port))
  {
    var target := ShowTarget(ip, port);
    ParseWire(Control(session, number, AsciiBytes(target)));
    FlagBits(FLAG_CONTROL);
    AsciiRoundTrip(target);
    SplitOnceAt(ShowIpv4(ip), ':', ShowDecimal(port));
    ParseShownIpv4(ip);
    ParseShownUnsigned(port, U16 - 1);
  }

  /** The payload is a printed IPv4 address, a colon, and this text, which is read as the port. */
  predicate Targets(payload: seq<u8>, ip: u32, port: u16, text: string) {
    ParseUnsigned(text, 65535) == Some(port as nat) && AsciiText(payload) == Some(ShowIpv4(ip) + ":" + text)
  }

  lemma TargetRead(payload: seq<u8>, ip: u32, port: u16) returns (text: string)
    requires ParseControlPayload(payload) == Some((ip, port))
    ensures Targets(payload, ip, port, text)
  {
    var parts := SplitOnce(AsciiText(payload).value, ':').value;
    text := parts.1;
    ParseIpv4Exactly(parts.0, ip);
  }

  lemma TargetsRead(payload: seq<u8>, ip: u32, port: u16, text: string)
    requires Targets(payload, ip, port, text)
    ensures ParseControlPayload(payload) == Some((ip, port))
  {
    SplitOnceAt(ShowIpv4(ip), ':', text);
    ParseShownIpv4(ip);
  }

  /** A control payload is read exactly if it is a printed IPv4 address, a colon, and a text that
      is read as a port. */
  lemma ControlPayloadExactly(payload: seq<u8>, ip: u32, port: u16)
    ensures ParseControlPayload(payload) == Some((ip, port)) <==> exists text :: Targets(payload, ip, port, text)
  {
    if ParseControlPayload(payload) == Some((ip, port)) {
      var text := TargetRead(payload, ip, port);
    }
    forall text | Targets(payload, ip, port, text)
      ensures ParseControlPayload(payload) == Some((ip, port))
    {
      TargetsRead(payload, ip, port, text);
    }
  }

  // ---------------------------------------------------------------- layout

  /** The wire form byte by byte: session and sequence number with the most significant byte first,
      flags, path, and the payload from the eleventh byte on. */
  lemma WireLayout(p: PlgPacket)
    ensures var d := Wire(p);
      && |d| == 10 + |p.payload|
      && p.sessionId == d[0] as int * 0x100_0000 + d[1] as int * 0x1_0000 + d[2] as int * 0x100 + d[3]
      && p.seqNumber == d[4] as int * 0x100_0000 + d[5] as int * 0x1_0000 + d[6] as int * 0x100 + d[7]
      && d[8] == p.flags && d[9] == p.pathId && d[10..] == p.payload
  {
    OctetsRoundTrip(p.sessionId);
    OctetsRoundTrip(p.seqNumber);
    BigEndianValue(Octets(p.sessionId));
    BigEndianValue(Octets(p.seqNumber));
    var d := Wire(p);
    assert d[0..4] == Octets(p.sessionId) && d[4..8] == Octets(p.seqNumber) && d[10..] == p.payload;
  }

  /** The kinds by their bits: 1 marks a duplicate, 2 a keepalive and 4 a control packet. */
  lemma KindBits(p: PlgPacket)
    ensures IsMultipathDup(p) <==> p.flags % 2 == 1
    ensures IsKeepalive(p) <==> p.flags / 2 % 2 == 1
    ensures IsControl(p) <==> p.flags / 4 % 2 == 1
  {
    FlagBits(p.flags);
  }

  lemma DataBits(p: PlgPacket)
    requires p.flags < 2
    ensures !IsKeepalive(p) && !IsControl(p)
  {
    var f: int := p.flags;
    assert f / 2 == 0 && f / 4 == 0;
    KindBits(p);
  }
}
