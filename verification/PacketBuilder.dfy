/** The raw IPv4/UDP packets that the client injects, and the header parser of its capture
    thread.

    A `Vec` that grows is a `seq` variable. u16 and u32 additions wrap, as they do in a release
    build, so nothing is required of the payload's length.
 */
module PacketBuilder {
  import opened Bits
  import opened Text
  import opened OnesComplement

  const MAX_PAYLOAD: nat := 65507
  const UDP: u8 := 17

  function BigEndian16(x: u16): seq<u8> { [x / 0x100, x % 0x100] }

  function FromBigEndian16(hi: u8, lo: u8): u16 {
    var h: int := hi;
    h * 0x100 + lo
  }

  /** The bytes verify: the one's-complement sum of their words, the checksum included, is 0xFFFF. */
  predicate Verifies(ws: seq<u16>) { OnesSum(0, ws) == 0xFFFF }

  /** The pseudo-header of RFC 768: both addresses, the protocol and the UDP length. */
  function PseudoHeader(src: seq<u8>, dst: seq<u8>, length: nat): seq<u16>
    requires |src| == 4 && |dst| == 4 && length < U16
  {
    [WordAt(src, 0), WordAt(src, 2), WordAt(dst, 0), WordAt(dst, 2), UDP as int, length]
  }

  /** Words verify exactly if they are not all zero and their sum is divisible by 65535. */
  lemma VerifiesExactly(ws: seq<u16>)
    ensures Verifies(ws) <==> WordSum(ws) > 0 && WordSum(ws) % 65535 == 0
  {
    OnesSumIsResidue(0, ws);
  }

  lemma PseudoHeaderWords(src: u32, dst: u32, length: u16)
    ensures PseudoHeader(Octets(src), Octets(dst), length)
         == [src / 0x1_0000, src % 0x1_0000, dst / 0x1_0000, dst % 0x1_0000, 17, length]
  {
    AddressWords(src);
    AddressWords(dst);
  }

  lemma AddressWords(a: u32)
    ensures WordAt(Octets(a), 0) == a / 0x1_0000 && WordAt(Octets(a), 2) == a % 0x1_0000
  {
  }

  // ---------------------------------------------------------------- checksums

  /** The two folding loops are the same code. */
  method Fold(start: u32) returns (sum: u16)
    ensures sum == FoldCarries(start)
  {
    var acc := start;
    while acc / U16 != 0
      invariant 0 <= acc && FoldCarries(acc) == FoldCarries(start)
      decreases acc
    {
      AndLowMask(acc, 16);
      Pow2Values();
      acc := And(acc, 0xFFFF) + acc / U16;
    }
    sum := acc;
  }

  /** Mirrors the choice of `word` in both summing loops. */
  function ReadWord(b: seq<u8>, i: nat): (w: u16)
    requires i < |b|
    ensures w == WordAt(b, i)
  {
    var hi: int := b[i];
    if i + 1 < |b| then MergeBytes(b[i], b[i + 1]); Or(hi * 0x100, b[i + 1]) else hi * 0x100
  }

  lemma WrappedSum(x: nat, y: nat, z: nat)
    ensures ((x + y) % U32 + z) % U32 == (x + (y + z)) % U32
  {
  }

  /** The summing loop of both checksums: u32 additions that wrap. */
  method AccumulateWords(start: u32, b: seq<u8>, skip: nat) returns (sum: u32)
    ensures sum == (start + WordSum(WordsFrom(b, 0, skip))) % U32
  {
    sum := start;
    var i := 0;
    ghost var total := (start + WordSum(WordsFrom(b, 0, skip))) % U32;
    while i < |b|
      invariant (sum + WordSum(WordsFrom(b, i, skip))) % U32 == total
      decreases |b| - i
    {
      if i == skip {
        i := i + 2;
        continue;
      }
      var word := ReadWord(b, i);
      assert WordsFrom(b, i, skip)[1..] == WordsFrom(b, i + 2, skip);
      WrappedSum(sum, word, WordSum(WordsFrom(b, i + 2, skip)));
      sum := (sum + word) % U32;
      i := i + 2;
    }
  }

  /** `!sum as u16`: the complement in 32 bits, truncated. */
  function Complement(sum: u16): (c: u16)
    ensures c == 0xFFFF - sum
  {
    Not32(sum) % U16
  }

  /** Mirrors `compute_ip_checksum`. The bound keeps the u32 accumulator from wrapping. */
  method ComputeIpChecksum(header: seq<u8>) returns (c: u16)
    ensures |header| <= U16 ==> c == 0xFFFF - OnesSum(0, WordsFrom(header, 0, 10))
  {
    var sum := AccumulateWords(0, header, 10);
    if |header| <= U16 {
      SumDoesNotWrap(0, header, 0, 10);
      FoldedSum(sum, WordsFrom(header, 0, 10));
    }
    var folded := Fold(sum);
    c := Complement(folded);
  }

  lemma FoldedSum(sum: nat, ws: seq<u16>)
    requires sum == WordSum(ws)
    ensures FoldCarries(sum) == OnesSum(0, ws)
  {
    DeferredCarries(ws);
  }

  lemma FewWordsFit(start: nat, sum: nat, length: nat)
    requires sum <= 0x8000 * (length + 1) && length <= U16 && start < 0x6_0000
    ensures (start + sum) % U32 == start + sum
  {
  }

  /** The words of at most 2^16 bytes do not wrap the accumulator. */
  lemma SumDoesNotWrap(start: u32, b: seq<u8>, i: nat, skip: int)
    requires |b| <= U16 && i <= |b| + 1 && start < 0x6_0000
    ensures (start + WordSum(WordsFrom(b, i, skip))) % U32 == start + WordSum(WordsFrom(b, i, skip))
  {
    WordSumBound(b, i, skip);
    FewWordsFit(start, WordSum(WordsFrom(b, i, skip)), |b|);
  }

  /** The first six additions of `compute_udp_checksum`. */
  method SumPseudoHeader(src: seq<u8>, dst: seq<u8>, length: nat) returns (sum: u32)
    requires |src| == 4 && |dst| == 4
    ensures length < U16 ==> sum == WordSum(PseudoHeader(src, dst, length)) < 0x6_0000
  {
    sum := 0;
    sum := AddWord(sum, src, 0);
    sum := AddWord(sum, src, 2);
    sum := AddWord(sum, dst, 0);
    sum := AddWord(sum, dst, 2);
    sum := sum + 17;
    LengthDoesNotWrap(sum, length);
    sum := (sum + length % U32) % U32;
    PseudoHeaderSum(src, dst, length);
  }

  /** One of the additions of an address word, which are too few to wrap. */
  function AddWord(sum: u32, b: seq<u8>, i: nat): (r: u32)
    requires i < |b| && sum <= 0x3_0000
    ensures r == sum + WordAt(b, i) <= sum + 0xFFFF
  {
    sum + ReadWord(b, i)
  }

  lemma LengthDoesNotWrap(sum: nat, length: nat)
    requires sum < 0x5_0000
    ensures length < U16 ==> (sum + length % U32) % U32 == sum + length
  {
  }

  /** Mirrors `compute_udp_checksum`. */
  method ComputeUdpChecksum(src: seq<u8>, dst: seq<u8>, segment: seq<u8>) returns (c: u16)
    requires |src| == 4 && |dst| == 4
    ensures c != 0
    ensures |segment| < U16 ==>
      var sum := OnesSum(0, PseudoHeader(src, dst, |segment|) + WordsFrom(segment, 0, 6));
      c == if sum == 0xFFFF then 0xFFFF else 0xFFFF - sum
  {
    var pseudo := SumPseudoHeader(src, dst, |segment|);
    var sum := AccumulateWords(pseudo, segment, 6);
    if |segment| < U16 {
      SumDoesNotWrap(pseudo, segment, 0, 6);
      WordSumAppend(PseudoHeader(src, dst, |segment|), WordsFrom(segment, 0, 6));
      FoldedSum(sum, PseudoHeader(src, dst, |segment|) + WordsFrom(segment, 0, 6));
    }
    var folded := Fold(sum);
    c := Complement(folded);
    if c == 0 {
      c := 0xFFFF;
    }
  }

  lemma PseudoHeaderSum(src: seq<u8>, dst: seq<u8>, length: nat)
    requires |src| == 4 && |dst| == 4
    ensures length < U16 ==>
      WordSum(PseudoHeader(src, dst, length))
      == WordAt(src, 0) + WordAt(src, 2) + WordAt(dst, 0) + WordAt(dst, 2) + 17 + length
  {
    if length < U16 {
      SumOfSix(PseudoHeader(src, dst, length));
    }
  }

  lemma SumOfSix(p: seq<u16>)
    requires |p| == 6
    ensures WordSum(p) == (p[0] as int) + p[1] + p[2] + p[3] + p[4] + p[5]
  {
    assert p[1..][1..] == p[2..] && p[2..][1..] == p[3..] && p[3..][1..] == p[4..]
      && p[4..][1..] == p[5..] && p[5..][1..] == [];
    assert WordSum(p[5..]) == p[5] && WordSum(p[4..]) == p[4] + WordSum(p[5..])
      && WordSum(p[3..]) == p[3] + WordSum(p[4..]) && WordSum(p[2..]) == p[2] + WordSum(p[3..])
      && WordSum(p[1..]) == p[1] + WordSum(p[2..]);
  }

  // ---------------------------------------------------------------- the packet

  /** The 20 header bytes with both checksum bytes zero. */
  function BlankHeader(src: u32, dst: u32, totalLength: u16): (h: seq<u8>)
    ensures |h| == 20
  {
    [0x45, 0x00] + BigEndian16(totalLength) + [0x00, 0x00, 0x40, 0x00, 64, UDP, 0x00, 0x00] + Octets(src) + Octets(dst)
  }

  function BlankSegment(srcPort: u16, dstPort: u16, udpLength: u16, payload: seq<u8>): (s: seq<u8>)
    ensures |s| == 8 + |payload|
  {
    BigEndian16(srcPort) + BigEndian16(dstPort) + BigEndian16(udpLength) + [0x00, 0x00] + payload
  }

  /** A word written over the two bytes at an offset. */
  function PutWord(b: seq<u8>, at: nat, w: u16): (r: seq<u8>)
    requires at + 1 < |b|
    ensures |r| == |b|
  {
    b[at := w / 0x100][at + 1 := w % 0x100]
  }

  /** Words that sum to those of `ws` and the complement of their sum verify. */
  lemma ComplementedSumVerifies(ws: seq<u16>, patched: seq<u16>, c: u16)
    requires WordSum(ws) > 0 && WordSum(patched) == WordSum(ws) + c
    requires c == 0xFFFF - OnesSum(0, ws) || (OnesSum(0, ws) == 0xFFFF && c == 0xFFFF)
    ensures Verifies(patched)
  {
    OnesSumIsResidue(0, ws);
    ComplementVerifies(WordSum(ws), c);
    OnesSumIsResidue(0, patched);
  }

  /** A header whose checksum field holds the complement of the rest verifies. */
  lemma PatchedHeaderVerifies(h: seq<u8>, c: u16)
    requires |h| == 20 && h[0] == 0x45 && c == 0xFFFF - OnesSum(0, WordsFrom(h, 0, 10))
    ensures Verifies(Words(PutWord(h, 10, c)))
  {
    assert WordsFrom(h, 0, 10)[0] == WordAt(h, 0);
    WordSumPatched(h, 0, 10, c / 0x100, c % 0x100);
    ComplementedSumVerifies(WordsFrom(h, 0, 10), Words(PutWord(h, 10, c)), c);
  }

  lemma PatchedSegmentSum(pseudo: seq<u16>, s: seq<u8>, c: u16)
    requires |s| >= 8
    ensures WordSum(pseudo + Words(PutWord(s, 6, c))) == WordSum(pseudo + WordsFrom(s, 0, 6)) + c
  {
    WordSumAppend(pseudo, WordsFrom(s, 0, 6));
    WordSumPatched(s, 0, 6, c / 0x100, c % 0x100);
    WordSumAppend(pseudo, Words(PutWord(s, 6, c)));
  }

  lemma PatchedSegmentVerifies(pseudo: seq<u16>, s: seq<u8>, c: u16)
    requires |s| >= 8 && WordSum(pseudo) > 0
    requires var sum := OnesSum(0, pseudo + WordsFrom(s, 0, 6)); c == if sum == 0xFFFF then 0xFFFF else 0xFFFF - sum
    ensures Verifies(pseudo + Words(PutWord(s, 6, c)))
  {
    WordSumAppend(pseudo, WordsFrom(s, 0, 6));
    PatchedSegmentSum(pseudo, s, c);
    ComplementedSumVerifies(pseudo + WordsFrom(s, 0, 6), pseudo + Words(PutWord(s, 6, c)), c);
  }

  /** The first half of `build_udp_response`. */
  method BuildHeader(src: u32, dst: u32, totalLength: u16) returns (buf: seq<u8>)
    ensures |buf| == 20 && Verifies(Words(buf))
    ensures buf[..2] == [0x45, 0x00] && buf[9] == UDP
    ensures FromBigEndian16(buf[2], buf[3]) == totalLength
    ensures buf[4..9] == [0x00, 0x00, 0x40, 0x00, 64]
    ensures buf[12..16] == Octets(src) && buf[16..20] == Octets(dst)
  {
    buf := [0x45];
    buf := buf + [0x00];
    buf := buf + BigEndian16(totalLength);
    buf := buf + [0x00, 0x00];
    buf := buf + [0x40, 0x00];
    buf := buf + [64];
    buf := buf + [17];
    buf := buf + [0x00, 0x00];
    buf := buf + Octets(src);
    buf := buf + Octets(dst);
    ghost var blank := BlankHeader(src, dst, totalLength);
    assert buf == blank && buf[..20] == blank;
    var ipChecksum := ComputeIpChecksum(buf[..20]);
    buf := buf[10 := ipChecksum / 0x100];
    buf := buf[11 := ipChecksum % 0x100];
    PatchedHeaderVerifies(blank, ipChecksum);
  }

  /** The second half of `build_udp_response`, on the bytes after the header. */
  method BuildSegment(src: u32, dst: u32, srcPort: u16, dstPort: u16, udpLength: u16, payload: seq<u8>)
    returns (buf: seq<u8>)
    ensures |buf| == 8 + |payload| && buf[8..] == payload
    ensures FromBigEndian16(buf[0], buf[1]) == srcPort && FromBigEndian16(buf[2], buf[3]) == dstPort
    ensures FromBigEndian16(buf[4], buf[5]) == udpLength
    ensures FromBigEndian16(buf[6], buf[7]) != 0
    ensures |buf| < U16 ==> Verifies(PseudoHeader(Octets(src), Octets(dst), |buf|) + Words(buf))
  {
    buf := BigEndian16(srcPort);
    buf := buf + BigEndian16(dstPort);
    buf := buf + BigEndian16(udpLength);
    buf := buf + [0x00, 0x00];
    buf := buf + payload;
    ghost var blank := BlankSegment(srcPort, dstPort, udpLength, payload);
    var udpChecksum := ComputeUdpChecksum(Octets(src), Octets(dst), buf);
    buf := buf[6 := udpChecksum / 0x100];
    buf := buf[7 := udpChecksum % 0x100];
    if |buf| < U16 {
      PseudoHeaderSum(Octets(src), Octets(dst), |buf|);
      PatchedSegmentVerifies(PseudoHeader(Octets(src), Octets(dst), |buf|), blank, udpChecksum);
    }
  }

  /** Mirrors `build_udp_response`. */
  method BuildUdpResponse(src: u32, dst: u32, srcPort: u16, dstPort: u16, payload: seq<u8>) returns (buf: seq<u8>)
    ensures |buf| == 28 + |payload|
    // the header checksum always verifies; the UDP checksum does for every payload a datagram can hold
    ensures Verifies(Words(buf[..20]))
    ensures |payload| <= MAX_PAYLOAD ==>
      Verifies(PseudoHeader(Octets(src), Octets(dst), 8 + |payload|) + Words(buf[20..]))
    ensures FromBigEndian16(buf[26], buf[27]) != 0
    // the total length tells the truth exactly for those payloads, and the UDP length does for them
    ensures FromBigEndian16(buf[2], buf[3]) == |buf| <==> |payload| <= MAX_PAYLOAD
    ensures |payload| <= MAX_PAYLOAD ==> FromBigEndian16(buf[24], buf[25]) == 8 + |payload|
    // version 4 with a header of five words, no service class; don't fragment, no offset, TTL 64, UDP
    ensures buf[..2] == [0x45, 0x00] && buf[4..10] == [0x00, 0x00, 0x40, 0x00, 64, 17]
    // the capture thread's parser reads every argument back
    ensures ParseCaptured(buf) == Datagram(src, dst, srcPort, dstPort, payload)
  {
    var udpLength: u16 := (8 + |payload| % U16) % U16;
    var totalLength: u16 := (20 + udpLength) % U16;
    var header := BuildHeader(src, dst, totalLength);
    var segment := BuildSegment(src, dst, srcPort, dstPort, udpLength, payload);
    buf := header + segment;
    CapturedParts(header, segment);
    OctetsRoundTrip(src);
    OctetsRoundTrip(dst);
    LengthFields(|payload|);
    assert buf[..20] == header && buf[20..] == segment;
  }

  lemma LengthFields(n: nat)
    ensures (20 + (8 + n % U16) % U16) % U16 == 28 + n <==> n <= MAX_PAYLOAD
    ensures n <= MAX_PAYLOAD ==> (8 + n % U16) % U16 == 8 + n
  {
  }

  // ---------------------------------------------------------------- the capture thread's parser

  datatype Captured =
    | TooShort
    | NotUdp
    | Datagram(src: u32, dst: u32, srcPort: u16, dstPort: u16, payload: seq<u8>)

  /** The header parser of the capture thread. */
  function ParseCaptured(data: seq<u8>): Captured {
    if |data| < 28 then TooShort else
    var ihl := And(data[0], 0x0F) * 4;
    if |data| < ihl + 8 then TooShort
    else if data[9] != UDP then NotUdp
    else Datagram(FromOctets(data[12..16]), FromOctets(data[16..20]),
                  FromBigEndian16(data[ihl], data[ihl + 1]), FromBigEndian16(data[ihl + 2], data[ihl + 3]),
                  data[ihl + 8..])
  }

  /** A 20-byte header and a segment are parsed back part by part. */
  lemma CapturedParts(header: seq<u8>, segment: seq<u8>)
    requires |header| == 20 && |segment| >= 8 && header[0] == 0x45 && header[9] == UDP
    ensures ParseCaptured(header + segment)
         == Datagram(FromOctets(header[12..16]), FromOctets(header[16..20]),
                     FromBigEndian16(segment[0], segment[1]), FromBigEndian16(segment[2], segment[3]), segment[8..])
  {
    var buf := header + segment;
    assert And(0x45, 0x0F) == 5 by {
      AndLowMask(0x45, 4);
      assert Pow2(4) == 16;
    }
    assert buf[12..16] == header[12..16] && buf[16..20] == header[16..20];
    assert buf[28..] == segment[8..];
  }

  /** A big-endian number of four bytes in a packet. */
  function Word32(data: seq<u8>, i: nat): int
    requires i + 3 < |data|
  {
    data[i] as int * 0x100_0000 + data[i + 1] as int * 0x1_0000 + data[i + 2] as int * 0x100 + data[i + 3]
  }

  /** The capture thread's reading of any bytes: the low half of the first byte is the length of the
      header in words, options included, and the UDP header follows it. */
  lemma CapturedExactly(data: seq<u8>)
    ensures |data| < 28 ==> ParseCaptured(data) == TooShort
    ensures |data| >= 28 ==>
      var ihl := data[0] as int % 16 * 4;
      ParseCaptured(data) ==
        if |data| < ihl + 8 then TooShort
        else if data[9] != 17 then NotUdp
        else Datagram(Word32(data, 12), Word32(data, 16),
                      data[ihl] as int * 0x100 + data[ihl + 1], data[ihl + 2] as int * 0x100 + data[ihl + 3],
                      data[ihl + 8..])
  {
    if |data| >= 28 {
      LowHalf(data[0]);
      BigEndianValue(data[12..16]);
      BigEndianValue(data[16..20]);
    }
  }

  lemma LowHalf(b: u8)
    ensures And(b, 0x0F) == b as int % 16
  {
    assert Pow2(4) == 16;
    AndLowMask(b, 4);
  }
}
