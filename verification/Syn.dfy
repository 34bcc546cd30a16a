/** The raw half-open SYN probe: building the segment, undoing the IPv4 header,
    parsing and classifying replies, and the receive loop. */
module Syn {
  import opened Types
  import opened InternetChecksum

  const HEADER_LEN: nat := 20
  const BUFFER_LEN: nat := 1500

  const FLAG_SYN: Byte := 2

  // `flags & flag != 0`, flag by flag.
  predicate HasSYN(flags: Byte) { flags % 4 >= 2 }
  predicate HasRST(flags: Byte) { flags % 8 >= 4 }
  predicate HasACK(flags: Byte) { flags % 32 >= 16 }

  datatype Segment = Segment(srcPort: Uint16, dstPort: Uint16, seqNo: Uint32, ack: Uint32, flags: Byte)

  function Big32(v: Uint32): (b: Bytes)
    ensures |b| == 4 && Word(b[0], b[1]) * 0x1_0000 + Word(b[2], b[3]) == v
  {
    Big16(v / 0x1_0000) + Big16(v % 0x1_0000)
  }

  function Get16(b: Bytes, i: nat): Uint16
    requires i + 2 <= |b|
  {
    Word(b[i], b[i + 1])
  }

  function Get32(b: Bytes, i: nat): Uint32
    requires i + 4 <= |b|
  {
    Get16(b, i) * 0x1_0000 + Get16(b, i + 2)
  }

  // -------- buildSYN --------

  /** The segment with its checksum field still zero. */
  function Bare(srcPort: Uint16, dstPort: Uint16, seqNo: Uint32): (b: Bytes)
    ensures |b| == HEADER_LEN
  {
    Big16(srcPort) + Big16(dstPort) + Big32(seqNo) + [0, 0, 0, 0] + [0x50, FLAG_SYN] + Big16(0xFFFF) + [0, 0] + [0, 0]
  }

  method Put16(hdr: array<Byte>, i: nat, v: Uint16)
    requires i + 2 <= hdr.Length
    modifies hdr
    ensures hdr[..] == old(hdr[..i]) + Big16(v) + old(hdr[i + 2..])
  {
    hdr[i] := v / 256;
    hdr[i + 1] := v % 256;
  }

  method Put32(hdr: array<Byte>, i: nat, v: Uint32)
    requires i + 4 <= hdr.Length
    modifies hdr
    ensures hdr[..] == old(hdr[..i]) + Big32(v) + old(hdr[i + 4..])
  {
    Put16(hdr, i, v / 0x1_0000);
    Put16(hdr, i + 2, v % 0x1_0000);
  }

  function Zeros(n: nat): (b: Bytes)
    ensures |b| == n && forall i :: 0 <= i < n ==> b[i] == 0
  {
    seq(n, i => 0)
  }

  /** Ports and sequence number. */
  method FillFront(hdr: array<Byte>, srcPort: Uint16, dstPort: Uint16, seqNo: Uint32)
    requires hdr.Length == HEADER_LEN
    modifies hdr
    ensures hdr[..] == Big16(srcPort) + Big16(dstPort) + Big32(seqNo) + old(hdr[8..])
  {
    Put16(hdr, 0, srcPort);
    Put16(hdr, 2, dstPort);
    Put32(hdr, 4, seqNo);
  }

  /** Fills a zeroed header field by field, leaving the checksum zero. */
  method FillHeader(srcPort: Uint16, dstPort: Uint16, seqNo: Uint32) returns (hdr: array<Byte>)
    ensures fresh(hdr) && hdr[..] == Bare(srcPort, dstPort, seqNo)
  {
    hdr := new Byte[HEADER_LEN](_ => 0);
    assert hdr[..] == Zeros(20);
    FillFront(hdr, srcPort, dstPort, seqNo);
    ghost var front := Big16(srcPort) + Big16(dstPort) + Big32(seqNo);
    assert hdr[..] == front + Zeros(12);
    hdr[12] := 0x50;
    hdr[13] := FLAG_SYN;
    assert hdr[..] == front + Zeros(4) + [0x50, FLAG_SYN] + Zeros(6);
    Put16(hdr, 14, 0xFFFF);
    assert hdr[..] == front + Zeros(4) + [0x50, FLAG_SYN] + Big16(0xFFFF) + Zeros(4);
  }

  method BuildSYN(src: IP, dst: IP, srcPort: Uint16, dstPort: Uint16, seqNo: Uint32)
    returns (syn: Option<Bytes>)
    ensures syn.Some? <==> src.V4? && dst.V4?
    ensures syn.Some? ==>
              var b := Bare(srcPort, dstPort, seqNo);
              syn.value == WithChecksum(b, Checksum(src, dst, b))
    ensures syn.Some? ==>
              && Checksum(src, dst, syn.value) == 0
              && Parse(syn.value) == Some(Segment(srcPort, dstPort, seqNo, 0, FLAG_SYN))
  {
    if src.NotV4? || dst.NotV4? {
      return None;
    }
    var hdr := FillHeader(srcPort, dstPort, seqNo);
    ghost var b := hdr[..];
    var c := TcpChecksum(src, dst, hdr[..]);
    Put16(hdr, 16, c);
    assert hdr[..] == b[..16] + Big16(c) + b[18..] == WithChecksum(b, c);
    syn := Some(hdr[..]);
    BuiltSegmentChecks(src, dst, srcPort, dstPort, seqNo);
    ParseInvertsBuild(srcPort, dstPort, seqNo, c);
  }

  // -------- parseTCPSegment, stripIPv4Header, classifyReply --------

  function Parse(b: Bytes): Option<Segment> {
    if |b| < HEADER_LEN then None
    else Some(Segment(Get16(b, 0), Get16(b, 2), Get32(b, 4), Get32(b, 8), b[13]))
  }

  /** A first byte of high nibble 4 reads as version 4, its low nibble as the IHL. */
  function Strip(b: Bytes): Bytes {
    if |b| >= 20 && 0x40 <= b[0] < 0x50 then
      var ihl := (b[0] - 0x40) * 4;
      if ihl >= 20 && ihl <= |b| then b[ihl..] else b
    else b
  }

  /** `None` for unrelated traffic. */
  function Classify(seg: Segment, srcPort: Uint16, dstPort: Uint16, expectAck: Uint32): Option<PortState> {
    if seg.srcPort != dstPort || seg.dstPort != srcPort then None
    else if HasSYN(seg.flags) && HasACK(seg.flags) && seg.ack == expectAck then Some(Open)
    else if HasRST(seg.flags) then Some(Closed)
    else None
  }

  // -------- The receive loop of synAttempt --------

  datatype Packet = Packet(from: Quad, bytes: Bytes)

  datatype Attempt = Attempt(target: Quad, srcPort: Uint16, dstPort: Uint16, seqNo: Uint32) {
    /** `seq+1` in uint32 arithmetic. */
    function ExpectAck(): Uint32 { if seqNo == 0xFFFF_FFFF then 0 else seqNo + 1 }
  }

  /** What one read delivers: at most a buffer full. */
  function Received(p: Packet): Bytes {
    if |p.bytes| <= BUFFER_LEN then p.bytes else p.bytes[..BUFFER_LEN]
  }

  /** The class of a packet, or `None` if the loop goes on reading. */
  function Verdict(a: Attempt, p: Packet): Option<PortState> {
    if p.from != a.target then None
    else
      match Parse(Strip(Received(p)))
      case None => None
      case Some(seg) => Classify(seg, a.srcPort, a.dstPort, a.ExpectAck())
  }

  /** Reads `arrivals` in order; running out of them is the read error at the deadline. */
  method Await(a: Attempt, arrivals: seq<Packet>) returns (state: PortState, at: Option<nat>)
    ensures at.Some? ==>
              && at.value < |arrivals|
              && Verdict(a, arrivals[at.value]) == Some(state)
              && forall j :: 0 <= j < at.value ==> Verdict(a, arrivals[j]).None?
    ensures at.None? ==> state == Unreachable && forall j :: 0 <= j < |arrivals| ==> Verdict(a, arrivals[j]).None?
  {
    var i := 0;
    while i < |arrivals|
      invariant 0 <= i <= |arrivals|
      invariant forall j :: 0 <= j < i ==> Verdict(a, arrivals[j]).None?
    {
      var p := arrivals[i];
      i := i + 1;
      if p.from != a.target {
        continue;
      }
      var seg := Parse(Strip(Received(p)));
      if seg.None? {
        continue;
      }
      var reply := Classify(seg.value, a.srcPort, a.dstPort, a.ExpectAck());
      if reply.Some? {
        return reply.value, Some(i - 1);
      }
    }
    return Unreachable, None;
  }

  // -------- Fields, byte by byte --------

  /** The number that bytes write in base 256, most significant first. */
  function BigEndian(b: Bytes): nat {
    if b == [] then 0 else 256 * BigEndian(b[..|b| - 1]) + b[|b| - 1]
  }

  lemma {:induction false} BigEndianOfTwo(b: Bytes)
    requires |b| == 2
    ensures BigEndian(b) == 256 * (b[0] as int) + b[1] && BigEndian(b) == Word(b[0], b[1])
  {
    ShiftedValue(b[0], b[1]);
    assert b[..1] == [b[0]] && b[..1][..0] == [];
    assert BigEndian(b[..1]) == b[0];
  }

  lemma {:induction false} BigEndianOfFour(b: Bytes)
    requires |b| == 4
    ensures BigEndian(b) == 0x1_0000 * BigEndian(b[..2]) + BigEndian(b[2..])
  {
    assert b[..3][..2] == b[..2];
    BigEndianOfTwo(b[2..]);
  }

  /** A segment of at least 20 bytes is read off its bytes: ports at 0 and 2, sequence number
      at 4, acknowledgement at 8, flags at 13; whatever the other bytes are. */
  lemma {:induction false} ParseReadsBytes(b: Bytes)
    requires |b| >= 20
    ensures Parse(b).Some?
    ensures var seg := Parse(b).value;
            && seg.srcPort == BigEndian(b[0..2]) && seg.dstPort == BigEndian(b[2..4])
            && seg.seqNo == BigEndian(b[4..8]) && seg.ack == BigEndian(b[8..12]) && seg.flags == b[13]
  {
    BigEndianOfTwo(b[0..2]);
    BigEndianOfTwo(b[2..4]);
    Get32IsBigEndian(b, 4);
    Get32IsBigEndian(b, 8);
  }

  lemma {:induction false} Get32IsBigEndian(b: Bytes, i: nat)
    requires i + 4 <= |b|
    ensures Get32(b, i) == BigEndian(b[i..i + 4])
  {
    var q := b[i..i + 4];
    BigEndianOfFour(q);
    BigEndianOfTwo(q[..2]);
    BigEndianOfTwo(q[2..]);
    assert q[..2] == [b[i], b[i + 1]] && q[2..] == [b[i + 2], b[i + 3]];
  }

  lemma ShortSegmentRefused(b: Bytes)
    ensures Parse(b).None? <==> |b| < 20
  {
  }

  // The bits 0x02, 0x04 and 0x10 of a byte.
  predicate Bit02(flags: Byte) { flags / 2 % 2 == 1 }
  predicate Bit04(flags: Byte) { flags / 4 % 2 == 1 }
  predicate Bit10(flags: Byte) { flags / 16 % 2 == 1 }

  lemma SynIsBit02(flags: Byte)
    ensures HasSYN(flags) <==> Bit02(flags)
  {
  }

  lemma RstIsBit04(flags: Byte)
    ensures HasRST(flags) <==> Bit04(flags)
  {
  }

  lemma AckIsBit10(flags: Byte)
    ensures HasACK(flags) <==> Bit10(flags)
  {
  }

  // -------- Theorems --------

  /** Parsing inverts building, whatever stands in the checksum field. */
  lemma {:induction false} ParseInvertsBuild(srcPort: Uint16, dstPort: Uint16, seqNo: Uint32, c: Uint16)
    ensures Parse(WithChecksum(Bare(srcPort, dstPort, seqNo), c)) ==
            Some(Segment(srcPort, dstPort, seqNo, 0, FLAG_SYN))
  {
    var b := Bare(srcPort, dstPort, seqNo);
    var s := WithChecksum(b, c);
    assert s[0..2] == b[0..2] == Big16(srcPort) && s[2..4] == b[2..4] == Big16(dstPort);
    assert s[4..8] == b[4..8] == Big32(seqNo) && s[8..12] == [0, 0, 0, 0];
    assert Get32(s, 4) == Word(s[4..8][0], s[4..8][1]) * 0x1_0000 + Word(s[4..8][2], s[4..8][3]);
  }

  /** The bytes of a built segment: data offset 5 words, SYN alone, the full window, no
      urgent data, and the checksum where it belongs. */
  lemma {:induction false} BuiltByteByByte(srcPort: Uint16, dstPort: Uint16, seqNo: Uint32, c: Uint16)
    ensures var b := WithChecksum(Bare(srcPort, dstPort, seqNo), c);
            && |b| == 20
            && BigEndian(b[0..2]) == srcPort && BigEndian(b[2..4]) == dstPort
            && BigEndian(b[4..8]) == seqNo && b[8..12] == [0, 0, 0, 0]
            && b[12] == 0x50 && b[13] == 0x02 && b[14] == 0xFF && b[15] == 0xFF
            && BigEndian(b[16..18]) == c && b[18] == 0 && b[19] == 0
  {
    var b := WithChecksum(Bare(srcPort, dstPort, seqNo), c);
    ParseInvertsBuild(srcPort, dstPort, seqNo, c);
    ParseReadsBytes(b);
    BigEndianOfTwo(b[16..18]);
  }

  /** For all addresses, ports and sequence numbers the built segment checks to zero. */
  lemma {:induction false} BuiltSegmentChecks(src: IP, dst: IP, srcPort: Uint16, dstPort: Uint16, seqNo: Uint32)
    ensures var b := Bare(srcPort, dstPort, seqNo);
            Checksum(src, dst, WithChecksum(b, Checksum(src, dst, b))) == 0
  {
    var b := Bare(srcPort, dstPort, seqNo);
    assert b[16] == 0 && b[17] == 0;
    FilledSegmentChecks(src, dst, b);
  }

  /** An IPv4 header by section 3.1 of RFC 791: version 4, and as many words as it says. */
  predicate IsIPv4Header(h: Bytes) {
    h != [] && 0x45 <= h[0] < 0x50 && |h| == (h[0] - 0x40) * 4
  }

  /** Stripping recovers whatever follows a header of any valid length. */
  lemma StripUndoesHeader(h: Bytes, seg: Bytes)
    requires IsIPv4Header(h)
    ensures Strip(h + seg) == seg
  {
    assert (h + seg)[0] == h[0];
    assert (h + seg)[|h|..] == seg;
  }

  /** A segment delivered without its IP header is left alone exactly when its source
      port does not look like the start of an IPv4 header that fits: high byte
      0x45..0x4F with that many header words in the segment. */
  lemma BareSegmentKeptIff(seg: Bytes)
    ensures Strip(seg) == seg <==>
              !(|seg| >= 20 && 0x45 <= seg[0] <= 0x4F && (seg[0] - 0x40) * 4 <= |seg|)
  {
    if Strip(seg) != seg { assert |Strip(seg)| < |seg|; }
  }

  /** The first byte of a bare segment is the high byte of its source port. */
  lemma {:induction false} FirstByteIsHighByte(seg: Bytes)
    requires |seg| >= 2
    ensures seg[0] == BigEndian(seg[0..2]) / 256
  {
    BigEndianOfTwo(seg[0..2]);
  }

  /** `ack` is seq + 1, but for the wrap-around. */
  predicate Acknowledges(ack: Uint32, seqNo: Uint32) { ack == seqNo + 1 || ack + 0x1_0000_0000 == seqNo + 1 }

  lemma AcknowledgesIsModular(ack: Uint32, seqNo: Uint32)
    ensures Acknowledges(ack, seqNo) <==> (ack - seqNo - 1) % 0x1_0000_0000 == 0
  {
  }

  /** The segment in `b` goes from our target port to our source port. */
  ghost predicate Ours(a: Attempt, b: Bytes)
    requires |b| >= 20
  {
    BigEndian(b[0..2]) == a.dstPort && BigEndian(b[2..4]) == a.srcPort
  }

  /** It has SYN and ACK set and acknowledges seq + 1 modulo 2^32. */
  ghost predicate AnswersSYN(a: Attempt, b: Bytes)
    requires |b| >= 20
  {
    && Bit02(b[13]) && Bit10(b[13])
    && (BigEndian(b[8..12]) == a.seqNo + 1 || BigEndian(b[8..12]) + 0x1_0000_0000 == a.seqNo + 1)
  }

  /** `v` judges the segment in `b` by its bytes: open exactly if it answers our SYN, closed
      exactly for any other RST between the same ports, and otherwise ignored. */
  ghost predicate Judges(v: Option<PortState>, a: Attempt, b: Bytes)
    requires |b| >= 20
  {
    && (v == Some(Open) <==> Ours(a, b) && AnswersSYN(a, b))
    && (v == Some(Closed) <==> Ours(a, b) && !AnswersSYN(a, b) && Bit04(b[13]))
    && (v.None? <==> !Ours(a, b) || (!AnswersSYN(a, b) && !Bit04(b[13])))
  }

  /** What the read loop takes for the TCP segment: of the first 1500 bytes, those after what
      reads as an IPv4 header that fits. */
  function SegmentOf(p: Packet): Bytes {
    var b := if |p.bytes| > 1500 then p.bytes[..1500] else p.bytes;
    if |b| >= 20 && 0x45 <= b[0] <= 0x4F && (b[0] - 0x40) * 4 <= |b| then b[(b[0] - 0x40) * 4..] else b
  }

  /** Every packet: ignored if it is not from the target or too short, else judged by the
      bytes of its segment. */
  lemma {:induction false} EveryVerdict(a: Attempt, p: Packet)
    ensures if p.from != a.target || |SegmentOf(p)| < 20 then Verdict(a, p).None?
            else Judges(Verdict(a, p), a, SegmentOf(p))
  {
    assert Strip(Received(p)) == SegmentOf(p);
    if |SegmentOf(p)| >= 20 { ClassifyMeaning(SegmentOf(p), a); }
  }

  /** A segment that fits the buffer behind its IPv4 header is judged by its bytes. */
  lemma {:induction false} ReplyVerdict(a: Attempt, h: Bytes, bytes: Bytes)
    requires IsIPv4Header(h) && 20 <= |bytes| && |h| + |bytes| <= 1500
    ensures Judges(Verdict(a, Packet(a.target, h + bytes)), a, bytes)
  {
    StripUndoesHeader(h, bytes);
    ClassifyMeaning(bytes, a);
  }

  /** The number of bytes a bare segment may lose to `Strip`, by the high byte of its source
      port. */
  function TakenForHeader(high: Byte): nat {
    if 0x45 <= high <= 0x4F then (high - 0x40) * 4 else 0
  }

  /** A reply delivered without its IP header is judged by its own fields unless the port it
      comes from reads as the start of an IPv4 header that fits into it; in particular it
      is from every target port whose high byte is not 0x45..0x4F. */
  lemma {:induction false} BareReplyVerdict(a: Attempt, bytes: Bytes)
    requires 20 <= |bytes| <= 1500
    requires TakenForHeader(bytes[0]) == 0 || TakenForHeader(bytes[0]) > |bytes|
    ensures Judges(Verdict(a, Packet(a.target, bytes)), a, bytes)
  {
    assert Strip(bytes) == bytes;
    ClassifyMeaning(bytes, a);
  }

  /** Otherwise it is ignored, whatever it says, if what is left is shorter than a TCP header:
      so is every reply without options or data from a port 0x45xx. */
  lemma {:induction false} BareReplyLost(a: Attempt, bytes: Bytes)
    requires 20 <= |bytes| <= 1500
    requires 0 < TakenForHeader(bytes[0]) <= |bytes| < TakenForHeader(bytes[0]) + 20
    ensures Verdict(a, Packet(a.target, bytes)).None?
  {
    assert Strip(bytes) == bytes[TakenForHeader(bytes[0])..];
  }

  lemma {:induction false} ClassifyMeaning(b: Bytes, a: Attempt)
    requires |b| >= 20
    ensures Parse(b).Some? && Judges(Classify(Parse(b).value, a.srcPort, a.dstPort, a.ExpectAck()), a, b)
  {
    ParseReadsBytes(b);
    SynIsBit02(b[13]);
    RstIsBit04(b[13]);
    AckIsBit10(b[13]);
  }

  /** A bare header without ACK and RST is ignored, with or without an IP header before it. */
  lemma {:induction false} NoReplyIgnored(a: Attempt, h: Bytes, bytes: Bytes)
    requires IsIPv4Header(h) && |bytes| == 20 && !Bit10(bytes[13]) && !Bit04(bytes[13])
    ensures Verdict(a, Packet(a.target, h + bytes)).None? && Verdict(a, Packet(a.target, bytes)).None?
  {
    ReplyVerdict(a, h, bytes);
    var taken := TakenForHeader(bytes[0]);
    if taken == 0 || taken > |bytes| {
      BareReplyVerdict(a, bytes);
    } else {
      BareReplyLost(a, bytes);
    }
  }

  /** Our own SYN, should the raw socket hand it back with or without an IP header, is never
      taken for a reply. */
  lemma {:induction false} OwnSegmentIgnored(a: Attempt, h: Bytes, c: Uint16)
    requires IsIPv4Header(h)
    ensures var syn := WithChecksum(Bare(a.srcPort, a.dstPort, a.seqNo), c);
            && Verdict(a, Packet(a.target, h + syn)).None?
            && Verdict(a, Packet(a.target, syn)).None?
  {
    BuiltByteByByte(a.srcPort, a.dstPort, a.seqNo, c);
    NoReplyIgnored(a, h, WithChecksum(Bare(a.srcPort, a.dstPort, a.seqNo), c));
  }
}
