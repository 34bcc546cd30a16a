/** The ones-complement checksum of a TCP segment and its IPv4 pseudo-header:
    section 3.1 of RFC 9293, with the deferred carries of section 2 of RFC 1071. */
module InternetChecksum {
  import opened Types
  import opened Multisets

  type Quad = q: Bytes | |q| == 4 witness [0, 0, 0, 0]

  /** An address as net.IP's To4 sees it. */
  datatype IP = V4(quad: Quad) | NotV4 {
    /** What `copy` leaves in the zeroed pseudo-header. */
    function Copied(): Quad { if V4? then quad else [0, 0, 0, 0] }
  }

  type Uint16 = x: int | 0 <= x < 0x1_0000
  type Uint32 = x: int | 0 <= x < 0x1_0000_0000

  /** 256 * hi + lo, by counting: its value is brought in by `ShiftedValue` where it matters. */
  function Shifted(hi: nat, lo: nat): nat { if hi == 0 then lo else 256 + Shifted(hi - 1, lo) }

  lemma {:induction false} ShiftedValue(hi: nat, lo: nat)
    ensures Shifted(hi, lo) == 256 * hi + lo
  {
    if hi > 0 { ShiftedValue(hi - 1, lo); }
  }

  /** The big-endian word of two bytes. */
  function Word(hi: Byte, lo: Byte): Uint16 {
    ShiftedValue(hi, lo);
    Shifted(hi, lo)
  }

  function Big16(v: Uint16): (b: Bytes)
    ensures |b| == 2 && Word(b[0], b[1]) == v
  {
    ShiftedValue(v / 256, v % 256);
    [v / 256, v % 256]
  }

  /** The 16-bit words of a byte string, an odd last byte padded with zero. */
  function Words(b: Bytes): (ws: seq<Uint16>)
    ensures 2 * |ws| == |b| || 2 * |ws| == |b| + 1
  {
    if b == [] then []
    else if |b| == 1 then [Word(b[0], 0)]
    else [Word(b[0], b[1])] + Words(b[2..])
  }

  function Sum(ws: seq<Uint16>): (n: nat)
    ensures n <= 65535 * |ws|
  {
    if ws == [] then 0 else ws[0] + Sum(ws[1..])
  }

  /** `uint16(len)`. */
  function Low16(len: nat): Uint16 { if len < 0x1_0000 then len else len % 0x1_0000 }

  function Pseudo(src: IP, dst: IP, len: nat): Bytes {
    src.Copied() + dst.Copied() + [0, 6] + Big16(Low16(len))
  }

  /** The sum before any carry is folded, over the integers. */
  function Total(src: IP, dst: IP, seg: Bytes): nat {
    Sum(Words(Pseudo(src, dst, |seg|))) + Sum(Words(seg))
  }

  function FoldOnce(sum: nat): nat { sum % 0x1_0000 + sum / 0x1_0000 }

  /** The representative in 1..65535 of a positive sum modulo 65535, and 0 for 0. */
  function Residue(sum: nat): Uint16 {
    if sum <= 65535 then sum else Residue(sum - 65535)
  }

  /** `sum += w` on a uint32. */
  function Add32(sum: Uint32, w: Uint16): (r: Uint32) {
    if sum + w < 0x1_0000_0000 then sum + w else sum + w - 0x1_0000_0000
  }

  /** Adding words one at a time to a uint32, each addition wrapping around. */
  function Accumulate(sum: Uint32, ws: seq<Uint16>): Uint32
    decreases |ws|
  {
    if ws == [] then sum else Accumulate(Add32(sum, ws[0]), ws[1..])
  }

  function Checksum(src: IP, dst: IP, seg: Bytes): Uint16 {
    0xFFFF - Residue(Accumulate(Accumulate(0, Words(Pseudo(src, dst, |seg|))), Words(seg)))
  }

  // -------- The code --------

  /** The accumulator holds the sum but for multiples of 2^32. */
  lemma {:induction false} AccumulateWraps(sum: Uint32, ws: seq<Uint16>) returns (k: nat)
    ensures Accumulate(sum, ws) + 0x1_0000_0000 * k == sum + Sum(ws)
    decreases |ws|
  {
    if ws == [] {
      k := 0;
    } else {
      k := AccumulateWraps(Add32(sum, ws[0]), ws[1..]);
      k := if sum + ws[0] < 0x1_0000_0000 then k else k + 1;
    }
  }

  lemma {:induction false} SameSumSameAccumulator(sum: Uint32, ws: seq<Uint16>, ws': seq<Uint16>)
    requires Sum(ws) == Sum(ws')
    ensures Accumulate(sum, ws) == Accumulate(sum, ws')
  {
    var k := AccumulateWraps(sum, ws);
    var k' := AccumulateWraps(sum, ws');
  }

  lemma {:induction false} NextWord(sum: Uint32, b: Bytes, i: nat)
    requires i + 1 < |b|
    ensures Accumulate(sum, Words(b[i..])) == Accumulate(Add32(sum, Word(b[i], b[i + 1])), Words(b[i + 2..]))
  {
    var ws := Words(b[i..]);
    assert b[i..][2..] == b[i + 2..];
    assert ws[0] == Word(b[i], b[i + 1]) && ws[1..] == Words(b[i + 2..]);
  }

  /** The addBytes closure: two bytes at a time, then the odd last byte. */
  method AddBytes(sum: Uint32, b: Bytes) returns (r: Uint32)
    ensures r == Accumulate(sum, Words(b))
  {
    r := sum;
    var i := 0;
    while i + 1 < |b|
      invariant 0 <= i <= |b| && i % 2 == 0
      invariant Accumulate(r, Words(b[i..])) == Accumulate(sum, Words(b))
    {
      NextWord(r, b, i);
      r := Add32(r, Word(b[i], b[i + 1]));
      i := i + 2;
    }
    if |b| % 2 == 1 {
      assert b[i..] == [b[|b| - 1]];
      r := Add32(r, Word(b[|b| - 1], 0));
    }
  }

  lemma {:induction false} ResidueIsMod(sum: nat)
    ensures Residue(sum) == if sum == 0 then 0 else (sum - 1) % 65535 + 1
  {
    if sum > 65535 { ResidueIsMod(sum - 65535); }
  }

  lemma {:induction false} ResidueShift(sum: nat, q: nat)
    requires sum > 0
    ensures Residue(sum + 65535 * q) == Residue(sum)
  {
    if q > 0 { ResidueShift(sum, q - 1); }
  }

  /** Folding the carries once changes a sum by a multiple of 65535, and never to zero. */
  lemma {:induction false} FoldKeepsResidue(sum: nat)
    ensures Residue(FoldOnce(sum)) == Residue(sum)
  {
    if sum > 0 { ResidueShift(FoldOnce(sum), sum / 0x1_0000); }
  }

  /** Whatever the first fold leaves of a 32-bit sum, the second brings into 16 bits. */
  lemma TwoFoldsSuffice(sum: Uint32)
    ensures FoldOnce(sum) <= 0x1_FFFE
    ensures forall s: nat :: s <= 0x1_FFFE ==> FoldOnce(s) < 0x1_0000
  {
  }

  /** The loop that folds carries; it takes two rounds at most. */
  method FoldCarries(start: Uint32) returns (sum: Uint16, ghost rounds: nat)
    ensures sum == Residue(start) && rounds <= 2
  {
    var s: nat := start;
    rounds := 0;
    TwoFoldsSuffice(start);
    while s / 0x1_0000 != 0
      invariant Residue(s) == Residue(start)
      invariant rounds <= 2 && (rounds == 0 ==> s == start)
      invariant rounds == 1 ==> s <= 0x1_FFFE
      invariant rounds == 2 ==> s < 0x1_0000
      decreases s
    {
      FoldKeepsResidue(s);
      s := FoldOnce(s);
      rounds := rounds + 1;
    }
    sum := s;
  }

  method TcpChecksum(src: IP, dst: IP, seg: Bytes) returns (c: Uint16)
    ensures c == Checksum(src, dst, seg)
    ensures src.V4? && dst.V4? && |seg| <= 65535 ==> c == 0xFFFF - Residue(PlainSum(src.quad, dst.quad, seg))
  {
    var pseudo := Pseudo(src, dst, |seg|);
    var sum := AddBytes(0, pseudo);
    sum := AddBytes(sum, seg);
    var folded, _ := FoldCarries(sum);
    c := 0xFFFF - folded;
    if src.V4? && dst.V4? && |seg| <= 65535 {
      ChecksumSpelledOut(src.quad, dst.quad, seg);
    }
  }

  // -------- The value --------

  lemma {:induction false} WordsConcat(a: Bytes, b: Bytes)
    requires |a| % 2 == 0
    ensures Words(a + b) == Words(a) + Words(b)
  {
    if a == [] {
      assert a + b == b;
    } else {
      assert (a + b)[2..] == a[2..] + b;
      WordsConcat(a[2..], b);
    }
  }

  lemma {:induction false} SumConcat(a: seq<Uint16>, b: seq<Uint16>)
    ensures Sum(a + b) == Sum(a) + Sum(b)
  {
    if a == [] {
      assert a + b == b;
    } else {
      assert (a + b)[1..] == a[1..] + b;
      SumConcat(a[1..], b);
    }
  }

  /** The accumulator cannot overflow on a segment of up to 65535 bytes, and it is never zero. */
  lemma {:induction false} NoOverflow(src: IP, dst: IP, seg: Bytes)
    requires |seg| <= 65535
    ensures 0 < Total(src, dst, seg) < 0x1_0000_0000
  {
    var addresses, tail := src.Copied() + dst.Copied(), [0, 6] + Big16(Low16(|seg|));
    assert Pseudo(src, dst, |seg|) == addresses + tail;
    WordsConcat(addresses, tail);
    SumConcat(Words(addresses), Words(tail));
    assert Words(tail)[0] == Word(0, 6);
  }

  lemma {:induction false} AccumulatorIsTotal(src: IP, dst: IP, seg: Bytes)
    requires |seg| <= 65535
    ensures Accumulate(Accumulate(0, Words(Pseudo(src, dst, |seg|))), Words(seg)) == Total(src, dst, seg) > 0
  {
    NoOverflow(src, dst, seg);
    var p, q := Words(Pseudo(src, dst, |seg|)), Words(seg);
    var k := AccumulateWraps(0, p);
    var k' := AccumulateWraps(Accumulate(0, p), q);
  }

  /** The checksum is the complement of the total's representative: it is zero exactly
      when that is 65535. */
  lemma {:induction false} ChecksumValue(src: IP, dst: IP, seg: Bytes)
    requires |seg| <= 65535
    ensures Total(src, dst, seg) > 0
    ensures Checksum(src, dst, seg) == 0xFFFF - Residue(Total(src, dst, seg))
  {
    AccumulatorIsTotal(src, dst, seg);
  }

  /** The bytes two by two, the first of each two counting 256 times. */
  function WordSum(b: Bytes): nat {
    if b == [] then 0
    else if |b| == 1 then 256 * (b[0] as int)
    else 256 * (b[0] as int) + b[1] + WordSum(b[2..])
  }

  /** What section 3.1 of RFC 9293 has summed: source and destination address, the protocol
      number 6, the length of the segment, and the segment. */
  function PlainSum(s: Quad, d: Quad, seg: Bytes): nat {
    var source := 256 * (s[0] as int) + s[1] + 256 * (s[2] as int) + s[3];
    var destination := 256 * (d[0] as int) + d[1] + 256 * (d[2] as int) + d[3];
    source + destination + 6 + |seg| + WordSum(seg)
  }

  lemma {:induction false} SumOfWords(b: Bytes)
    ensures Sum(Words(b)) == WordSum(b)
  {
    if |b| == 1 {
      ShiftedValue(b[0], 0);
      assert Words(b)[1..] == [];
    } else if b != [] {
      ShiftedValue(b[0], b[1]);
      assert Words(b)[1..] == Words(b[2..]);
      SumOfWords(b[2..]);
    }
  }

  lemma {:induction false} WordSumConcat(a: Bytes, b: Bytes)
    requires |a| % 2 == 0
    ensures WordSum(a + b) == WordSum(a) + WordSum(b)
  {
    if a == [] {
      assert a + b == b;
    } else {
      assert (a + b)[2..] == a[2..] + b;
      WordSumConcat(a[2..], b);
    }
  }

  lemma {:induction false} WordSumOfQuad(q: Quad)
    ensures WordSum(q) == 256 * (q[0] as int) + q[1] + 256 * (q[2] as int) + q[3]
  {
    assert q[2..][2..] == [];
    assert WordSum(q[2..]) == 256 * (q[2] as int) + q[3] + WordSum(q[2..][2..]);
  }

  lemma {:induction false} WordSumOfTail(len: Uint16)
    ensures WordSum([0, 6] + Big16(len)) == 6 + len
  {
    var b := Big16(len);
    ShiftedValue(b[0], b[1]);
    assert ([0, 6] + b)[2..] == b && b[2..] == [];
    assert WordSum(b) == 256 * (b[0] as int) + b[1] + WordSum(b[2..]);
  }

  /** The checksum of an IPv4 segment, without pseudo-header, words or accumulator: the
      complement of the representative in 1..65535 of the plain sum. */
  lemma {:induction false} ChecksumSpelledOut(s: Quad, d: Quad, seg: Bytes)
    requires |seg| <= 65535
    ensures Checksum(V4(s), V4(d), seg) == 0xFFFF - Residue(PlainSum(s, d, seg))
  {
    var tail := [0, 6] + Big16(Low16(|seg|));
    var pseudo := Pseudo(V4(s), V4(d), |seg|);
    ChecksumValue(V4(s), V4(d), seg);
    SumOfWords(pseudo);
    SumOfWords(seg);
    assert pseudo == s + (d + tail);
    WordSumConcat(s, d + tail);
    WordSumConcat(d, tail);
    WordSumOfQuad(s);
    WordSumOfQuad(d);
    WordSumOfTail(|seg|);
  }

  lemma {:induction false} TotalDiffersByWords(src: IP, dst: IP, a: Bytes, b: Bytes)
    requires |a| == |b|
    ensures Total(src, dst, b) == Total(src, dst, a) - Sum(Words(a)) + Sum(Words(b))
    ensures Total(src, dst, a) >= Sum(Words(a))
  {
  }

  // -------- Self-check --------

  lemma {:induction false} SumUpdate(ws: seq<Uint16>, k: nat, w: Uint16)
    requires k < |ws|
    ensures Sum(ws[k := w]) == Sum(ws) - ws[k] + w
  {
    if k == 0 {
      assert ws[k := w][1..] == ws[1..];
    } else {
      assert ws[k := w][1..] == ws[1..][k - 1 := w];
      SumUpdate(ws[1..], k - 1, w);
    }
  }

  lemma {:induction false} WordsAt(b: Bytes, k: nat)
    requires 2 * k + 1 < |b|
    ensures Words(b)[k] == Word(b[2 * k], b[2 * k + 1])
  {
    if k > 0 { WordsAt(b[2..], k - 1); }
  }

  lemma {:induction false} WordsUpdate(b: Bytes, k: nat, hi: Byte, lo: Byte)
    requires 2 * k + 1 < |b|
    ensures Words(b[2 * k := hi][2 * k + 1 := lo]) == Words(b)[k := Word(hi, lo)]
  {
    var b' := b[2 * k := hi][2 * k + 1 := lo];
    if k == 0 {
      assert b'[2..] == b[2..];
    } else {
      assert b'[2..] == b[2..][2 * (k - 1) := hi][2 * (k - 1) + 1 := lo];
      WordsUpdate(b[2..], k - 1, hi, lo);
    }
  }

  /** The segment with the checksum `c` in bytes 16 and 17. */
  function WithChecksum(seg: Bytes, c: Uint16): Bytes
    requires |seg| >= 18
  {
    seg[16 := Big16(c)[0]][17 := Big16(c)[1]]
  }

  lemma {:induction false} ComplementCancels(t: nat)
    requires t > 0
    ensures Residue(t + (65535 - Residue(t))) == 65535
  {
    if t > 65535 { ComplementCancels(t - 65535); }
  }

  /** A segment whose zeroed checksum field is filled with its checksum checks to zero. */
  lemma {:induction false} FilledSegmentChecks(src: IP, dst: IP, seg: Bytes)
    requires 18 <= |seg| <= 65535 && seg[16] == 0 && seg[17] == 0
    ensures Checksum(src, dst, WithChecksum(seg, Checksum(src, dst, seg))) == 0
  {
    var c, t := Checksum(src, dst, seg), Total(src, dst, seg);
    var filled := WithChecksum(seg, c);
    ChecksumValue(src, dst, seg);
    FillAddsChecksum(seg, c);
    TotalDiffersByWords(src, dst, seg, filled);
    ComplementCancels(t);
    ChecksumValue(src, dst, filled);
  }

  lemma {:induction false} FillAddsChecksum(seg: Bytes, c: Uint16)
    requires |seg| >= 18 && seg[16] == 0 && seg[17] == 0
    ensures Sum(Words(WithChecksum(seg, c))) == Sum(Words(seg)) + c
  {
    WordsUpdate(seg, 8, Big16(c)[0], Big16(c)[1]);
    WordsAt(seg, 8);
    SumUpdate(Words(seg), 8, c);
  }

  // -------- Error detection --------

  lemma {:induction false} WordChange(t: nat, w: Uint16, w': Uint16)
    requires Residue(t) == 65535 && t >= w
    ensures Residue(t - w + w') == 65535 <==> w == w' || (w == 0 && w' == 0xFFFF) || (w == 0xFFFF && w' == 0 && t > w)
  {
    var x := t - w + w';
    if t > 131070 {
      WordChange(t - 65535, w, w');
    } else if x > 65535 {
      assert Residue(x) == Residue(x - 65535);
      assert x > 131070 ==> Residue(x - 65535) == x - 131070;
    }
  }

  /** Of a segment that checks to zero, a change of one aligned word goes unseen exactly
      when it exchanges 0x0000 and 0xFFFF, or changes nothing. */
  lemma {:induction false} OneWordChangeIsSeen(src: IP, dst: IP, seg: Bytes, seg': Bytes, k: nat, w: Uint16)
    requires |seg| == |seg'| <= 65535 && k < |Words(seg)| && Words(seg') == Words(seg)[k := w]
    requires Checksum(src, dst, seg) == 0
    ensures Checksum(src, dst, seg') == 0 <==>
              var v := Words(seg)[k];
              v == w || (v == 0 && w == 0xFFFF) || (v == 0xFFFF && w == 0)
  {
    var ws, t := Words(seg), Total(src, dst, seg);
    SumUpdate(ws, k, w);
    SumUpdate(ws, k, 0);
    TotalDiffersByWords(src, dst, seg, seg');
    ChecksumValue(src, dst, seg);
    ChecksumValue(src, dst, seg');
    WordChange(t, ws[k], w);
  }

  lemma {:induction false} SumWithout(b: seq<Uint16>, k: nat)
    requires k < |b|
    ensures Sum(b) == Sum(Without(b, k)) + b[k]
  {
    assert b == b[..k] + ([b[k]] + b[k + 1..]);
    SumConcat(b[..k], b[k + 1..]);
    SumConcat(b[..k], [b[k]] + b[k + 1..]);
    assert ([b[k]] + b[k + 1..])[1..] == b[k + 1..];
  }

  lemma {:induction false} SumOfMultiset(a: seq<Uint16>, b: seq<Uint16>)
    requires multiset(a) == multiset(b)
    ensures Sum(a) == Sum(b)
  {
    if a == [] {
      assert |multiset(b)| == 0;
    } else {
      var k := SameRest(a, b);
      SumOfMultiset(a[1..], Without(b, k));
      SumWithout(b, k);
    }
  }

  /** Any reordering of the aligned words goes unseen. */
  lemma {:induction false} ReorderingIsUnseen(src: IP, dst: IP, seg: Bytes, seg': Bytes)
    requires |seg| == |seg'| && multiset(Words(seg)) == multiset(Words(seg'))
    ensures Checksum(src, dst, seg') == Checksum(src, dst, seg)
  {
    SumOfMultiset(Words(seg), Words(seg'));
    SameSumSameAccumulator(Accumulate(0, Words(Pseudo(src, dst, |seg|))), Words(seg), Words(seg'));
  }
}
