/** MD5 as sections 3.1 to 3.4 of RFC 1321 define it. */
module Md5Spec {
  import opened MachineWord

  // A 32-bit word, and the buffer of four.
  datatype Word = W(v: bv32)
  datatype Abcd = Abcd(a: Word, b: Word, c: Word, d: Word)

  const INITIAL := Abcd(W(0x67452301), W(0xefcdab89), W(0x98badcfe), W(0x10325476))

  function RfcF(x: bv32, y: bv32, z: bv32): bv32 { (x & y) | (!x & z) }

  function RfcG(x: bv32, y: bv32, z: bv32): bv32 { (x & z) | (y & !z) }

  function RfcH(x: bv32, y: bv32, z: bv32): bv32 { x ^ y ^ z }

  function RfcI(x: bv32, y: bv32, z: bv32): bv32 { y ^ (x | !z) }

  // The same on words.
  function WordF(x: Word, y: Word, z: Word): Word { W(RfcF(x.v, y.v, z.v)) }

  function WordG(x: Word, y: Word, z: Word): Word { W(RfcG(x.v, y.v, z.v)) }

  function WordH(x: Word, y: Word, z: Word): Word { W(RfcH(x.v, y.v, z.v)) }

  function WordI(x: Word, y: Word, z: Word): Word { W(RfcI(x.v, y.v, z.v)) }

  // The auxiliary function, message word, shift and constant of step i.
  function Aux(i: nat, x: Word, y: Word, z: Word): Word {
    if i < 16 then WordF(x, y, z) else if i < 32 then WordG(x, y, z) else if i < 48 then WordH(x, y, z) else WordI(x, y, z)
  }

  function Index(i: nat): (k: nat)
    ensures k < 16
  {
    if i < 16 then i else if i < 32 then (5 * i + 1) % 16 else if i < 48 then (3 * i + 5) % 16 else (7 * i) % 16
  }

  function Choose(i: nat, s0: nat, s1: nat, s2: nat, s3: nat): nat {
    if i % 4 == 0 then s0 else if i % 4 == 1 then s1 else if i % 4 == 2 then s2 else s3
  }

  function Amount(i: nat): (s: nat)
    ensures s < 32
  {
    if i < 16 then Choose(i, 7, 12, 17, 22)
    else if i < 32 then Choose(i, 5, 9, 14, 20)
    else if i < 48 then Choose(i, 4, 11, 16, 23)
    else Choose(i, 6, 10, 15, 21)
  }

  // The constants, floor(2^32 * abs(sin(i + 1))), round by round.
  function T1(k: nat): bv32 {
    match k
    case 0 => 0xd76aa478 case 1 => 0xe8c7b756 case 2 => 0x242070db case 3 => 0xc1bdceee
    case 4 => 0xf57c0faf case 5 => 0x4787c62a case 6 => 0xa8304613 case 7 => 0xfd469501
    case 8 => 0x698098d8 case 9 => 0x8b44f7af case 10 => 0xffff5bb1 case 11 => 0x895cd7be
    case 12 => 0x6b901122 case 13 => 0xfd987193 case 14 => 0xa679438e case _ => 0x49b40821
  }

  function T2(k: nat): bv32 {
    match k
    case 0 => 0xf61e2562 case 1 => 0xc040b340 case 2 => 0x265e5a51 case 3 => 0xe9b6c7aa
    case 4 => 0xd62f105d case 5 => 0x02441453 case 6 => 0xd8a1e681 case 7 => 0xe7d3fbc8
    case 8 => 0x21e1cde6 case 9 => 0xc33707d6 case 10 => 0xf4d50d87 case 11 => 0x455a14ed
    case 12 => 0xa9e3e905 case 13 => 0xfcefa3f8 case 14 => 0x676f02d9 case _ => 0x8d2a4c8a
  }

  function T3(k: nat): bv32 {
    match k
    case 0 => 0xfffa3942 case 1 => 0x8771f681 case 2 => 0x6d9d6122 case 3 => 0xfde5380c
    case 4 => 0xa4beea44 case 5 => 0x4bdecfa9 case 6 => 0xf6bb4b60 case 7 => 0xbebfbc70
    case 8 => 0x289b7ec6 case 9 => 0xeaa127fa case 10 => 0xd4ef3085 case 11 => 0x04881d05
    case 12 => 0xd9d4d039 case 13 => 0xe6db99e5 case 14 => 0x1fa27cf8 case _ => 0xc4ac5665
  }

  function T4(k: nat): bv32 {
    match k
    case 0 => 0xf4292244 case 1 => 0x432aff97 case 2 => 0xab9423a7 case 3 => 0xfc93a039
    case 4 => 0x655b59c3 case 5 => 0x8f0ccc92 case 6 => 0xffeff47d case 7 => 0x85845dd1
    case 8 => 0x6fa87e4f case 9 => 0xfe2ce6e0 case 10 => 0xa3014314 case 11 => 0x4e0811a1
    case 12 => 0xf7537e82 case 13 => 0xbd3af235 case 14 => 0x2ad7d2bb case _ => 0xeb86d391
  }

  function T(i: nat): bv32 {
    if i < 16 then T1(i) else if i < 32 then T2(i - 16) else if i < 48 then T3(i - 32) else T4(i - 48)
  }

  function Rotated(x: bv32, n: nat): bv32
    requires n <= 32
  {
    (x << n) | (x >> (32 - n))
  }

  lemma Rotates7(x: bv32) ensures Rotated(x, 7) & 0x7f == x >> 25 && Rotated(x, 7) >> 7 == x & 0x1ffffff {}
  lemma Rotates12(x: bv32) ensures Rotated(x, 12) & 0xfff == x >> 20 && Rotated(x, 12) >> 12 == x & 0xfffff {}
  lemma Rotates17(x: bv32) ensures Rotated(x, 17) & 0x1ffff == x >> 15 && Rotated(x, 17) >> 17 == x & 0x7fff {}
  lemma Rotates22(x: bv32) ensures Rotated(x, 22) & 0x3fffff == x >> 10 && Rotated(x, 22) >> 22 == x & 0x3ff {}
  lemma Rotates5(x: bv32) ensures Rotated(x, 5) & 0x1f == x >> 27 && Rotated(x, 5) >> 5 == x & 0x7ffffff {}
  lemma Rotates9(x: bv32) ensures Rotated(x, 9) & 0x1ff == x >> 23 && Rotated(x, 9) >> 9 == x & 0x7fffff {}
  lemma Rotates14(x: bv32) ensures Rotated(x, 14) & 0x3fff == x >> 18 && Rotated(x, 14) >> 14 == x & 0x3ffff {}
  lemma Rotates20(x: bv32) ensures Rotated(x, 20) & 0xfffff == x >> 12 && Rotated(x, 20) >> 20 == x & 0xfff {}
  lemma Rotates4(x: bv32) ensures Rotated(x, 4) & 0xf == x >> 28 && Rotated(x, 4) >> 4 == x & 0xfffffff {}
  lemma Rotates11(x: bv32) ensures Rotated(x, 11) & 0x7ff == x >> 21 && Rotated(x, 11) >> 11 == x & 0x1fffff {}
  lemma Rotates16(x: bv32) ensures Rotated(x, 16) & 0xffff == x >> 16 && Rotated(x, 16) >> 16 == x & 0xffff {}
  lemma Rotates23(x: bv32) ensures Rotated(x, 23) & 0x7fffff == x >> 9 && Rotated(x, 23) >> 23 == x & 0x1ff {}
  lemma Rotates6(x: bv32) ensures Rotated(x, 6) & 0x3f == x >> 26 && Rotated(x, 6) >> 6 == x & 0x3ffffff {}
  lemma Rotates10(x: bv32) ensures Rotated(x, 10) & 0x3ff == x >> 22 && Rotated(x, 10) >> 10 == x & 0x3fffff {}
  lemma Rotates15(x: bv32) ensures Rotated(x, 15) & 0x7fff == x >> 17 && Rotated(x, 15) >> 15 == x & 0x1ffff {}
  lemma Rotates21(x: bv32) ensures Rotated(x, 21) & 0x1fffff == x >> 11 && Rotated(x, 21) >> 21 == x & 0x7ff {}

  // It goes to the left, by the amounts of each round: the low bits of the result are the high ones of x, and its high
  // bits are the low ones.
  lemma RotatesInRound1(x: bv32)
    ensures Rotated(x, 7) & 0x7f == x >> 25 && Rotated(x, 7) >> 7 == x & 0x1ffffff
    ensures Rotated(x, 12) & 0xfff == x >> 20 && Rotated(x, 12) >> 12 == x & 0xfffff
    ensures Rotated(x, 17) & 0x1ffff == x >> 15 && Rotated(x, 17) >> 17 == x & 0x7fff
    ensures Rotated(x, 22) & 0x3fffff == x >> 10 && Rotated(x, 22) >> 22 == x & 0x3ff
  {
    hide Rotated;
    Rotates7(x);
    Rotates12(x);
    Rotates17(x);
    Rotates22(x);
  }

  lemma RotatesInRound2(x: bv32)
    ensures Rotated(x, 5) & 0x1f == x >> 27 && Rotated(x, 5) >> 5 == x & 0x7ffffff
    ensures Rotated(x, 9) & 0x1ff == x >> 23 && Rotated(x, 9) >> 9 == x & 0x7fffff
    ensures Rotated(x, 14) & 0x3fff == x >> 18 && Rotated(x, 14) >> 14 == x & 0x3ffff
    ensures Rotated(x, 20) & 0xfffff == x >> 12 && Rotated(x, 20) >> 20 == x & 0xfff
  {
    hide Rotated;
    Rotates5(x);
    Rotates9(x);
    Rotates14(x);
    Rotates20(x);
  }

  lemma RotatesInRound3(x: bv32)
    ensures Rotated(x, 4) & 0xf == x >> 28 && Rotated(x, 4) >> 4 == x & 0xfffffff
    ensures Rotated(x, 11) & 0x7ff == x >> 21 && Rotated(x, 11) >> 11 == x & 0x1fffff
    ensures Rotated(x, 16) & 0xffff == x >> 16 && Rotated(x, 16) >> 16 == x & 0xffff
    ensures Rotated(x, 23) & 0x7fffff == x >> 9 && Rotated(x, 23) >> 23 == x & 0x1ff
  {
    hide Rotated;
    Rotates4(x);
    Rotates11(x);
    Rotates16(x);
    Rotates23(x);
  }

  lemma RotatesInRound4(x: bv32)
    ensures Rotated(x, 6) & 0x3f == x >> 26 && Rotated(x, 6) >> 6 == x & 0x3ffffff
    ensures Rotated(x, 10) & 0x3ff == x >> 22 && Rotated(x, 10) >> 10 == x & 0x3fffff
    ensures Rotated(x, 15) & 0x7fff == x >> 17 && Rotated(x, 15) >> 15 == x & 0x1ffff
    ensures Rotated(x, 21) & 0x1fffff == x >> 11 && Rotated(x, 21) >> 21 == x & 0x7ff
  {
    hide Rotated;
    Rotates6(x);
    Rotates10(x);
    Rotates15(x);
    Rotates21(x);
  }

  // b + ((a + f + x + t) <<< s)
  function Operation(a: Word, b: Word, f: Word, x: Word, s: nat, t: bv32): Word
    requires s <= 32
  {
    W(b.v + Rotated(a.v + f.v + x.v + t, s))
  }

  // Step i writes one of the four registers; the roles then move on by one.
  function Step(x: seq<Word>, i: nat, s: Abcd): Abcd
    requires |x| == 16 && i < 64
  {
    Abcd(s.d, Operation(s.a, s.b, Aux(i, s.b, s.c, s.d), x[Index(i)], Amount(i), T(i)), s.b, s.c)
  }

  // Steps lo up to hi.
  function Steps(x: seq<Word>, s: Abcd, lo: nat, hi: nat): Abcd
    requires |x| == 16 && lo <= hi <= 64
    decreases hi
  {
    if lo == hi then s else Step(x, hi - 1, Steps(x, s, lo, hi - 1))
  }

  // Words are stored low byte first.
  function FromBytes(b: seq<bv8>, i: nat): Word
    requires i + 4 <= |b|
  {
    Assembled(b[i], b[i + 1], b[i + 2], b[i + 3])
  }

  function Assembled(b0: bv8, b1: bv8, b2: bv8, b3: bv8): Word {
    W((b0 as bv32) | ((b1 as bv32) << 8) | ((b2 as bv32) << 16) | ((b3 as bv32) << 24))
  }

  function Bytes(w: Word): (b: seq<bv8>)
    ensures |b| == 4
  {
    [(w.v & 0xff) as bv8, ((w.v >> 8) & 0xff) as bv8, ((w.v >> 16) & 0xff) as bv8, ((w.v >> 24) & 0xff) as bv8]
  }

  lemma FromBytesOfWord(w: Word, b: seq<bv8>, i: nat)
    requires i + 4 <= |b| && b[i..i + 4] == Bytes(w)
    ensures FromBytes(b, i) == w
  {
    hide FromBytes, Bytes;
    SameFour(b, i, Bytes(w));
    FourBytesOf(w);
  }

  lemma SameFour(b: seq<bv8>, i: nat, c: seq<bv8>)
    requires i + 4 <= |b| && b[i..i + 4] == c
    ensures FromBytes(b, i) == FromBytes(c, 0)
  {
    hide Assembled;
    assert b[i] == c[0] && b[i + 1] == c[1] && b[i + 2] == c[2] && b[i + 3] == c[3];
  }

  lemma FourBytesOf(w: Word)
    ensures FromBytes(Bytes(w), 0) == w
  {}

  function Words(block: seq<bv8>): (x: seq<Word>)
    requires |block| == 64
    ensures |x| == 16
  {
    seq(16, i requires 0 <= i < 16 => FromBytes(block, 4 * i))
  }

  // Addition modulo 2^32.
  function Plus(x: Word, y: Word): Word { W(x.v + y.v) }

  function Added(s: Abcd, r: Abcd): Abcd { Abcd(Plus(s.a, r.a), Plus(s.b, r.b), Plus(s.c, r.c), Plus(s.d, r.d)) }

  function Compress(s: Abcd, block: seq<bv8>): Abcd
    requires |block| == 64
  {
    Added(s, Steps(Words(block), s, 0, 64))
  }

  // All the full blocks of a message.
  function Fold(s: Abcd, m: seq<bv8>): Abcd
    decreases |m|
  {
    if |m| < 64 then s else Fold(Compress(s, m[..64]), m[64..])
  }

  // One bit, zeros up to 56 bytes modulo 64, and the length in bits modulo 2^64, low word first.
  function Padding(n: nat): (p: seq<bv8>)
    ensures (n + |p|) % 64 == 56 && 1 <= |p| <= 64
  {
    [0x80] + seq((119 - n % 64) % 64, (_: int) => 0 as bv8)
  }

  function WordOf(n: nat): Word
    requires n < WORD
  {
    W(n as bv32)
  }

  function LengthBytes(n: nat): (b: seq<bv8>)
    ensures |b| == 8
  {
    var bits := 8 * n % (WORD * WORD);
    Bytes(WordOf(bits % WORD)) + Bytes(WordOf(bits / WORD))
  }

  // The number of bits, in two words, low one first.
  lemma LengthWords(n: nat)
    ensures var bits, b := 8 * n % (WORD * WORD), LengthBytes(n);
            FromBytes(b, 0) == WordOf(bits % WORD) && FromBytes(b, 4) == WordOf(bits / WORD)
  {
    hide FromBytes, Bytes;
    var bits, b := 8 * n % (WORD * WORD), LengthBytes(n);
    assert b[0..4] == Bytes(WordOf(bits % WORD)) && b[4..8] == Bytes(WordOf(bits / WORD));
    FromBytesOfWord(WordOf(bits % WORD), b, 0);
    FromBytesOfWord(WordOf(bits / WORD), b, 4);
  }

  function Output(s: Abcd): (b: seq<bv8>)
    ensures |b| == 16
  {
    Bytes(s.a) + Bytes(s.b) + Bytes(s.c) + Bytes(s.d)
  }

  function Digest(m: seq<bv8>): seq<bv8> { Output(Fold(INITIAL, m + Padding(|m|) + LengthBytes(|m|))) }
}
