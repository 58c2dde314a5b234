/** The digest of the one-byte message "a", as appendix A.5 of RFC 1321 gives it, worked out step by step. */
module Md5Vector {
  import opened Md5Spec
  import opened Md5

  // The words of the one block of the padded message.
  function Entry(k: nat): Word { if k == 0 then W(0x00008061) else if k == 14 then W(8) else W(0) }

  const BLOCK: seq<Word> := seq(16, k requires 0 <= k < 16 => Entry(k))

  // Step i puts v into the register a.
  lemma OneStep(i: nat, a: Word, b: Word, c: Word, d: Word, f: Word, x: Word, n: nat, t: bv32, v: Word)
    requires i < 64 && Steps(BLOCK, INITIAL, 0, i) == Abcd(a, b, c, d)
    requires Aux(i, b, c, d) == f && Entry(Index(i)) == x && Amount(i) == n && T(i) == t && Operation(a, b, f, x, n, t) == v
    ensures Steps(BLOCK, INITIAL, 0, i + 1) == Abcd(d, v, b, c)
  {
    hide Aux, Index, T, Amount, Operation, Entry;
  }

  lemma StepsNone()
    ensures Steps(BLOCK, INITIAL, 0, 0) == Abcd(W(0x67452301), W(0xefcdab89), W(0x98badcfe), W(0x10325476))
  {}

  lemma Steps2()
    ensures Steps(BLOCK, INITIAL, 0, 2) == Abcd(W(0x98badcfe), W(0xf2d58361), W(0xa56017f4), W(0xefcdab89))
  {
    hide Steps;
    StepsNone();
    OneStep(0, W(0x67452301), W(0xefcdab89), W(0x98badcfe), W(0x10325476),
      W(0x98badcfe), W(0x00008061), 7, 0xd76aa478, W(0xa56017f4));
    OneStep(1, W(0x10325476), W(0xa56017f4), W(0xefcdab89), W(0x98badcfe),
      W(0xbddacb8a), W(0), 12, 0xe8c7b756, W(0xf2d58361));
  }

  lemma Steps4()
    ensures Steps(BLOCK, INITIAL, 0, 4) == Abcd(W(0xa56017f4), W(0x607d9686), W(0xe65857a7), W(0xf2d58361))
  {
    hide Steps;
    Steps2();
    OneStep(2, W(0x98badcfe), W(0xf2d58361), W(0xa56017f4), W(0xefcdab89),
      W(0xad482be8), W(0), 17, 0x242070db, W(0xe65857a7));
    OneStep(3, W(0xefcdab89), W(0xe65857a7), W(0xf2d58361), W(0xa56017f4),
      W(0xe3700371), W(0), 22, 0xc1bdceee, W(0x607d9686));
  }

  lemma Steps8()
    ensures Steps(BLOCK, INITIAL, 0, 8) == Abcd(W(0x3a9d5bcc), W(0xa8af6da5), W(0xd31ddc83), W(0xe0a07db7))
  {
    hide Steps;
    Steps4();
    OneStep(4, W(0xa56017f4), W(0x607d9686), W(0xe65857a7), W(0xf2d58361),
      W(0xf2d817e7), W(0), 7, 0xf57c0faf, W(0x3a9d5bcc));
    OneStep(5, W(0xf2d58361), W(0x3a9d5bcc), W(0x607d9686), W(0xe65857a7),
      W(0xe45d16a7), W(0), 12, 0x4787c62a, W(0xe0a07db7));
    OneStep(6, W(0xe65857a7), W(0xe0a07db7), W(0x3a9d5bcc), W(0x607d9686),
      W(0x20dddb84), W(0), 17, 0xa8304613, W(0xd31ddc83));
    OneStep(7, W(0x607d9686), W(0xd31ddc83), W(0xe0a07db7), W(0x3a9d5bcc),
      W(0xe8805fcf), W(0), 22, 0xfd469501, W(0xa8af6da5));
  }

  lemma Steps12()
    ensures Steps(BLOCK, INITIAL, 0, 12) == Abcd(W(0xbe580957), W(0x68493d6a), W(0xf5fdd933), W(0xf386bea6))
  {
    hide Steps;
    Steps8();
    OneStep(8, W(0x3a9d5bcc), W(0xa8af6da5), W(0xd31ddc83), W(0xe0a07db7),
      W(0xc00d5c93), W(0), 7, 0x698098d8, W(0xbe580957));
    OneStep(9, W(0xe0a07db7), W(0xbe580957), W(0xa8af6da5), W(0xd31ddc83),
      W(0xe90ddd85), W(0), 12, 0x8b44f7af, W(0xf386bea6));
    OneStep(10, W(0xd31ddc83), W(0xf386bea6), W(0xbe580957), W(0xa8af6da5),
      W(0xba294907), W(0), 17, 0xffff5bb1, W(0xf5fdd933));
    OneStep(11, W(0xa8af6da5), W(0xf5fdd933), W(0xf386bea6), W(0xbe580957),
      W(0xfb849866), W(0), 22, 0x895cd7be, W(0x68493d6a));
  }

  lemma Steps16()
    ensures Steps(BLOCK, INITIAL, 0, 16) == Abcd(W(0x44244cf8), W(0xf01e3ce2), W(0x6360a45f), W(0xd0fe9b27))
  {
    hide Steps;
    Steps12();
    OneStep(12, W(0xbe580957), W(0x68493d6a), W(0xf5fdd933), W(0xf386bea6),
      W(0xf3cf9ba6), W(0), 7, 0x6b901122, W(0x44244cf8));
    OneStep(13, W(0xf386bea6), W(0x44244cf8), W(0x68493d6a), W(0xf5fdd933),
      W(0xf1d99d6b), W(0), 12, 0xfd987193, W(0xd0fe9b27));
    OneStep(14, W(0xf5fdd933), W(0xd0fe9b27), W(0x44244cf8), W(0x68493d6a),
      W(0x68252c68), W(8), 17, 0xa679438e, W(0x6360a45f));
    OneStep(15, W(0x68493d6a), W(0x6360a45f), W(0xd0fe9b27), W(0x44244cf8),
      W(0x4464c8a7), W(0), 22, 0x49b40821, W(0xf01e3ce2));
  }

  lemma Steps20()
    ensures Steps(BLOCK, INITIAL, 0, 20) == Abcd(W(0x9c341767), W(0x8d25cc66), W(0xe39ffd23), W(0x970ab3a9))
  {
    hide Steps;
    Steps16();
    OneStep(16, W(0x44244cf8), W(0xf01e3ce2), W(0x6360a45f), W(0xd0fe9b27),
      W(0xf31e3c7a), W(0), 5, 0xf61e2562, W(0x9c341767));
    OneStep(17, W(0xd0fe9b27), W(0x9c341767), W(0xf01e3ce2), W(0x6360a45f),
      W(0x903e1ce7), W(0), 9, 0xc040b340, W(0x970ab3a9));
    OneStep(18, W(0x6360a45f), W(0x970ab3a9), W(0x9c341767), W(0xf01e3ce2),
      W(0x9c2a33a5), W(0), 14, 0x265e5a51, W(0xe39ffd23));
    OneStep(19, W(0xf01e3ce2), W(0xe39ffd23), W(0x970ab3a9), W(0x9c341767),
      W(0x831eb5ab), W(0x00008061), 20, 0xe9b6c7aa, W(0x8d25cc66));
  }

  lemma Steps24()
    ensures Steps(BLOCK, INITIAL, 0, 24) == Abcd(W(0x8c444930), W(0x373beab0), W(0x2dacb8a3), W(0x7267097a))
  {
    hide Steps;
    Steps20();
    OneStep(20, W(0x9c341767), W(0x8d25cc66), W(0xe39ffd23), W(0x970ab3a9),
      W(0xe595cc22), W(0), 5, 0xd62f105d, W(0x8c444930));
    OneStep(21, W(0x970ab3a9), W(0x8c444930), W(0x8d25cc66), W(0xe39ffd23),
      W(0x8c244964), W(0), 9, 0x02441453, W(0x7267097a));
    OneStep(22, W(0xe39ffd23), W(0x7267097a), W(0x8c444930), W(0x8d25cc66),
      W(0x00650972), W(0), 14, 0xd8a1e681, W(0x2dacb8a3));
    OneStep(23, W(0x8d25cc66), W(0x2dacb8a3), W(0x7267097a), W(0x8c444930),
      W(0x7e27086a), W(0), 20, 0xe7d3fbc8, W(0x373beab0));
  }

  lemma Steps28()
    ensures Steps(BLOCK, INITIAL, 0, 28) == Abcd(W(0xf175e3ad), W(0xc8f891b4), W(0x87b7f475), W(0x9d5df67e))
  {
    hide Steps;
    Steps24();
    OneStep(24, W(0x8c444930), W(0x373beab0), W(0x2dacb8a3), W(0x7267097a),
      W(0x3fabb8b1), W(0), 5, 0x21e1cde6, W(0xf175e3ad));
    OneStep(25, W(0x7267097a), W(0xf175e3ad), W(0x373beab0), W(0x2dacb8a3),
      W(0x3337e2b1), W(8), 9, 0xc33707d6, W(0x9d5df67e));
    OneStep(26, W(0x2dacb8a3), W(0x9d5df67e), W(0xf175e3ad), W(0x373beab0),
      W(0xd55de33d), W(0), 14, 0xf4d50d87, W(0x87b7f475));
    OneStep(27, W(0x373beab0), W(0x87b7f475), W(0x9d5df67e), W(0xf175e3ad),
      W(0x8d3df477), W(0), 20, 0x455a14ed, W(0xc8f891b4));
  }

  lemma Steps32()
    ensures Steps(BLOCK, INITIAL, 0, 32) == Abcd(W(0x93842e98), W(0x3745961f), W(0x94a2ebee), W(0xc7043b64))
  {
    hide Steps;
    Steps28();
    OneStep(28, W(0xf175e3ad), W(0xc8f891b4), W(0x87b7f475), W(0x9d5df67e),
      W(0x8afa9035), W(0), 5, 0xa9e3e905, W(0x93842e98));
    OneStep(29, W(0x9d5df67e), W(0x93842e98), W(0xc8f891b4), W(0x87b7f475),
      W(0xcbcc2590), W(0), 9, 0xfcefa3f8, W(0xc7043b64));
    OneStep(30, W(0x87b7f475), W(0xc7043b64), W(0x93842e98), W(0xc8f891b4),
      W(0xd3043f2c), W(0), 14, 0x676f02d9, W(0x94a2ebee));
    OneStep(31, W(0xc8f891b4), W(0x94a2ebee), W(0xc7043b64), W(0x93842e98),
      W(0xd4803bec), W(0), 20, 0x8d2a4c8a, W(0x3745961f));
  }

  lemma Steps36()
    ensures Steps(BLOCK, INITIAL, 0, 36) == Abcd(W(0xbd607d1e), W(0xdaf7f308), W(0xbf8b4f98), W(0xa6f72085))
  {
    hide Steps;
    Steps32();
    OneStep(32, W(0x93842e98), W(0x3745961f), W(0x94a2ebee), W(0xc7043b64),
      W(0x64e34695), W(0), 4, 0xfffa3942, W(0xbd607d1e));
    OneStep(33, W(0xc7043b64), W(0xbd607d1e), W(0x3745961f), W(0x94a2ebee),
      W(0x1e8700ef), W(0), 11, 0x8771f681, W(0xa6f72085));
    OneStep(34, W(0x94a2ebee), W(0xa6f72085), W(0xbd607d1e), W(0x3745961f),
      W(0x2cd2cb84), W(0), 16, 0x6d9d6122, W(0xbf8b4f98));
    OneStep(35, W(0x3745961f), W(0xbf8b4f98), W(0xa6f72085), W(0xbd607d1e),
      W(0xa41c1203), W(8), 23, 0xfde5380c, W(0xdaf7f308));
  }

  lemma Steps40()
    ensures Steps(BLOCK, INITIAL, 0, 40) == Abcd(W(0x35a82a7a), W(0xcf7e60db), W(0x5abe099c), W(0x89e0ec97))
  {
    hide Steps;
    Steps36();
    OneStep(36, W(0xbd607d1e), W(0xdaf7f308), W(0xbf8b4f98), W(0xa6f72085),
      W(0xc38b9c15), W(0), 4, 0xa4beea44, W(0x35a82a7a));
    OneStep(37, W(0xa6f72085), W(0x35a82a7a), W(0xdaf7f308), W(0xbf8b4f98),
      W(0x50d496ea), W(0), 11, 0x4bdecfa9, W(0x89e0ec97));
    OneStep(38, W(0xbf8b4f98), W(0x89e0ec97), W(0x35a82a7a), W(0xdaf7f308),
      W(0x66bf35e5), W(0), 16, 0xf6bb4b60, W(0x5abe099c));
    OneStep(39, W(0xdaf7f308), W(0x5abe099c), W(0x89e0ec97), W(0x35a82a7a),
      W(0xe6f6cf71), W(0), 23, 0xbebfbc70, W(0xcf7e60db));
  }

  lemma Steps44()
    ensures Steps(BLOCK, INITIAL, 0, 44) == Abcd(W(0x75c151e2), W(0xcc6f5e9e), W(0x0c0e6ac4), W(0x942e0c86))
  {
    hide Steps;
    Steps40();
    OneStep(40, W(0x35a82a7a), W(0xcf7e60db), W(0x5abe099c), W(0x89e0ec97),
      W(0x1c2085d0), W(0), 4, 0x289b7ec6, W(0x75c151e2));
    OneStep(41, W(0x89e0ec97), W(0x75c151e2), W(0xcf7e60db), W(0x5abe099c),
      W(0xe00138a5), W(0x00008061), 11, 0xeaa127fa, W(0x942e0c86));
    OneStep(42, W(0x5abe099c), W(0x942e0c86), W(0x75c151e2), W(0xcf7e60db),
      W(0x2e913dbf), W(0), 16, 0xd4ef3085, W(0x0c0e6ac4));
    OneStep(43, W(0xcf7e60db), W(0x0c0e6ac4), W(0x942e0c86), W(0x75c151e2),
      W(0xede137a0), W(0), 23, 0x04881d05, W(0xcc6f5e9e));
  }

  lemma Steps48()
    ensures Steps(BLOCK, INITIAL, 0, 48) == Abcd(W(0x0ac50e18), W(0x918f93bb), W(0x8a4a6356), W(0x79ca7845))
  {
    hide Steps;
    Steps44();
    OneStep(44, W(0x75c151e2), W(0xcc6f5e9e), W(0x0c0e6ac4), W(0x942e0c86),
      W(0x544f38dc), W(0), 4, 0xd9d4d039, W(0x0ac50e18));
    OneStep(45, W(0x942e0c86), W(0x0ac50e18), W(0xcc6f5e9e), W(0x0c0e6ac4),
      W(0xcaa43a42), W(0), 11, 0xe6db99e5, W(0x79ca7845));
    OneStep(46, W(0x0c0e6ac4), W(0x79ca7845), W(0x0ac50e18), W(0xcc6f5e9e),
      W(0xbf6028c3), W(0), 16, 0x1fa27cf8, W(0x8a4a6356));
    OneStep(47, W(0xcc6f5e9e), W(0x8a4a6356), W(0x79ca7845), W(0x0ac50e18),
      W(0xf945150b), W(0), 23, 0xc4ac5665, W(0x918f93bb));
  }

  lemma Steps52()
    ensures Steps(BLOCK, INITIAL, 0, 52) == Abcd(W(0xcab8fe42), W(0x1ee405eb), W(0x36269c3f), W(0x6a4daeee))
  {
    hide Steps;
    Steps48();
    OneStep(48, W(0x0ac50e18), W(0x918f93bb), W(0x8a4a6356), W(0x79ca7845),
      W(0x1df5f4ed), W(0x00008061), 6, 0xf4292244, W(0xcab8fe42));
    OneStep(49, W(0x79ca7845), W(0xcab8fe42), W(0x918f93bb), W(0x8a4a6356),
      W(0x6e326d50), W(0), 10, 0x432aff97, W(0x6a4daeee));
    OneStep(50, W(0x8a4a6356), W(0x6a4daeee), W(0xcab8fe42), W(0x918f93bb),
      W(0xa4c510ac), W(8), 15, 0xab9423a7, W(0x36269c3f));
    OneStep(51, W(0x918f93bb), W(0x36269c3f), W(0x6a4daeee), W(0xcab8fe42),
      W(0x5d2a3351), W(0), 21, 0xfc93a039, W(0x1ee405eb));
  }

  lemma Steps56()
    ensures Steps(BLOCK, INITIAL, 0, 56) == Abcd(W(0x982c7861), W(0x893501c0), W(0x71fc7709), W(0x6812a362))
  {
    hide Steps;
    Steps52();
    OneStep(52, W(0xcab8fe42), W(0x1ee405eb), W(0x36269c3f), W(0x6a4daeee),
      W(0xa9d0c9c4), W(0), 6, 0x655b59c3, W(0x982c7861));
    OneStep(53, W(0x6a4daeee), W(0x982c7861), W(0x1ee405eb), W(0x36269c3f),
      W(0xc7197e0a), W(0), 10, 0x8f0ccc92, W(0x6812a362));
    OneStep(54, W(0x36269c3f), W(0x6812a362), W(0x982c7861), W(0x1ee405eb),
      W(0x71378317), W(0), 15, 0xffeff47d, W(0x71fc7709));
    OneStep(55, W(0x1ee405eb), W(0x71fc7709), W(0x6812a362), W(0x982c7861),
      W(0x1fed54fd), W(0), 21, 0x85845dd1, W(0x893501c0));
  }

  lemma Steps60()
    ensures Steps(BLOCK, INITIAL, 0, 60) == Abcd(W(0xfebd62fd), W(0xaa4d8ae3), W(0x53e33526), W(0x28936a74))
  {
    hide Steps;
    Steps56();
    OneStep(56, W(0x982c7861), W(0x893501c0), W(0x71fc7709), W(0x6812a362),
      W(0xee012ad4), W(0), 6, 0x6fa87e4f, W(0xfebd62fd));
    OneStep(57, W(0x6812a362), W(0xfebd62fd), W(0x893501c0), W(0x71fc7709),
      W(0x778aeb3f), W(0), 10, 0xfe2ce6e0, W(0x28936a74));
    OneStep(58, W(0x71fc7709), W(0x28936a74), W(0xfebd62fd), W(0x893501c0),
      W(0x80669c82), W(0), 15, 0xa3014314, W(0x53e33526));
    OneStep(59, W(0x893501c0), W(0x53e33526), W(0x28936a74), W(0xfebd62fd),
      W(0x7b70d752), W(0), 21, 0x4e0811a1, W(0xaa4d8ae3));
  }

  lemma Steps64()
    ensures Steps(BLOCK, INITIAL, 0, 64) == Abcd(W(0x52309e0b), W(0xb8e94637), W(0x49dee633), W(0x50f422f3))
  {
    hide Steps;
    Steps60();
    OneStep(60, W(0xfebd62fd), W(0xaa4d8ae3), W(0x53e33526), W(0x28936a74),
      W(0xac8eaacd), W(0), 6, 0xf7537e82, W(0x52309e0b));
    OneStep(61, W(0x28936a74), W(0x52309e0b), W(0xaa4d8ae3), W(0x53e33526),
      W(0x54715438), W(0), 10, 0xbd3af235, W(0x50f422f3));
    OneStep(62, W(0x53e33526), W(0x50f422f3), W(0x52309e0b), W(0xaa4d8ae3),
      W(0x07c6e9f4), W(0), 15, 0x2ad7d2bb, W(0x49dee633));
    OneStep(63, W(0xaa4d8ae3), W(0x49dee633), W(0x50f422f3), W(0x52309e0b),
      W(0xbd2bc504), W(0), 21, 0xeb86d391, W(0xb8e94637));
  }

  const MESSAGE: seq<bv8> := [0x61]

  function Padded(): (b: seq<bv8>)
    ensures |b| == 64
  {
    MESSAGE + Padding(1) + LengthBytes(1)
  }

  lemma BytesOfEight()
    ensures Bytes(W(8)) == [8, 0, 0, 0] && Bytes(W(0)) == [0, 0, 0, 0]
  {}

  lemma WordsOfEight()
    ensures WordOf(8) == W(8) && WordOf(0) == W(0)
  {}

  lemma LengthIsEight()
    ensures LengthBytes(1) == [8, 0, 0, 0, 0, 0, 0, 0]
  {
    hide Bytes, WordOf;
    BytesOfEight();
    WordsOfEight();
  }

  lemma PaddedByte(i: nat)
    requires i < 64
    ensures Padded()[i] == if i == 0 then 0x61 else if i == 1 then 0x80 else if i == 56 then 8 else 0
  {
    LengthIsEight();
  }

  lemma PaddedWord(k: nat)
    requires k < 16
    ensures FromBytes(Padded(), 4 * k) == Entry(k)
  {
    hide Padded;
    PaddedByte(4 * k);
    PaddedByte(4 * k + 1);
    PaddedByte(4 * k + 2);
    PaddedByte(4 * k + 3);
  }

  lemma PaddedWords()
    ensures Words(Padded()) == BLOCK
  {
    hide Padded, FromBytes, Entry;
    forall k | 0 <= k < 16 ensures Words(Padded())[k] == Entry(k) {
      PaddedWord(k);
    }
  }

  lemma FoldOne(s: Abcd, b: seq<bv8>)
    requires |b| == 64
    ensures Fold(s, b) == Compress(s, b)
  {
    hide Compress;
    assert b[..64] == b && |b[64..]| == 0;
  }

  lemma OutputIs()
    ensures Output(Abcd(W(0xb975c10c), W(0xa8b6f1c0), W(0xe299c331), W(0x61267769)))
         == [0x0c, 0xc1, 0x75, 0xb9, 0xc0, 0xf1, 0xb6, 0xa8, 0x31, 0xc3, 0x99, 0xe2, 0x69, 0x77, 0x26, 0x61]
  {}

  // MD5 ("a") = 0cc175b9c0f1b6a831c399e269772661
  lemma DigestOfA()
    ensures Digest(MESSAGE)
         == [0x0c, 0xc1, 0x75, 0xb9, 0xc0, 0xf1, 0xb6, 0xa8, 0x31, 0xc3, 0x99, 0xe2, 0x69, 0x77, 0x26, 0x61]
  {
    hide Steps, Words, Output, Fold;
    PaddedWords();
    Steps64();
    FoldOne(INITIAL, Padded());
    OutputIs();
  }
}
