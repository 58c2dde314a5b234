/** The transform of ltm/md5.c, unrolled, with its macros and byte order. */
module Md5 {
  import opened Md5Spec

  // The macros: F and G save an operation.
  function F(x: bv32, y: bv32, z: bv32): bv32 { ((y ^ z) & x) ^ z }

  function G(x: bv32, y: bv32, z: bv32): bv32 { ((x ^ y) & z) ^ y }

  function H(x: bv32, y: bv32, z: bv32): bv32 { x ^ y ^ z }

  function I(x: bv32, y: bv32, z: bv32): bv32 { (!z | x) ^ y }

  // The three assignments that every step macro makes to its first register.
  function Register(a: Word, f: Word, x: Word, s: nat, ac: bv32, b: Word): Word
    requires s <= 32
  {
    var a := a.v + (f.v + x.v + ac);
    var a := Rotated(a, s);
    W(a + b.v)
  }

  // The short forms of the auxiliary functions compute the same.
  lemma Choice(x: bv32, y: bv32, z: bv32)
    ensures ((y ^ z) & x) ^ z == (x & y) | (!x & z)
  {}

  lemma OtherChoice(x: bv32, y: bv32, z: bv32)
    ensures ((x ^ y) & z) ^ y == (x & z) | (y & !z)
  {}

  lemma ShortF(x: bv32, y: bv32, z: bv32)
    ensures F(x, y, z) == RfcF(x, y, z)
  {
    Choice(x, y, z);
  }

  lemma ShortG(x: bv32, y: bv32, z: bv32)
    ensures G(x, y, z) == RfcG(x, y, z)
  {
    OtherChoice(x, y, z);
  }

  lemma SameH(x: bv32, y: bv32, z: bv32)
    ensures H(x, y, z) == RfcH(x, y, z)
  {}

  lemma SameI(x: bv32, y: bv32, z: bv32)
    ensures I(x, y, z) == RfcI(x, y, z)
  {}

  lemma SameOperation(a: Word, f: Word, x: Word, s: nat, ac: bv32, b: Word)
    requires s <= 32
    ensures Register(a, f, x, s, ac, b) == Operation(a, b, f, x, s, ac)
  {
    hide Rotated;
    SameSum(a.v, f.v, x.v, ac);
  }

  lemma SameSum(a: bv32, f: bv32, x: bv32, ac: bv32)
    ensures a + (f + x + ac) == a + f + x + ac
  {}

  // A step macro is an operation of section 3.4.
  function FF(a: Word, b: Word, c: Word, d: Word, x: Word, s: nat, ac: bv32): (r: Word)
    requires s <= 32
    ensures r == Operation(a, b, WordF(b, c, d), x, s, ac)
  {
    ShortF(b.v, c.v, d.v);
    SameOperation(a, W(F(b.v, c.v, d.v)), x, s, ac, b);
    Register(a, W(F(b.v, c.v, d.v)), x, s, ac, b)
  }

  function GG(a: Word, b: Word, c: Word, d: Word, x: Word, s: nat, ac: bv32): (r: Word)
    requires s <= 32
    ensures r == Operation(a, b, WordG(b, c, d), x, s, ac)
  {
    ShortG(b.v, c.v, d.v);
    SameOperation(a, W(G(b.v, c.v, d.v)), x, s, ac, b);
    Register(a, W(G(b.v, c.v, d.v)), x, s, ac, b)
  }

  function HH(a: Word, b: Word, c: Word, d: Word, x: Word, s: nat, ac: bv32): (r: Word)
    requires s <= 32
    ensures r == Operation(a, b, WordH(b, c, d), x, s, ac)
  {
    SameH(b.v, c.v, d.v);
    SameOperation(a, W(H(b.v, c.v, d.v)), x, s, ac, b);
    Register(a, W(H(b.v, c.v, d.v)), x, s, ac, b)
  }

  function II(a: Word, b: Word, c: Word, d: Word, x: Word, s: nat, ac: bv32): (r: Word)
    requires s <= 32
    ensures r == Operation(a, b, WordI(b, c, d), x, s, ac)
  {
    SameI(b.v, c.v, d.v);
    SameOperation(a, W(I(b.v, c.v, d.v)), x, s, ac, b);
    Register(a, W(I(b.v, c.v, d.v)), x, s, ac, b)
  }

  lemma FourSteps(x: seq<Word>, s: Abcd, lo: nat, i0: nat, i1: nat, i2: nat, i3: nat)
    requires |x| == 16 && lo <= i0 && i1 == i0 + 1 && i2 == i0 + 2 && i3 == i0 + 3 < 64
    ensures Steps(x, s, lo, i3 + 1) == Step(x, i3, Step(x, i2, Step(x, i1, Step(x, i0, Steps(x, s, lo, i0)))))
  {
    hide Step;
    assert Steps(x, s, lo, i2) == Step(x, i1, Steps(x, s, lo, i1));
  }

  lemma NoSteps(x: seq<Word>, s: Abcd, lo: nat)
    requires |x| == 16 && lo <= 64
    ensures Steps(x, s, lo, lo) == s
  {}

  method Round1(x: seq<Word>, a0: Word, b0: Word, c0: Word, d0: Word) returns (a: Word, b: Word, c: Word, d: Word)
    requires |x| == 16
    ensures Abcd(a, b, c, d) == Steps(x, Abcd(a0, b0, c0, d0), 0, 16)
  {
    hide FF, WordF, Operation, Steps;
    a, b, c, d := a0, b0, c0, d0;
    NoSteps(x, Abcd(a, b, c, d), 0);
    a := FF(a, b, c, d, x[0], 7, 0xd76aa478);
    d := FF(d, a, b, c, x[1], 12, 0xe8c7b756);
    c := FF(c, d, a, b, x[2], 17, 0x242070db);
    b := FF(b, c, d, a, x[3], 22, 0xc1bdceee);
    FourSteps(x, Abcd(a0, b0, c0, d0), 0, 0, 1, 2, 3);
    assert Abcd(a, b, c, d) == Steps(x, Abcd(a0, b0, c0, d0), 0, 4);
    a := FF(a, b, c, d, x[4], 7, 0xf57c0faf);
    d := FF(d, a, b, c, x[5], 12, 0x4787c62a);
    c := FF(c, d, a, b, x[6], 17, 0xa8304613);
    b := FF(b, c, d, a, x[7], 22, 0xfd469501);
    FourSteps(x, Abcd(a0, b0, c0, d0), 0, 4, 5, 6, 7);
    assert Abcd(a, b, c, d) == Steps(x, Abcd(a0, b0, c0, d0), 0, 8);
    a := FF(a, b, c, d, x[8], 7, 0x698098d8);
    d := FF(d, a, b, c, x[9], 12, 0x8b44f7af);
    c := FF(c, d, a, b, x[10], 17, 0xffff5bb1);
    b := FF(b, c, d, a, x[11], 22, 0x895cd7be);
    FourSteps(x, Abcd(a0, b0, c0, d0), 0, 8, 9, 10, 11);
    assert Abcd(a, b, c, d) == Steps(x, Abcd(a0, b0, c0, d0), 0, 12);
    a := FF(a, b, c, d, x[12], 7, 0x6b901122);
    d := FF(d, a, b, c, x[13], 12, 0xfd987193);
    c := FF(c, d, a, b, x[14], 17, 0xa679438e);
    b := FF(b, c, d, a, x[15], 22, 0x49b40821);
    FourSteps(x, Abcd(a0, b0, c0, d0), 0, 12, 13, 14, 15);
    assert Abcd(a, b, c, d) == Steps(x, Abcd(a0, b0, c0, d0), 0, 16);
  }

  method Round2(x: seq<Word>, a0: Word, b0: Word, c0: Word, d0: Word) returns (a: Word, b: Word, c: Word, d: Word)
    requires |x| == 16
    ensures Abcd(a, b, c, d) == Steps(x, Abcd(a0, b0, c0, d0), 16, 32)
  {
    hide GG, WordG, Operation, Steps;
    a, b, c, d := a0, b0, c0, d0;
    NoSteps(x, Abcd(a, b, c, d), 16);
    a := GG(a, b, c, d, x[1], 5, 0xf61e2562);
    d := GG(d, a, b, c, x[6], 9, 0xc040b340);
    c := GG(c, d, a, b, x[11], 14, 0x265e5a51);
    b := GG(b, c, d, a, x[0], 20, 0xe9b6c7aa);
    FourSteps(x, Abcd(a0, b0, c0, d0), 16, 16, 17, 18, 19);
    assert Abcd(a, b, c, d) == Steps(x, Abcd(a0, b0, c0, d0), 16, 20);
    a := GG(a, b, c, d, x[5], 5, 0xd62f105d);
    d := GG(d, a, b, c, x[10], 9, 0x02441453);
    c := GG(c, d, a, b, x[15], 14, 0xd8a1e681);
    b := GG(b, c, d, a, x[4], 20, 0xe7d3fbc8);
    FourSteps(x, Abcd(a0, b0, c0, d0), 16, 20, 21, 22, 23);
    assert Abcd(a, b, c, d) == Steps(x, Abcd(a0, b0, c0, d0), 16, 24);
    a := GG(a, b, c, d, x[9], 5, 0x21e1cde6);
    d := GG(d, a, b, c, x[14], 9, 0xc33707d6);
    c := GG(c, d, a, b, x[3], 14, 0xf4d50d87);
    b := GG(b, c, d, a, x[8], 20, 0x455a14ed);
    FourSteps(x, Abcd(a0, b0, c0, d0), 16, 24, 25, 26, 27);
    assert Abcd(a, b, c, d) == Steps(x, Abcd(a0, b0, c0, d0), 16, 28);
    a := GG(a, b, c, d, x[13], 5, 0xa9e3e905);
    d := GG(d, a, b, c, x[2], 9, 0xfcefa3f8);
    c := GG(c, d, a, b, x[7], 14, 0x676f02d9);
    b := GG(b, c, d, a, x[12], 20, 0x8d2a4c8a);
    FourSteps(x, Abcd(a0, b0, c0, d0), 16, 28, 29, 30, 31);
    assert Abcd(a, b, c, d) == Steps(x, Abcd(a0, b0, c0, d0), 16, 32);
  }

  method Round3(x: seq<Word>, a0: Word, b0: Word, c0: Word, d0: Word) returns (a: Word, b: Word, c: Word, d: Word)
    requires |x| == 16
    ensures Abcd(a, b, c, d) == Steps(x, Abcd(a0, b0, c0, d0), 32, 48)
  {
    hide HH, WordH, Operation, Steps;
    a, b, c, d := a0, b0, c0, d0;
    NoSteps(x, Abcd(a, b, c, d), 32);
    a := HH(a, b, c, d, x[5], 4, 0xfffa3942);
    d := HH(d, a, b, c, x[8], 11, 0x8771f681);
    c := HH(c, d, a, b, x[11], 16, 0x6d9d6122);
    b := HH(b, c, d, a, x[14], 23, 0xfde5380c);
    FourSteps(x, Abcd(a0, b0, c0, d0), 32, 32, 33, 34, 35);
    assert Abcd(a, b, c, d) == Steps(x, Abcd(a0, b0, c0, d0), 32, 36);
    a := HH(a, b, c, d, x[1], 4, 0xa4beea44);
    d := HH(d, a, b, c, x[4], 11, 0x4bdecfa9);
    c := HH(c, d, a, b, x[7], 16, 0xf6bb4b60);
    b := HH(b, c, d, a, x[10], 23, 0xbebfbc70);
    FourSteps(x, Abcd(a0, b0, c0, d0), 32, 36, 37, 38, 39);
    assert Abcd(a, b, c, d) == Steps(x, Abcd(a0, b0, c0, d0), 32, 40);
    a := HH(a, b, c, d, x[13], 4, 0x289b7ec6);
    d := HH(d, a, b, c, x[0], 11, 0xeaa127fa);
    c := HH(c, d, a, b, x[3], 16, 0xd4ef3085);
    b := HH(b, c, d, a, x[6], 23, 0x04881d05);
    FourSteps(x, Abcd(a0, b0, c0, d0), 32, 40, 41, 42, 43);
    assert Abcd(a, b, c, d) == Steps(x, Abcd(a0, b0, c0, d0), 32, 44);
    a := HH(a, b, c, d, x[9], 4, 0xd9d4d039);
    d := HH(d, a, b, c, x[12], 11, 0xe6db99e5);
    c := HH(c, d, a, b, x[15], 16, 0x1fa27cf8);
    b := HH(b, c, d, a, x[2], 23, 0xc4ac5665);
    FourSteps(x, Abcd(a0, b0, c0, d0), 32, 44, 45, 46, 47);
    assert Abcd(a, b, c, d) == Steps(x, Abcd(a0, b0, c0, d0), 32, 48);
  }

  method Round4(x: seq<Word>, a0: Word, b0: Word, c0: Word, d0: Word) returns (a: Word, b: Word, c: Word, d: Word)
    requires |x| == 16
    ensures Abcd(a, b, c, d) == Steps(x, Abcd(a0, b0, c0, d0), 48, 64)
  {
    hide II, WordI, Operation, Steps;
    a, b, c, d := a0, b0, c0, d0;
    NoSteps(x, Abcd(a, b, c, d), 48);
    a := II(a, b, c, d, x[0], 6, 0xf4292244);
    d := II(d, a, b, c, x[7], 10, 0x432aff97);
    c := II(c, d, a, b, x[14], 15, 0xab9423a7);
    b := II(b, c, d, a, x[5], 21, 0xfc93a039);
    FourSteps(x, Abcd(a0, b0, c0, d0), 48, 48, 49, 50, 51);
    assert Abcd(a, b, c, d) == Steps(x, Abcd(a0, b0, c0, d0), 48, 52);
    a := II(a, b, c, d, x[12], 6, 0x655b59c3);
    d := II(d, a, b, c, x[3], 10, 0x8f0ccc92);
    c := II(c, d, a, b, x[10], 15, 0xffeff47d);
    b := II(b, c, d, a, x[1], 21, 0x85845dd1);
    FourSteps(x, Abcd(a0, b0, c0, d0), 48, 52, 53, 54, 55);
    assert Abcd(a, b, c, d) == Steps(x, Abcd(a0, b0, c0, d0), 48, 56);
    a := II(a, b, c, d, x[8], 6, 0x6fa87e4f);
    d := II(d, a, b, c, x[15], 10, 0xfe2ce6e0);
    c := II(c, d, a, b, x[6], 15, 0xa3014314);
    b := II(b, c, d, a, x[13], 21, 0x4e0811a1);
    FourSteps(x, Abcd(a0, b0, c0, d0), 48, 56, 57, 58, 59);
    assert Abcd(a, b, c, d) == Steps(x, Abcd(a0, b0, c0, d0), 48, 60);
    a := II(a, b, c, d, x[4], 6, 0xf7537e82);
    d := II(d, a, b, c, x[11], 10, 0xbd3af235);
    c := II(c, d, a, b, x[2], 15, 0x2ad7d2bb);
    b := II(b, c, d, a, x[9], 21, 0xeb86d391);
    FourSteps(x, Abcd(a0, b0, c0, d0), 48, 60, 61, 62, 63);
    assert Abcd(a, b, c, d) == Steps(x, Abcd(a0, b0, c0, d0), 48, 64);
  }

  lemma {:induction false} StepsJoin(x: seq<Word>, s: Abcd, lo: nat, mid: nat, hi: nat)
    requires |x| == 16 && lo <= mid <= hi <= 64
    ensures Steps(x, Steps(x, s, lo, mid), mid, hi) == Steps(x, s, lo, hi)
    decreases hi
  {
    hide Step;
    if mid < hi {
      StepsJoin(x, s, lo, mid, hi - 1);
    }
  }

  method AllRounds(x: seq<Word>, a0: Word, b0: Word, c0: Word, d0: Word) returns (a: Word, b: Word, c: Word, d: Word)
    requires |x| == 16
    ensures Abcd(a, b, c, d) == Steps(x, Abcd(a0, b0, c0, d0), 0, 64)
  {
    hide Steps;
    ghost var s := Abcd(a0, b0, c0, d0);
    a, b, c, d := a0, b0, c0, d0;
    a, b, c, d := Round1(x, a, b, c, d);
    a, b, c, d := Round2(x, a, b, c, d);
    StepsJoin(x, s, 0, 16, 32);
    a, b, c, d := Round3(x, a, b, c, d);
    StepsJoin(x, s, 0, 32, 48);
    a, b, c, d := Round4(x, a, b, c, d);
    StepsJoin(x, s, 0, 48, 64);
  }

  // The words of a block, as FETCH_32 reads them.
  method Fetch(block: seq<bv8>) returns (x: seq<Word>)
    requires |block| == 64
    ensures x == Words(block)
  {
    hide FromBytes;
    x := [FromBytes(block, 0), FromBytes(block, 4), FromBytes(block, 8), FromBytes(block, 12),
          FromBytes(block, 16), FromBytes(block, 20), FromBytes(block, 24), FromBytes(block, 28),
          FromBytes(block, 32), FromBytes(block, 36), FromBytes(block, 40), FromBytes(block, 44),
          FromBytes(block, 48), FromBytes(block, 52), FromBytes(block, 56), FromBytes(block, 60)];
  }

  // Words to bytes; the source passes arrays.
  method Encode(input: seq<Word>, output: array<bv8>)
    requires output.Length == 4 * |input|
    modifies output
    ensures forall i :: 0 <= i < |input| ==> output[4 * i..4 * i + 4] == Bytes(input[i])
  {
    var i, j := 0, 0;
    while j < output.Length
      invariant j == 4 * i && i <= |input|
      invariant forall k :: 0 <= k < i ==> output[4 * k..4 * k + 4] == Bytes(input[k])
    {
      output[j] := (input[i].v & 0xff) as bv8;
      output[j + 1] := ((input[i].v >> 8) & 0xff) as bv8;
      output[j + 2] := ((input[i].v >> 16) & 0xff) as bv8;
      output[j + 3] := ((input[i].v >> 24) & 0xff) as bv8;
      i, j := i + 1, j + 4;
    }
  }

  // Folding over appended blocks.
  lemma {:induction false} FoldAppends(s: Abcd, m: seq<bv8>, b: seq<bv8>)
    requires |m| % 64 == 0 && |b| == 64
    ensures Fold(s, m + b) == Compress(Fold(s, m), b)
    decreases |m|
  {
    hide Compress;
    if m == [] {
      assert m + b == b && b[..64] == b && |b[64..]| == 0;
    } else {
      assert |m| >= 64;
      assert (m + b)[..64] == m[..64] && (m + b)[64..] == m[64..] + b;
      FoldAppends(Compress(s, m[..64]), m[64..], b);
    }
  }

  lemma {:induction false} FoldIgnoresRest(s: Abcd, m: seq<bv8>, t: seq<bv8>)
    requires |m| % 64 == 0 && |t| < 64
    ensures Fold(s, m + t) == Fold(s, m)
    decreases |m|
  {
    hide Compress;
    if m == [] {
      assert m + t == t;
    } else {
      assert |m| >= 64;
      assert (m + t)[..64] == m[..64] && (m + t)[64..] == m[64..] + t;
      FoldIgnoresRest(Compress(s, m[..64]), m[64..], t);
    }
  }
}
