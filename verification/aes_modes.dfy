/** CBC over byte buffers (NIST SP 800-38A, section 6.2), and CBC-MAC. */
module AesModes {
  import opened AesTables
  import opened Aes
  import opened AesKey

  // A schedule long enough for its key size.
  predicate Keyed(w: seq<bv32>, keysize: int) { LegalSize(keysize) && 4 * EncryptRounds(keysize) + 4 <= |w| }

  type Block = b: seq<bv8> | |b| == 16 witness seq(16, (_: int) => 0 as bv8)

  // The block cipher under one key, in the two directions.
  function Encryption(w: seq<bv32>, keysize: int): Block -> Block
    requires Keyed(w, keysize)
  {
    (b: Block) => EncryptBlock(w, keysize, b)
  }

  function Decryption(w: seq<bv32>, keysize: int): Block -> Block
    requires Keyed(w, keysize)
  {
    (b: Block) => DecryptBlock(w, keysize, b)
  }

  // d undoes e.
  ghost predicate Inverts(d: Block -> Block, e: Block -> Block) { forall b: Block :: d(e(b)) == b }

  lemma DecryptionInverts(w: seq<bv32>, keysize: int)
    requires Keyed(w, keysize)
    ensures Inverts(Decryption(w, keysize), Encryption(w, keysize))
  {
    hide EncryptBlock, DecryptBlock;
    forall b: Block
      ensures Decryption(w, keysize)(Encryption(w, keysize)(b)) == b
    {
      DecryptUndoesEncrypt(w, keysize, b);
    }
  }

  function XorSeq(x: seq<bv8>, y: seq<bv8>): (r: seq<bv8>)
    requires |x| <= |y|
    ensures |r| == |x|
  {
    seq(|x|, i requires 0 <= i < |x| => Add(x[i], y[i]))
  }

  lemma XorSeqUndoes(x: seq<bv8>, y: seq<bv8>)
    requires |x| <= |y|
    ensures XorSeq(XorSeq(x, y), y) == x
  {}

  // What fills up to the next block, never nothing.
  function BlockPad(n: nat): (k: nat)
    ensures 1 <= k <= 16 && (n + k) % 16 == 0
  {
    16 - n % 16
  }

  // Buffer s with the bytes at p put in its place.
  function Splice(s: seq<bv8>, at: nat, p: seq<bv8>): (r: seq<bv8>)
    requires at + |p| <= |s|
    ensures |r| == |s|
  {
    s[..at] + p + s[at + |p|..]
  }

  method XorBuf(src: array<bv8>, dst: array<bv8>, at: nat, len: nat)
    requires len <= src.Length && at + len <= dst.Length && src != dst
    modifies dst
    ensures dst[..] == Splice(old(dst[..]), at, XorSeq(old(dst[at..at + len]), src[..]))
  {
    hide Add;
    var i := 0;
    while i < len
      invariant i <= len
      invariant forall k :: at <= k < at + i ==> dst[k] == Add(old(dst[k]), src[k - at])
      invariant forall k :: 0 <= k < dst.Length && !(at <= k < at + i) ==> dst[k] == old(dst[k])
    {
      dst[at + i] := Add(dst[at + i], src[i]);
      i := i + 1;
    }
  }

  method CopyBytes(src: array<bv8>, from: nat, dst: array<bv8>, at: nat, len: nat)
    requires from + len <= src.Length && at + len <= dst.Length && src != dst
    modifies dst
    ensures dst[..] == Splice(old(dst[..]), at, src[from..from + len])
  {
    var i := 0;
    while i < len
      invariant i <= len
      invariant forall k :: at <= k < at + i ==> dst[k] == src[from + k - at]
      invariant forall k :: 0 <= k < dst.Length && !(at <= k < at + i) ==> dst[k] == old(dst[k])
    {
      dst[at + i] := src[from + i];
      i := i + 1;
    }
  }

  // Every block is added to the ciphertext block before it.
  function CbcEncrypt(e: Block -> Block, iv: Block, p: seq<bv8>): (c: seq<bv8>)
    requires |p| % 16 == 0
    ensures |c| == |p|
    decreases |p|
  {
    if p == [] then [] else
      var c := e(XorSeq(p[..16], iv));
      c + CbcEncrypt(e, c, p[16..])
  }

  function CbcDecrypt(d: Block -> Block, iv: Block, c: seq<bv8>): (p: seq<bv8>)
    requires |c| % 16 == 0
    ensures |p| == |c|
    decreases |c|
  {
    if c == [] then [] else XorSeq(d(c[..16]), iv) + CbcDecrypt(d, c[..16], c[16..])
  }

  function CbcMac(e: Block -> Block, iv: Block, p: seq<bv8>): (mac: Block)
    requires |p| % 16 == 0
    decreases |p|
  {
    if p == [] then iv else CbcMac(e, e(XorSeq(p[..16], iv)), p[16..])
  }

  function Nth(s: seq<bv8>, j: nat): (b: Block)
    requires 16 * j + 16 <= |s|
  {
    s[16 * j..16 * j + 16]
  }

  // The equations of section 6.2: C_1 = E(P_1 + IV), C_j = E(P_j + C_(j-1)).
  lemma {:induction false} CbcChains(e: Block -> Block, iv: Block, p: seq<bv8>, j: nat)
    requires |p| % 16 == 0 && 16 * j + 16 <= |p|
    ensures var c := CbcEncrypt(e, iv, p);
            Nth(c, j) == e(XorSeq(Nth(p, j), if j == 0 then iv else Nth(c, j - 1)))
    decreases j
  {
    hide XorSeq;
    var c := e(XorSeq(p[..16], iv));
    var all := CbcEncrypt(e, iv, p);
    var rest := CbcEncrypt(e, c, p[16..]);
    assert all == c + rest;
    if j == 0 {
      assert Nth(p, 0) == p[..16] && Nth(all, 0) == c;
    } else {
      CbcChains(e, c, p[16..], j - 1);
      assert Nth(p[16..], j - 1) == Nth(p, j);
      assert Nth(rest, j - 1) == Nth(all, j);
      assert Nth(all, j - 1) == if j == 1 then c else Nth(rest, j - 2);
    }
  }

  // Decryption inverts encryption for every whole number of blocks.
  lemma {:induction false} CbcRoundTrip(e: Block -> Block, d: Block -> Block, iv: Block, p: seq<bv8>)
    requires Inverts(d, e) && |p| % 16 == 0
    ensures CbcDecrypt(d, iv, CbcEncrypt(e, iv, p)) == p
    decreases |p|
  {
    hide XorSeq;
    if p != [] {
      assert |p| >= 16;
      var x: Block := XorSeq(p[..16], iv);
      var c := e(x);
      var rest: seq<bv8> := CbcEncrypt(e, c, p[16..]);
      var all: seq<bv8> := c + rest;
      assert all[..16] == c && all[16..] == rest;
      assert d(c) == x;
      XorSeqUndoes(p[..16], iv);
      CbcRoundTrip(e, d, c, p[16..]);
    }
  }

  // The MAC is the last block of the chain.
  lemma {:induction false} CbcMacIsLast(e: Block -> Block, iv: Block, p: seq<bv8>)
    requires |p| % 16 == 0 && p != []
    ensures CbcMac(e, iv, p) == Nth(CbcEncrypt(e, iv, p), |p| / 16 - 1)
    decreases |p|
  {
    hide XorSeq;
    assert |p| >= 16;
    var c := e(XorSeq(p[..16], iv));
    if |p| == 16 {
      assert CbcMac(e, c, p[16..]) == c;
    } else {
      CbcMacIsLast(e, c, p[16..]);
    }
  }

  lemma SpliceAll(s: seq<bv8>, p: seq<bv8>)
    requires |p| == |s|
    ensures Splice(s, 0, p) == p
  {}

  lemma SpliceMore(s: seq<bv8>, done: seq<bv8>, c: seq<bv8>)
    requires |done| + |c| <= |s|
    ensures Splice(Splice(s, 0, done), |done|, c) == Splice(s, 0, done + c)
  {}

  lemma SpliceElsewhere(s: seq<bv8>, at: nat, p: seq<bv8>, k: nat)
    requires at + |p| <= |s| && k < |s| && !(at <= k < at + |p|)
    ensures Splice(s, at, p)[k] == s[k]
  {}

  // A block is copied out, added to the chaining value and encrypted.
  method EncryptChained(input: array<bv8>, at: nat, ivBuf: array<bv8>, bufIn: array<bv8>, bufOut: array<bv8>,
    w: seq<bv32>, keysize: int)
    requires Keyed(w, keysize) && at + 16 <= input.Length && input != bufIn && bufIn != ivBuf
    requires ivBuf.Length == 16 == bufIn.Length && bufOut.Length == 16
    modifies bufIn, bufOut
    ensures bufOut[..] == Encryption(w, keysize)(XorSeq(old(input[at..at + 16]), old(ivBuf[..])))
  {
    hide EncryptBlock, XorSeq, Splice;
    CopyBytes(input, at, bufIn, 0, 16);
    SpliceAll(old(bufIn[..]), input[at..at + 16]);
    assert bufIn[0..16] == bufIn[..];
    XorBuf(ivBuf, bufIn, 0, 16);
    SpliceAll(input[at..at + 16], bufIn[..]);
    SpliceAll(old(input[at..at + 16]), XorSeq(old(input[at..at + 16]), old(ivBuf[..])));
    Encrypt(bufIn, bufOut, w, keysize);
  }

  // The result goes to the output; where that is the input buffer, the blocks still to come stay as they are.
  method EmitBlock(input: array<bv8>, len: nat, bufOut: array<bv8>, output: array<bv8>, j: nat)
    requires bufOut.Length == 16 && 16 * j + 16 <= len <= input.Length && len <= output.Length && bufOut != output
    modifies output
    ensures output[..] == Splice(old(output[..]), 16 * j, bufOut[..])
    ensures forall k :: 16 * j + 16 <= k < len ==> input[k] == old(input[k])
  {
    hide Splice;
    assert bufOut[0..16] == bufOut[..];
    forall k | 16 * j + 16 <= k < len
      ensures input == output ==> Splice(output[..], 16 * j, bufOut[..])[k] == input[k]
    {
      SpliceElsewhere(output[..], 16 * j, bufOut[..], k);
    }
    CopyBytes(bufOut, 0, output, 16 * j, 16);
  }

  lemma CbcNone(e: Block -> Block, iv: Block)
    ensures CbcEncrypt(e, iv, []) == []
  {}

  lemma SpliceNone(s: seq<bv8>)
    ensures Splice(s, 0, []) == s
  {}

  lemma CbcStep(e: Block -> Block, iv: Block, p: seq<bv8>, j: nat, done: seq<bv8>, c: Block)
    requires |p| % 16 == 0 && 16 * j < |p| && c == e(XorSeq(p[16 * j..16 * j + 16], iv))
    ensures done + CbcEncrypt(e, iv, p[16 * j..]) == done + c + CbcEncrypt(e, c, p[16 * (j + 1)..])
  {
    hide XorSeq;
    var rest := p[16 * j..];
    assert rest[..16] == p[16 * j..16 * j + 16] && rest[16..] == p[16 * (j + 1)..];
  }

  // The output may be the input buffer itself.
  method EncryptCbc(input: array<bv8>, len: nat, output: array<bv8>, w: seq<bv32>, keysize: int, iv: Block)
    returns (ok: bool)
    requires Keyed(w, keysize) && len <= input.Length && len <= output.Length
    modifies output
    ensures ok == (len % 16 == 0)
    ensures !ok ==> output[..] == old(output[..])
    ensures ok ==> output[..] == Splice(old(output[..]), 0, CbcEncrypt(Encryption(w, keysize), iv, old(input[..len])))
  {
    hide CbcEncrypt, EncryptBlock, Encryption, XorSeq, Splice;
    if len % 16 != 0 {
      return false;
    }
    var bufIn, bufOut, ivBuf := new bv8[16], new bv8[16], new bv8[16](i requires 0 <= i < 16 => iv[i]);
    ghost var e, p, done := Encryption(w, keysize), input[..len], [];
    var j := 0;
    assert ivBuf[..] == iv && p[0..] == p;
    SpliceNone(output[..]);
    while j < len / 16
      invariant j <= len / 16 && |done| == 16 * j
      invariant forall k :: 16 * j <= k < len ==> input[k] == p[k]
      invariant done + CbcEncrypt(e, ivBuf[..], p[16 * j..]) == CbcEncrypt(e, iv, p)
      invariant output[..] == Splice(old(output[..]), 0, done)
    {
      assert input[16 * j..16 * j + 16] == p[16 * j..16 * j + 16];
      EncryptChained(input, 16 * j, ivBuf, bufIn, bufOut, w, keysize);
      CbcStep(e, ivBuf[..], p, j, done, bufOut[..]);
      EmitBlock(input, len, bufOut, output, j);
      SpliceAll(ivBuf[..], bufOut[..]);
      assert bufOut[0..16] == bufOut[..];
      CopyBytes(bufOut, 0, ivBuf, 0, 16);
      SpliceMore(old(output[..]), done, bufOut[..]);
      done := done + bufOut[..];
      j := j + 1;
    }
    assert p[16 * j..] == [];
    CbcNone(e, ivBuf[..]);
    assert done + [] == done;
    return true;
  }

  // After an empty input what is copied out is a block that nothing has been written to.
  method EncryptCbcMac(input: array<bv8>, len: nat, output: array<bv8>, w: seq<bv32>, keysize: int, iv: Block)
    returns (ok: bool)
    requires Keyed(w, keysize) && len <= input.Length && output.Length == 16
    modifies output
    ensures ok == (len % 16 == 0)
    ensures !ok ==> output[..] == old(output[..])
    ensures ok && len > 0 ==> output[..] == CbcMac(Encryption(w, keysize), iv, old(input[..len]))
  {
    hide CbcMac, EncryptBlock, Encryption, XorSeq, Splice;
    if len % 16 != 0 {
      return false;
    }
    var bufIn, bufOut, ivBuf := new bv8[16], new bv8[16], new bv8[16](i requires 0 <= i < 16 => iv[i]);
    ghost var e, p := Encryption(w, keysize), input[..len];
    var j := 0;
    assert ivBuf[..] == iv && p[0..] == p;
    while j < len / 16
      invariant j <= len / 16
      invariant CbcMac(e, ivBuf[..], p[16 * j..]) == CbcMac(e, iv, p)
      invariant input[..len] == p
      invariant j > 0 ==> bufOut[..] == ivBuf[..]
    {
      assert input[16 * j..16 * j + 16] == p[16 * j..16 * j + 16];
      EncryptChained(input, 16 * j, ivBuf, bufIn, bufOut, w, keysize);
      MacStep(e, ivBuf[..], p, j, bufOut[..]);
      SpliceAll(ivBuf[..], bufOut[..]);
      assert bufOut[0..16] == bufOut[..];
      CopyBytes(bufOut, 0, ivBuf, 0, 16);
      j := j + 1;
    }
    assert p[16 * j..] == [];
    MacNone(e, ivBuf[..]);
    SpliceAll(output[..], bufOut[..]);
    assert bufOut[0..16] == bufOut[..];
    CopyBytes(bufOut, 0, output, 0, 16);
    return true;
  }

  lemma MacNone(e: Block -> Block, iv: Block)
    ensures CbcMac(e, iv, []) == iv
  {}

  lemma MacStep(e: Block -> Block, iv: Block, p: seq<bv8>, j: nat, c: Block)
    requires |p| % 16 == 0 && 16 * j < |p| && c == e(XorSeq(p[16 * j..16 * j + 16], iv))
    ensures CbcMac(e, iv, p[16 * j..]) == CbcMac(e, c, p[16 * (j + 1)..])
  {
    hide XorSeq;
    var rest := p[16 * j..];
    assert rest[..16] == p[16 * j..16 * j + 16] && rest[16..] == p[16 * (j + 1)..];
  }

  lemma CbcDecStep(d: Block -> Block, iv: Block, c: seq<bv8>, j: nat, done: seq<bv8>, p: Block)
    requires |c| % 16 == 0 && 16 * j < |c| && p == XorSeq(d(c[16 * j..16 * j + 16]), iv)
    ensures done + CbcDecrypt(d, iv, c[16 * j..]) == done + p + CbcDecrypt(d, c[16 * j..16 * j + 16], c[16 * (j + 1)..])
  {
    hide XorSeq;
    var rest := c[16 * j..];
    assert rest[..16] == c[16 * j..16 * j + 16] && rest[16..] == c[16 * (j + 1)..];
  }

  lemma CbcDecNone(d: Block -> Block, iv: Block)
    ensures CbcDecrypt(d, iv, []) == []
  {}

  // A block is copied out, decrypted and added to the chaining value.
  method DecryptChained(input: array<bv8>, at: nat, ivBuf: array<bv8>, bufIn: array<bv8>, bufOut: array<bv8>,
    w: seq<bv32>, keysize: int)
    requires Keyed(w, keysize) && at + 16 <= input.Length && input != bufIn && input != bufOut && bufIn != bufOut
    requires ivBuf.Length == 16 == bufIn.Length && bufOut.Length == 16 && ivBuf != bufIn && ivBuf != bufOut
    modifies bufIn, bufOut
    ensures bufIn[..] == input[at..at + 16]
    ensures bufOut[..] == XorSeq(Decryption(w, keysize)(input[at..at + 16]), ivBuf[..])
  {
    hide DecryptBlock, XorSeq, Splice;
    CopyBytes(input, at, bufIn, 0, 16);
    SpliceAll(old(bufIn[..]), input[at..at + 16]);
    Decrypt(bufIn, bufOut, w, keysize);
    assert bufOut[0..16] == bufOut[..];
    SpliceAll(bufOut[..], XorSeq(bufOut[..], ivBuf[..]));
    XorBuf(ivBuf, bufOut, 0, 16);
  }

  method DecryptCbc(input: array<bv8>, len: nat, output: array<bv8>, w: seq<bv32>, keysize: int, iv: Block)
    returns (ok: bool)
    requires Keyed(w, keysize) && len <= input.Length && len <= output.Length
    modifies output
    ensures ok == (len % 16 == 0)
    ensures !ok ==> output[..] == old(output[..])
    ensures ok ==> output[..] == Splice(old(output[..]), 0, CbcDecrypt(Decryption(w, keysize), iv, old(input[..len])))
  {
    hide CbcDecrypt, DecryptBlock, Decryption, XorSeq, Splice;
    if len % 16 != 0 {
      return false;
    }
    var bufIn, bufOut, ivBuf := new bv8[16], new bv8[16], new bv8[16](i requires 0 <= i < 16 => iv[i]);
    ghost var d, c, done := Decryption(w, keysize), input[..len], [];
    var j := 0;
    assert ivBuf[..] == iv && c[0..] == c;
    SpliceNone(output[..]);
    while j < len / 16
      invariant j <= len / 16 && |done| == 16 * j
      invariant forall k :: 16 * j <= k < len ==> input[k] == c[k]
      invariant done + CbcDecrypt(d, ivBuf[..], c[16 * j..]) == CbcDecrypt(d, iv, c)
      invariant output[..] == Splice(old(output[..]), 0, done)
    {
      assert input[16 * j..16 * j + 16] == c[16 * j..16 * j + 16];
      DecryptChained(input, 16 * j, ivBuf, bufIn, bufOut, w, keysize);
      CbcDecStep(d, ivBuf[..], c, j, done, bufOut[..]);
      EmitBlock(input, len, bufOut, output, j);
      SpliceAll(ivBuf[..], bufIn[..]);
      assert bufIn[0..16] == bufIn[..];
      CopyBytes(bufIn, 0, ivBuf, 0, 16);
      SpliceMore(old(output[..]), done, bufOut[..]);
      done := done + bufOut[..];
      j := j + 1;
    }
    assert c[16 * j..] == [];
    CbcDecNone(d, ivBuf[..]);
    assert done + [] == done;
    return true;
  }
}
