/** CCM: formatting, CBC-MAC and CTR put together. The field sizes are those of the source, not of the standard. */
module AesCcm {
  import opened Aes
  import opened AesKey
  import opened AesModes
  import opened AesCtr

  function Zeros(n: nat): (z: seq<bv8>)
    ensures |z| == n
  {
    seq(n, (_: int) => 0 as bv8)
  }

  // (mac_len - 2) / 2, cut to three bits; the quotient is truncated toward zero.
  function MacCode(macLen: nat): bv8 {
    if macLen == 0 then 7 else if macLen == 1 then 0 else (((macLen - 2) / 2) % 8) as bv8
  }

  // The width of the length field less one, cut to three bits.
  function SizeCode(nonceLen: nat): bv8
    requires nonceLen <= 15
  {
    ((14 - nonceLen) % 8) as bv8
  }

  function FirstFlags(assocLen: nat, macLen: nat, nonceLen: nat): bv8
    requires nonceLen <= 15
  {
    ((MacCode(macLen) << 3) | SizeCode(nonceLen)) + (if assocLen > 0 then 0x40 else 0)
  }

  // The three fields of the flags can be read back.
  lemma FlagFields(m: bv8, q: bv8, adata: bool)
    requires m < 8 && q < 8
    ensures var f := ((m << 3) | q) + (if adata then 0x40 else 0);
            f & 7 == q && (f >> 3) & 7 == m && (f & 0x40 != 0 <==> adata) && f < 0x80
  {}

  function FirstBlock(nonce: seq<bv8>, assocLen: nat, payloadLen: nat, macLen: nat): Block
    requires |nonce| <= 15
  {
    ([FirstFlags(assocLen, macLen, |nonce|)] + nonce + Zeros(15 - |nonce|))
      [15 := (payloadLen % 256) as bv8][14 := (payloadLen / 256 % 256) as bv8]
  }

  // Associated data always gets some padding, even on a block boundary; the payload only as needed.
  function PayloadPad(n: nat): (k: nat)
    ensures k < 16 && (n + k) % 16 == 0
  {
    (16 - n % 16) % 16
  }

  function AssocPart(assoc: seq<bv8>): (r: seq<bv8>)
    ensures |r| % 16 == 0
  {
    [(|assoc| / 256 % 256) as bv8, (|assoc| % 256) as bv8] + assoc + Zeros(BlockPad(|assoc| + 2))
  }

  function PayloadPart(payload: seq<bv8>): (r: seq<bv8>)
    ensures |r| % 16 == 0
  {
    payload + Zeros(PayloadPad(|payload|))
  }

  function Formatted(nonce: seq<bv8>, assoc: seq<bv8>, payload: seq<bv8>, macLen: nat): (r: seq<bv8>)
    requires |nonce| <= 15
    ensures |r| % 16 == 0 && |r| > 0
  {
    var a, p := AssocPart(assoc), PayloadPart(payload);
    WholeBlocks(|a|, |p|);
    FirstBlock(nonce, |assoc|, |payload|, macLen) + a + p
  }

  // The scratch buffer is as long as payload and associated data and 48 bytes; for decryption the tag comes on top.
  // The formatted text outgrows it, by one byte, in one case.
  predicate Outgrows(assocLen: nat, payloadLen: nat) { assocLen % 16 == 14 && payloadLen % 16 == 1 }

  lemma ScratchFits(nonce: seq<bv8>, assoc: seq<bv8>, payload: seq<bv8>, macLen: nat, extra: nat)
    requires |nonce| <= 15
    ensures |Formatted(nonce, assoc, payload, macLen)| <= |payload| + |assoc| + 48 + extra
       <==> extra > 0 || !Outgrows(|assoc|, |payload|)
  {
    hide FirstBlock, Zeros;
    PadsFit(|assoc|, |payload|);
  }

  lemma PadsFit(a: nat, p: nat)
    ensures BlockPad(a + 2) + PayloadPad(p) <= 31
    ensures BlockPad(a + 2) + PayloadPad(p) == 31 <==> Outgrows(a, p)
  {}

  lemma WholeBlocks(m: nat, n: nat)
    requires m % 16 == 0 && n % 16 == 0
    ensures (16 + m + n) % 16 == 0
  {}

  function Mac(e: Block -> Block, nonce: seq<bv8>, assoc: seq<bv8>, payload: seq<bv8>, macLen: nat): Block
    requires |nonce| <= 15
  {
    CbcMac(e, Zeros(16), Formatted(nonce, assoc, payload, macLen))
  }

  // The counter for the tag, and the one the payload starts with.
  function FirstCounter(nonce: seq<bv8>): Block
    requires |nonce| <= 15
  {
    [SizeCode(|nonce|)] + nonce + Zeros(15 - |nonce|)
  }

  function Bumped(iv: Block, c: int): Block
    requires c <= 16
  {
    if c <= 0 then iv else iv[..16 - c] + Next(iv[16 - c..])
  }

  function PayloadCounter(nonce: seq<bv8>, macLen: nat): Block
    requires |nonce| <= 15
  {
    Bumped(FirstCounter(nonce), 15 - macLen)
  }

  function Seal(e: Block -> Block, nonce: seq<bv8>, assoc: seq<bv8>, payload: seq<bv8>, macLen: nat): (c: seq<bv8>)
    requires |nonce| <= 15 && macLen <= 16
    ensures |c| == |payload| + macLen
  {
    Ctr(e, PayloadCounter(nonce, macLen), payload)
    + Ctr(e, FirstCounter(nonce), Mac(e, nonce, assoc, payload, macLen)[..macLen])
  }

  datatype Opened = Opened(auth: bool, plain: seq<bv8>)

  function Open(e: Block -> Block, nonce: seq<bv8>, assoc: seq<bv8>, c: seq<bv8>, macLen: nat): Opened
    requires |nonce| <= 15 && macLen <= 16 && macLen < |c|
  {
    var n := |c| - macLen;
    var p := Ctr(e, PayloadCounter(nonce, macLen), c[..n]);
    if Ctr(e, FirstCounter(nonce), c[n..]) == Mac(e, nonce, assoc, p, macLen)[..macLen]
    then Opened(true, p)
    else Opened(false, Zeros(n))
  }

  // What was sealed opens, authentic, to the payload.
  lemma OpenUndoesSeal(e: Block -> Block, nonce: seq<bv8>, assoc: seq<bv8>, payload: seq<bv8>, macLen: nat)
    requires |nonce| <= 15 && macLen <= 16 && payload != []
    ensures Open(e, nonce, assoc, Seal(e, nonce, assoc, payload, macLen), macLen) == Opened(true, payload)
  {
    hide Ctr, Mac, PayloadCounter, FirstCounter;
    var c := Seal(e, nonce, assoc, payload, macLen);
    var tag := Mac(e, nonce, assoc, payload, macLen)[..macLen];
    assert c[..|payload|] == Ctr(e, PayloadCounter(nonce, macLen), payload);
    assert c[|payload|..] == Ctr(e, FirstCounter(nonce), tag);
    CtrUndoes(e, PayloadCounter(nonce, macLen), payload);
    CtrUndoes(e, FirstCounter(nonce), tag);
  }

  // And nothing else does: a ciphertext is authentic exactly when it is the seal of some payload, which is then returned;
  // otherwise only zeros are.
  lemma OpenIsExact(e: Block -> Block, nonce: seq<bv8>, assoc: seq<bv8>, c: seq<bv8>, macLen: nat)
    requires |nonce| <= 15 && macLen <= 16 && macLen < |c|
    ensures var r := Open(e, nonce, assoc, c, macLen);
            && |r.plain| == |c| - macLen
            && (r.auth <==> exists p: seq<bv8> :: |p| == |c| - macLen && Seal(e, nonce, assoc, p, macLen) == c)
            && (r.auth ==> Seal(e, nonce, assoc, r.plain, macLen) == c)
            && (!r.auth ==> r.plain == Zeros(|c| - macLen))
  {
    hide Ctr, Mac, PayloadCounter, FirstCounter, Zeros;
    var n := |c| - macLen;
    var r := Open(e, nonce, assoc, c, macLen);
    if r.auth {
      CtrUndoes(e, PayloadCounter(nonce, macLen), c[..n]);
      CtrUndoes(e, FirstCounter(nonce), c[n..]);
      assert c == c[..n] + c[n..];
    } else {
      forall p: seq<bv8> | |p| == n
        ensures Seal(e, nonce, assoc, p, macLen) != c
      {
        OpenUndoesSeal(e, nonce, assoc, p, macLen);
      }
    }
  }

  // memset and memcpy.
  method Fill(dst: array<bv8>, at: nat, len: nat)
    requires at + len <= dst.Length
    modifies dst
    ensures dst[..] == Splice(old(dst[..]), at, Zeros(len))
  {
    var i := 0;
    while i < len
      invariant i <= len
      invariant forall k :: at <= k < at + i ==> dst[k] == 0
      invariant forall k :: 0 <= k < dst.Length && !(at <= k < at + i) ==> dst[k] == old(dst[k])
    {
      dst[at + i] := 0;
      i := i + 1;
    }
  }

  method Put(dst: array<bv8>, at: nat, src: seq<bv8>)
    requires at + |src| <= dst.Length
    modifies dst
    ensures dst[..] == Splice(old(dst[..]), at, src)
  {
    var i := 0;
    while i < |src|
      invariant i <= |src|
      invariant forall k :: at <= k < at + i ==> dst[k] == src[k - at]
      invariant forall k :: 0 <= k < dst.Length && !(at <= k < at + i) ==> dst[k] == old(dst[k])
    {
      dst[at + i] := src[i];
      i := i + 1;
    }
  }

  lemma SpliceNext(s: seq<bv8>, at: nat, p: seq<bv8>, q: seq<bv8>)
    requires at + |p| + |q| <= |s|
    ensures Splice(Splice(s, at, p), at + |p|, q) == Splice(s, at, p + q)
  {}

  method PrepareFirstCounter(counter: array<bv8>, nonce: seq<bv8>)
    requires counter.Length == 16 && |nonce| <= 15
    modifies counter
    ensures counter[..] == FirstCounter(nonce)
    ensures counter[1..1 + |nonce|] == nonce && forall k :: 1 + |nonce| <= k < 16 ==> counter[k] == 0
  {
    hide SizeCode;
    Fill(counter, 0, 16);
    counter[0] := SizeCode(|nonce|);
    Put(counter, 1, nonce);
  }

  method PutFlags(buf: array<bv8>, assocLen: nat, macLen: nat, nonceLen: nat)
    requires buf.Length >= 16 && nonceLen <= 15
    modifies buf
    ensures buf[..] == old(buf[..])[0 := FirstFlags(assocLen, macLen, nonceLen)]
  {
    hide MacCode, SizeCode;
    buf[0] := (MacCode(macLen) << 3) | SizeCode(nonceLen);
    if assocLen > 0 {
      buf[0] := buf[0] + 0x40;
    }
  }

  method PrepareFirstBlock(buf: array<bv8>, assocLen: nat, payloadLen: nat, macLen: nat, nonce: seq<bv8>)
    requires buf.Length >= 16 && |nonce| <= 15
    modifies buf
    ensures buf[..] == Splice(old(buf[..]), 0, FirstBlock(nonce, assocLen, payloadLen, macLen))
  {
    hide FirstFlags, Splice;
    ghost var was, flags := buf[..], FirstFlags(assocLen, macLen, |nonce|);
    PutFlags(buf, assocLen, macLen, |nonce|);
    SpliceOne(was, 0, flags);
    Put(buf, 1, nonce);
    SpliceNext(was, 0, [flags], nonce);
    Fill(buf, 1 + |nonce|, 15 - |nonce|);
    SpliceNext(was, 0, [flags] + nonce, Zeros(15 - |nonce|));
    ghost var b := [flags] + nonce + Zeros(15 - |nonce|);
    buf[15] := (payloadLen % 256) as bv8;
    buf[14] := (payloadLen / 256 % 256) as bv8;
    SpliceUpdate(was, b, 15, buf[15]);
    SpliceUpdate(was, b[15 := buf[15]], 14, buf[14]);
  }

  lemma SpliceOne(s: seq<bv8>, at: nat, b: bv8)
    requires at < |s|
    ensures Splice(s, at, [b]) == s[at := b]
  {}

  lemma SpliceUpdate(s: seq<bv8>, p: seq<bv8>, k: nat, b: bv8)
    requires k < |p| <= |s|
    ensures Splice(s, 0, p[k := b]) == Splice(s, 0, p)[k := b]
  {}

  lemma SameRemainder(end: nat, n: nat)
    requires end % 16 == 0
    ensures (end + n) % 16 == n % 16
  {
    var k, j := end / 16, n / 16;
    assert end + n == 16 * (k + j) + n % 16;
  }

  // The two formatting steps write from end on and move it to the next block boundary.
  method FormatAssoc(buf: array<bv8>, end: nat, assoc: seq<bv8>) returns (end': nat)
    requires end % 16 == 0 && end + |AssocPart(assoc)| <= buf.Length
    modifies buf
    ensures end' == end + |AssocPart(assoc)|
    ensures buf[..] == Splice(old(buf[..]), end, AssocPart(assoc))
  {
    hide Splice;
    ghost var was := buf[..];
    var head := [(|assoc| / 256 % 256) as bv8, (|assoc| % 256) as bv8];
    Put(buf, end, head);
    Put(buf, end + 2, assoc);
    SpliceNext(was, end, head, assoc);
    end' := end + 2 + |assoc|;
    SameRemainder(end, 2 + |assoc|);
    var pad := 16 - end' % 16;
    Fill(buf, end', pad);
    SpliceNext(was, end, head + assoc, Zeros(pad));
    end' := end' + pad;
  }

  method FormatPayload(buf: array<bv8>, end: nat, payload: seq<bv8>) returns (end': nat)
    requires end % 16 == 0 && end + |PayloadPart(payload)| <= buf.Length
    modifies buf
    ensures end' == end + |PayloadPart(payload)|
    ensures buf[..] == Splice(old(buf[..]), end, PayloadPart(payload))
  {
    hide Splice;
    ghost var was := buf[..];
    Put(buf, end, payload);
    end' := end + |payload|;
    SameRemainder(end, |payload|);
    var pad := end' % 16;
    if pad != 0 {
      pad := 16 - pad;
    }
    Fill(buf, end', pad);
    SpliceNext(was, end, payload, Zeros(pad));
    end' := end' + pad;
  }

  // Formatting and chaining, as both directions do them.
  method ComputeMac(payload: seq<bv8>, assoc: seq<bv8>, nonce: seq<bv8>, macLen: nat, mac: array<bv8>,
    size: nat, w: seq<bv32>, keysize: int)
    requires Keyed(w, keysize) && |nonce| <= 15 && mac.Length == 16
    requires |Formatted(nonce, assoc, payload, macLen)| <= size
    modifies mac
    ensures mac[..] == Mac(Encryption(w, keysize), nonce, assoc, payload, macLen)
  {
    hide CbcMac, Encryption, Splice, FirstBlock, AssocPart, PayloadPart, Zeros;
    var buf := new bv8[size];
    ghost var was, b, a, p := buf[..], FirstBlock(nonce, |assoc|, |payload|, macLen), AssocPart(assoc), PayloadPart(payload);
    PrepareFirstBlock(buf, |assoc|, |payload|, macLen, nonce);
    var end := FormatAssoc(buf, 16, assoc);
    SpliceNext(was, 0, b, a);
    end := FormatPayload(buf, end, payload);
    SpliceNext(was, 0, b + a, p);
    SpliceAgain(was, b + a + p, b + a + p);
    assert buf[..end] == buf[..][..end];
    var ok := EncryptCbcMac(buf, end, mac, w, keysize, Zeros(16));
  }

  predicate LegalLengths(macLen: nat, nonceLen: nat, assocLen: nat) {
    macLen in {4, 6, 8, 10, 12, 14, 16} && 7 <= nonceLen <= 13 && assocLen <= 32768
  }

  // The schedule both directions prepare.
  method KeyWords(key: seq<bv8>, keysize: int) returns (w: seq<bv32>)
    requires LegalSize(keysize) && keysize / 8 <= |key|
    ensures w == Schedule(key, keysize) && Keyed(w, keysize)
  {
    hide Schedule;
    var words := new bv32[60];
    KeySetup(key, words, keysize);
    w := words[..4 * EncryptRounds(keysize) + 4];
  }

  function Cipher(key: seq<bv8>, keysize: int): Block -> Block
    requires LegalSize(keysize) && keysize / 8 <= |key|
  {
    Encryption(Schedule(key, keysize), keysize)
  }

  // The counter for the tag, and the one for the payload.
  method StartCounters(nonce: seq<bv8>, macLen: nat) returns (counter: array<bv8>, tempIv: array<bv8>)
    requires |nonce| <= 15
    ensures fresh(counter) && fresh(tempIv) && counter != tempIv
    ensures counter[..] == FirstCounter(nonce) && tempIv[..] == PayloadCounter(nonce, macLen)
  {
    hide FirstCounter, Splice, Next;
    counter, tempIv := new bv8[16], new bv8[16];
    PrepareFirstCounter(counter, nonce);
    SpliceAll(tempIv[..], counter[..]);
    Put(tempIv, 0, counter[..]);
    IncrementIv(tempIv, 15 - macLen);
  }

  // Two neighbouring pieces of a buffer are rewritten one after the other.
  lemma RewriteInTwo(s: seq<bv8>, p: seq<bv8>, q: seq<bv8>, p': seq<bv8>, q': seq<bv8>)
    requires |p| == |p'| && |q| == |q'| && |p| + |q| <= |s|
    ensures var s1 := Splice(s, 0, p + q);
            var s2 := Splice(s1, 0, p');
            && s1[0..0 + |p|] == p && s2[|p|..|p| + |q|] == q
            && Splice(s2, |p|, q') == Splice(s, 0, p' + q')
  {
    hide Splice;
    SpliceWithin(s, 0, p + q, 0, p');
    SpliceEnds(p, q, p', q);
    SpliceWithin(s, 0, p' + q, |p|, q');
    SpliceEnds(p', q, p', q');
  }

  lemma SpliceEnds(p: seq<bv8>, q: seq<bv8>, p': seq<bv8>, q': seq<bv8>)
    requires |p| == |p'| && |q| == |q'|
    ensures Splice(p + q, 0, p') == p' + q && Splice(p + q, |p|, q') == p + q'
    ensures (p + q)[0..0 + |p|] == p && (p + q)[|p|..|p| + |q|] == q
  {}

  method EncryptCcm(payload: seq<bv8>, assoc: seq<bv8>, nonce: seq<bv8>, output: array<bv8>, macLen: nat,
    key: seq<bv8>, keysize: int) returns (ok: bool, outLen: nat)
    requires LegalSize(keysize) && keysize / 8 <= |key|
    requires LegalLengths(macLen, |nonce|, |assoc|) ==> |payload| + macLen <= output.Length && !Outgrows(|assoc|, |payload|)
    modifies output
    ensures ok == LegalLengths(macLen, |nonce|, |assoc|)
    ensures !ok ==> output[..] == old(output[..])
    ensures ok ==> outLen == |payload| + macLen
    ensures ok ==> output[..] == Splice(old(output[..]), 0, Seal(Cipher(key, keysize), nonce, assoc, payload, macLen))
  {
    hide Splice, Ctr, Mac, FirstCounter, PayloadCounter, Encryption, Schedule;
    if macLen != 4 && macLen != 6 && macLen != 8 && macLen != 10 && macLen != 12 && macLen != 14 && macLen != 16 {
      return false, 0;
    }
    if |nonce| < 7 || |nonce| > 13 {
      return false, 0;
    }
    if |assoc| > 32768 {
      return false, 0;
    }
    ghost var was, n := output[..], |payload|;
    var w := KeyWords(key, keysize);
    ghost var e := Cipher(key, keysize);
    var mac := new bv8[16];
    ScratchFits(nonce, assoc, payload, macLen, 0);
    ComputeMac(payload, assoc, nonce, macLen, mac, |payload| + |assoc| + 48, w, keysize);
    var counter, tempIv := StartCounters(nonce, macLen);
    Put(output, 0, payload);
    Put(output, |payload|, mac[..macLen]);
    SpliceNext(was, 0, payload, mac[..macLen]);
    RewriteInTwo(was, payload, mac[..macLen], Ctr(e, tempIv[..], payload), Ctr(e, counter[..], mac[..macLen]));
    EncryptCtr(output, 0, |payload|, output, 0, w, keysize, tempIv[..]);
    EncryptCtr(output, |payload|, macLen, output, |payload|, w, keysize, counter[..]);
    return true, |payload| + macLen;
  }

  // The tag is decrypted and compared; if it differs the text is wiped.
  method CheckTag(plaintext: array<bv8>, n: nat, mac: array<bv8>, macLen: nat, counter: array<bv8>,
    assoc: seq<bv8>, nonce: seq<bv8>, w: seq<bv32>, keysize: int) returns (macAuth: bool)
    requires Keyed(w, keysize) && |nonce| <= 15 && n <= plaintext.Length && (macLen > 0 || !Outgrows(|assoc|, n))
    requires mac.Length == 16 == counter.Length && macLen <= 16 && mac != plaintext
    modifies mac, plaintext
    ensures var e := Encryption(w, keysize);
            macAuth == (Ctr(e, old(counter[..]), old(mac[..macLen]))
                        == Mac(e, nonce, assoc, old(plaintext[..n]), macLen)[..macLen])
    ensures plaintext[..] == if macAuth then old(plaintext[..]) else Splice(old(plaintext[..]), 0, Zeros(n))
  {
    hide Splice, Ctr, Mac, Encryption, Zeros;
    ghost var e, cipher := Encryption(w, keysize), mac[..macLen];
    SpliceSame(mac[..], 0, macLen);
    SpliceAgain(mac[..], cipher, Ctr(e, counter[..], cipher));
    assert mac[0..0 + macLen] == cipher == mac[..][0..0 + macLen];
    EncryptCtr(mac, 0, macLen, mac, 0, w, keysize, counter[..]);
    SpliceAgain(old(mac[..]), Ctr(e, old(counter[..]), cipher), Ctr(e, old(counter[..]), cipher));
    assert mac[..macLen] == mac[..][..macLen];
    var macBuf := new bv8[16];
    ScratchFits(nonce, assoc, plaintext[..n], macLen, macLen);
    ComputeMac(plaintext[..n], assoc, nonce, macLen, macBuf, |assoc| + n + macLen + 48, w, keysize);
    if mac[..macLen] == macBuf[..macLen] {
      macAuth := true;
    } else {
      macAuth := false;
      Fill(plaintext, 0, n);
    }
  }

  // mac_auth may be absent, and then nothing is checked.
  method DecryptCcm(ciphertext: seq<bv8>, assoc: seq<bv8>, nonce: seq<bv8>, plaintext: array<bv8>, macLen: nat,
    check: bool, key: seq<bv8>, keysize: int) returns (ok: bool, plaintextLen: nat, macAuth: bool)
    requires LegalSize(keysize) && keysize / 8 <= |key|
    requires |nonce| <= 15 && macLen <= 16 && |ciphertext| - macLen <= plaintext.Length
    requires check && macLen == 0 ==> !Outgrows(|assoc|, |ciphertext|)
    modifies plaintext
    ensures ok == (macLen < |ciphertext|)
    ensures !ok ==> plaintext[..] == old(plaintext[..])
    ensures ok ==> plaintextLen == |ciphertext| - macLen
    ensures ok && !check ==> plaintext[..] == Splice(old(plaintext[..]), 0,
                               Ctr(Cipher(key, keysize), PayloadCounter(nonce, macLen), ciphertext[..plaintextLen]))
    ensures ok && check ==>
              var r := Open(Cipher(key, keysize), nonce, assoc, ciphertext, macLen);
              macAuth == r.auth && plaintext[..] == Splice(old(plaintext[..]), 0, r.plain)
  {
    hide Splice, Ctr, Mac, FirstCounter, PayloadCounter, Encryption, Schedule;
    macAuth := false;
    if |ciphertext| <= macLen {
      return false, 0, false;
    }
    ghost var was, e := plaintext[..], Cipher(key, keysize);
    var w := KeyWords(key, keysize);
    plaintextLen := |ciphertext| - macLen;
    var n := plaintextLen;
    Put(plaintext, 0, ciphertext[..n]);
    var mac := new bv8[16];
    ghost var mac0 := mac[..];
    Put(mac, 0, ciphertext[n..]);
    var counter, tempIv := StartCounters(nonce, macLen);
    ghost var p := Ctr(e, tempIv[..], ciphertext[..n]);
    SpliceAgain(was, ciphertext[..n], p);
    EncryptCtr(plaintext, 0, n, plaintext, 0, w, keysize, tempIv[..]);
    if check {
      SpliceAgain(mac0, ciphertext[n..], ciphertext[n..]);
      SpliceAgain(was, p, Zeros(n));
      macAuth := CheckTag(plaintext, n, mac, macLen, counter, assoc, nonce, w, keysize);
    }
    ok := true;
  }

  lemma SpliceAgain(s: seq<bv8>, p: seq<bv8>, q: seq<bv8>)
    requires |p| == |q| <= |s|
    ensures Splice(s, 0, p)[0..0 + |p|] == p && Splice(s, 0, p)[..|p|] == p
    ensures Splice(Splice(s, 0, p), 0, q) == Splice(s, 0, q)
  {}
}
