/** The padded packets of tserver: tq_crypto and tq_crypto_aes (padding as in section 6.3 of RFC 5652). */
module TqCrypto {
  import opened AesKey
  import opened AesModes
  import opened AesCcm

  const CONTENT_SIZE := 2048
  const AES_KEY_SIZE := 128

  const AES_IV: Block := [
    0x4d, 0x4e, 0x41, 0x40, 0x32, 0x30, 0x31, 0x37, 0x47, 0x4f, 0x48, 0x45, 0x41, 0x44, 0x21, 0x21]

  const AES_KEY: Block := [
    0x31, 0x32, 0x33, 0x34, 0x35, 0x36, 0x37, 0x38, 0x31, 0x32, 0x33, 0x34, 0x35, 0x35, 0x37, 0x38]

  datatype Mode = Encrypting | Decrypting

  function Pad(m: seq<bv8>): (p: seq<bv8>)
    ensures |p| % 16 == 0 && |m| < |p| <= |m| + 16
  {
    var k := BlockPad(|m|);
    m + seq(k, (_: int) => k as bv8)
  }

  // A last byte that is no padding length leaves everything in place.
  function Unpad(p: seq<bv8>): (m: seq<bv8>)
    requires |p| >= 16
  {
    var k := p[|p| - 1] as nat;
    if 0 < k <= 16 then p[..|p| - k] else p
  }

  lemma ByteOfNat(k: nat)
    requires k <= 16
    ensures (k as bv8) as nat == k
  {}

  // Section 6.3 of RFC 5652: every byte that is added holds the number of bytes added.
  lemma PadBytes(m: seq<bv8>)
    ensures Pad(m)[..|m|] == m
    ensures forall i :: |m| <= i < |Pad(m)| ==> Pad(m)[i] as nat == |Pad(m)| - |m|
  {
    ByteOfNat(BlockPad(|m|));
  }

  lemma UnpadUndoesPad(m: seq<bv8>)
    ensures |Pad(m)| >= 16 && Unpad(Pad(m)) == m
  {
    ByteOfNat(BlockPad(|m|));
  }

  // What a packet turns into, for a block cipher e with inverse d.
  function Encrypted(e: Block -> Block, m: seq<bv8>): seq<bv8> { CbcEncrypt(e, AES_IV, Pad(m)) }

  function Decrypted(d: Block -> Block, c: seq<bv8>): seq<bv8> {
    if |c| % 16 != 0 then Zeros(|c|)
    else if c == [] then []
    else Unpad(CbcDecrypt(d, AES_IV, c))
  }

  // Content and length come back.
  lemma DecryptedUndoesEncrypted(e: Block -> Block, d: Block -> Block, m: seq<bv8>)
    requires Inverts(d, e)
    ensures Decrypted(d, Encrypted(e, m)) == m
  {
    hide CbcEncrypt, CbcDecrypt, Unpad, Pad;
    UnpadUndoesPad(m);
    CbcRoundTrip(e, d, AES_IV, Pad(m));
  }

  // Every packet that leaves a byte free fits when padded.
  lemma PaddedFits(m: seq<bv8>)
    ensures |Pad(m)| <= CONTENT_SIZE <==> |m| < CONTENT_SIZE
  {}

  lemma LastOfZeros(n: nat)
    requires n > 0
    ensures Zeros(n)[n - 1] as nat == 0
  {}

  method EncryptInput(input: array<bv8>, w: seq<bv32>, ghost m: seq<bv8>) returns (result: seq<bv8>)
    requires Keyed(w, AES_KEY_SIZE) && input[..] == Pad(m)
    ensures result == Encrypted(Encryption(w, AES_KEY_SIZE), m)
  {
    hide Splice, CbcEncrypt, Encryption, Zeros, Pad;
    var srcLen := input.Length;
    var output := new bv8[srcLen];
    SpliceAll(output[..], Zeros(srcLen));
    Fill(output, 0, srcLen);
    assert input[..srcLen] == input[..];
    SpliceAll(Zeros(srcLen), CbcEncrypt(Encryption(w, AES_KEY_SIZE), AES_IV, Pad(m)));
    var ok := EncryptCbc(input, srcLen, output, w, AES_KEY_SIZE, AES_IV);
    result := output[..];
  }

  method DecryptInput(input: array<bv8>, w: seq<bv32>) returns (result: seq<bv8>)
    requires Keyed(w, AES_KEY_SIZE) && input.Length > 0
    ensures result == Decrypted(Decryption(w, AES_KEY_SIZE), input[..]) && |result| <= input.Length
  {
    hide Splice, CbcDecrypt, Decryption, Zeros;
    var srcLen := input.Length;
    var output := new bv8[srcLen];
    SpliceAll(output[..], Zeros(srcLen));
    Fill(output, 0, srcLen);
    assert input[..srcLen] == input[..];
    if srcLen % 16 == 0 {
      SpliceAll(Zeros(srcLen), CbcDecrypt(Decryption(w, AES_KEY_SIZE), AES_IV, input[..]));
    } else {
      LastOfZeros(srcLen);
    }
    var ok := DecryptCbc(input, srcLen, output, w, AES_KEY_SIZE, AES_IV);
    var paddingLen := output[srcLen - 1] as nat;
    if 0 < paddingLen <= 16 {
      srcLen := srcLen - paddingLen;
    }
    result := output[..srcLen];
  }

  lemma EncryptedFits(e: Block -> Block, m: seq<bv8>)
    requires |m| < CONTENT_SIZE
    ensures |Encrypted(e, m)| <= CONTENT_SIZE
  {
    hide CbcEncrypt;
    PaddedFits(m);
  }

  class Content {
    var len: nat
    const con: array<bv8>

    constructor ()
      ensures fresh(con) && con.Length == CONTENT_SIZE && len == 0
    {
      con, len := new bv8[CONTENT_SIZE], 0;
    }

    ghost predicate Valid()
      reads this
    {
      con.Length == CONTENT_SIZE && len <= CONTENT_SIZE
    }

    // The packet, and zeros in the rest of the buffer.
    ghost predicate Holds(m: seq<bv8>)
      reads this, con
    {
      con.Length == CONTENT_SIZE && len == |m| <= CONTENT_SIZE && con[..] == Splice(Zeros(CONTENT_SIZE), 0, m)
    }

    method Set(m: seq<bv8>)
      requires con.Length == CONTENT_SIZE && |m| <= CONTENT_SIZE
      modifies this, con
      ensures Holds(m)
    {
      hide Splice, Zeros;
      SpliceAll(con[..], Zeros(CONTENT_SIZE));
      Fill(con, 0, CONTENT_SIZE);
      assert con[..] == Zeros(CONTENT_SIZE);
      len := |m|;
      Put(con, 0, m);
    }

    // The packet, padded for encryption.
    method Prepare(mode: Mode) returns (input: array<bv8>)
      requires Valid()
      ensures fresh(input) && input[..] == if mode == Encrypting then Pad(con[..len]) else con[..len]
    {
      hide Splice, Zeros;
      ghost var m := con[..len];
      var paddingLen := if mode == Encrypting then 16 - len % 16 else 0;
      var srcLen := len + paddingLen;
      input := new bv8[srcLen];
      SpliceAll(input[..], Zeros(srcLen));
      Fill(input, 0, srcLen);
      CopyBytes(con, 0, input, 0, len);
      var padding := seq(paddingLen, (_: int) => paddingLen as bv8);
      if paddingLen > 0 {
        SpliceNext(Zeros(srcLen), 0, m, padding);
        Put(input, len, padding);
      }
      SpliceAll(Zeros(srcLen), if mode == Encrypting then m + padding else m);
    }

    method Crypto(mode: Mode)
      requires Valid() && (mode == Encrypting ==> len < CONTENT_SIZE) && (mode == Decrypting ==> len > 0)
      modifies this, con
      ensures var w := Schedule(AES_KEY, AES_KEY_SIZE);
              Holds(if mode == Encrypting then Encrypted(Encryption(w, AES_KEY_SIZE), old(con[..len]))
                    else Decrypted(Decryption(w, AES_KEY_SIZE), old(con[..len])))
    {
      hide Encrypted, Decrypted, Encryption, Decryption, Schedule;
      var input := Prepare(mode);
      var w := KeyWords(AES_KEY, AES_KEY_SIZE);
      var result;
      if mode == Encrypting {
        result := EncryptInput(input, w, con[..len]);
        EncryptedFits(Encryption(w, AES_KEY_SIZE), con[..len]);
      } else {
        result := DecryptInput(input, w);
      }
      Set(result);
    }

    method CryptoAes(data: seq<bv8>, mode: Mode)
      requires con.Length == CONTENT_SIZE && |data| <= CONTENT_SIZE
      requires (mode == Encrypting ==> |data| < CONTENT_SIZE) && (mode == Decrypting ==> data != [])
      modifies this, con
      ensures var w := Schedule(AES_KEY, AES_KEY_SIZE);
              Holds(if mode == Encrypting then Encrypted(Encryption(w, AES_KEY_SIZE), data)
                    else Decrypted(Decryption(w, AES_KEY_SIZE), data))
    {
      hide Encrypted, Decrypted, Encryption, Decryption, Schedule;
      Set(data);
      assert con[..len] == data;
      Crypto(mode);
    }
  }

  // Under the built-in key and vector, decrypting what was encrypted restores every packet of up to 2047 bytes.
  lemma PacketRoundTrip(m: seq<bv8>)
    requires |m| < CONTENT_SIZE
    ensures var w := Schedule(AES_KEY, AES_KEY_SIZE);
            var c := Encrypted(Encryption(w, AES_KEY_SIZE), m);
            && 0 < |c| <= CONTENT_SIZE && |c| % 16 == 0
            && Decrypted(Decryption(w, AES_KEY_SIZE), c) == m
  {
    hide Encryption, Decryption, Schedule;
    var w := Schedule(AES_KEY, AES_KEY_SIZE);
    DecryptionInverts(w, AES_KEY_SIZE);
    DecryptedUndoesEncrypted(Encryption(w, AES_KEY_SIZE), Decryption(w, AES_KEY_SIZE), m);
    PaddedFits(m);
  }
}
