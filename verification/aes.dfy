/** Encryption and decryption of one block, with the rounds unrolled as in tserver/tq_aes.c. */
module Aes {
  import opened AesCipher
  import opened AesBlock

  // The two sides do not test the key size in the same way.
  function EncryptRounds(keysize: int): (nr: nat)
    ensures 10 <= nr <= 14
  {
    if keysize == 128 then 10 else if keysize == 192 then 12 else 14
  }

  function DecryptRounds(keysize: int): (nr: nat)
    ensures 10 <= nr <= 14
  {
    if keysize > 192 then 14 else if keysize > 128 then 12 else 10
  }

  lemma RoundsAgree(keysize: int)
    ensures EncryptRounds(keysize) == DecryptRounds(keysize) <==> keysize == 128 || keysize == 192 || keysize > 192
  {}

  // FIPS 197, figure 4: six rounds more than there are key words.
  lemma RoundsByKey(keysize: int)
    requires keysize == 128 || keysize == 192 || keysize == 256
    ensures EncryptRounds(keysize) == DecryptRounds(keysize) == keysize / 32 + 6
  {}

  function EncryptBlock(w: seq<bv32>, keysize: int, b: seq<bv8>): (r: seq<bv8>)
    requires 4 * EncryptRounds(keysize) + 4 <= |w| && |b| == 16
    ensures |r| == 16
  {
    Store(Cipher(w, EncryptRounds(keysize), Load(b)))
  }

  function DecryptBlock(w: seq<bv32>, keysize: int, b: seq<bv8>): (r: seq<bv8>)
    requires 4 * DecryptRounds(keysize) + 4 <= |w| && |b| == 16
    ensures |r| == 16
  {
    Store(InvCipher(w, DecryptRounds(keysize), Load(b)))
  }

  // Decryption inverts encryption for every block, every schedule and every legal key size.
  lemma DecryptUndoesEncrypt(w: seq<bv32>, keysize: int, b: seq<bv8>)
    requires keysize == 128 || keysize == 192 || keysize > 192
    requires 4 * EncryptRounds(keysize) + 4 <= |w| && |b| == 16
    ensures DecryptBlock(w, keysize, EncryptBlock(w, keysize, b)) == b
  {
    hide Cipher, InvCipher, Load, Store;
    var nr := EncryptRounds(keysize);
    RoundsAgree(keysize);
    StoreLoads(Cipher(w, nr, Load(b)));
    CipherUndone(w, nr, Load(b));
    LoadStores(b);
  }

  method Encrypt(input: array<bv8>, output: array<bv8>, w: seq<bv32>, keysize: int)
    requires input.Length == 16 == output.Length && 4 * EncryptRounds(keysize) + 4 <= |w|
    modifies output
    ensures output[..] == EncryptBlock(w, keysize, old(input[..]))
  {
    hide Grid, Load, Store, AddKey, Round, Sub, Shift;
    var state := new bv8[4, 4];
    LoadState(input, state);
    ghost var s := Load(input[..]);
    AddRoundKey(state, w, 0);
    EncryptRound(state, w, 1);
    EncryptRound(state, w, 2);
    EncryptRound(state, w, 3);
    EncryptRound(state, w, 4);
    EncryptRound(state, w, 5);
    EncryptRound(state, w, 6);
    EncryptRound(state, w, 7);
    EncryptRound(state, w, 8);
    EncryptRound(state, w, 9);
    assert Grid(state) == Rounds(s, w, 9) by {
      NineRounds(s, w);
    }
    if keysize != 128 {
      EncryptRound(state, w, 10);
      EncryptRound(state, w, 11);
      assert Grid(state) == Rounds(s, w, 11) by {
        assert Rounds(s, w, 10) == Round(Rounds(s, w, 9), w, 10);
      }
      if keysize != 192 {
        EncryptRound(state, w, 12);
        EncryptRound(state, w, 13);
        assert Grid(state) == Rounds(s, w, 13) by {
          assert Rounds(s, w, 12) == Round(Rounds(s, w, 11), w, 12);
        }
        SubBytes(state);
        ShiftRows(state);
        AddRoundKey(state, w, 14);
      } else {
        SubBytes(state);
        ShiftRows(state);
        AddRoundKey(state, w, 12);
      }
    } else {
      SubBytes(state);
      ShiftRows(state);
      AddRoundKey(state, w, 10);
    }
    StoreState(state, output);
  }

  lemma NineRounds(s: State, w: seq<bv32>)
    requires 40 <= |w|
    ensures Rounds(s, w, 9) == Round(Round(Round(Round(Round(Round(Round(Round(Round(AddKey(s, w, 0),
              w, 1), w, 2), w, 3), w, 4), w, 5), w, 6), w, 7), w, 8), w, 9)
  {
    hide Round, AddKey;
    assert Rounds(s, w, 1) == Round(AddKey(s, w, 0), w, 1);
    assert Rounds(s, w, 2) == Round(Rounds(s, w, 1), w, 2);
    assert Rounds(s, w, 4) == Round(Rounds(s, w, 3), w, 4);
    assert Rounds(s, w, 6) == Round(Rounds(s, w, 5), w, 6);
    assert Rounds(s, w, 8) == Round(Rounds(s, w, 7), w, 8);
  }

  method Decrypt(input: array<bv8>, output: array<bv8>, w: seq<bv32>, keysize: int)
    requires input.Length == 16 == output.Length && 4 * DecryptRounds(keysize) + 4 <= |w|
    modifies output
    ensures output[..] == DecryptBlock(w, keysize, old(input[..]))
  {
    hide Grid, Load, Store, AddKey, InvRound, InvSub, InvShift;
    var state := new bv8[4, 4];
    LoadState(input, state);
    ghost var nr := DecryptRounds(keysize);
    ghost var s := AddKey(Load(input[..]), w, nr);
    if keysize > 128 {
      if keysize > 192 {
        AddRoundKey(state, w, 14);
        DecryptRound(state, w, 13);
        DecryptRound(state, w, 12);
        assert Grid(state) == InvRounds(s, w, 13, 12) by {
          assert InvRounds(s, w, 13, 13) == InvRound(s, w, 13);
        }
      } else {
        AddRoundKey(state, w, 12);
      }
      DecryptRound(state, w, 11);
      DecryptRound(state, w, 10);
      assert Grid(state) == InvRounds(s, w, nr - 1, 10) by {
        assert InvRounds(s, w, nr - 1, 11) == InvRound(InvRounds(s, w, nr - 1, 12), w, 11);
      }
    } else {
      AddRoundKey(state, w, 10);
    }
    assert Grid(state) == InvRounds(s, w, nr - 1, 10);
    DecryptRound(state, w, 9);
    DecryptRound(state, w, 8);
    DecryptRound(state, w, 7);
    DecryptRound(state, w, 6);
    DecryptRound(state, w, 5);
    DecryptRound(state, w, 4);
    DecryptRound(state, w, 3);
    DecryptRound(state, w, 2);
    DecryptRound(state, w, 1);
    assert Grid(state) == InvRounds(s, w, nr - 1, 1) by {
      NineInvRounds(s, w, nr - 1);
    }
    InvShiftRows(state);
    InvSubBytes(state);
    AddRoundKey(state, w, 0);
    StoreState(state, output);
  }

  lemma NineInvRounds(s: State, w: seq<bv32>, hi: nat)
    requires 9 <= hi && 4 * hi + 4 <= |w|
    ensures InvRounds(s, w, hi, 1) == InvRound(InvRound(InvRound(InvRound(InvRound(InvRound(InvRound(InvRound(InvRound(
              InvRounds(s, w, hi, 10), w, 9), w, 8), w, 7), w, 6), w, 5), w, 4), w, 3), w, 2), w, 1)
  {
    hide InvRound;
    assert InvRounds(s, w, hi, 8) == InvRound(InvRounds(s, w, hi, 9), w, 8);
    assert InvRounds(s, w, hi, 6) == InvRound(InvRounds(s, w, hi, 7), w, 6);
    assert InvRounds(s, w, hi, 4) == InvRound(InvRounds(s, w, hi, 5), w, 4);
    assert InvRounds(s, w, hi, 2) == InvRound(InvRounds(s, w, hi, 3), w, 2);
  }
}
