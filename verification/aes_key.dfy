/** The key expansion (FIPS 197, section 5.2), on words of four bytes. */
module AesKey {
  import opened AesTables
  import opened AesCipher
  import opened Aes

  const RCON: seq<bv32> := [
    0x01000000, 0x02000000, 0x04000000, 0x08000000, 0x10000000, 0x20000000, 0x40000000, 0x80000000,
    0x1b000000, 0x36000000, 0x6c000000, 0xd8000000, 0xab000000, 0x4d000000, 0x9a000000]

  function SubWord(w: bv32): bv32 {
    (Sbox((w & 0xff) as bv8) as bv32)
    + ((Sbox(((w >> 8) & 0xff) as bv8) as bv32) << 8)
    + ((Sbox(((w >> 16) & 0xff) as bv8) as bv32) << 16)
    + ((Sbox((w >> 24) as bv8) as bv32) << 24)
  }

  function RotWord(w: bv32): bv32 { (w << 8) | (w >> 24) }

  function Pack(a: bv8, b: bv8, c: bv8, d: bv8): bv32 {
    ((a as bv32) << 24) | ((b as bv32) << 16) | ((c as bv32) << 8) | (d as bv32)
  }

  // The word arithmetic, byte by byte.
  lemma BytesOfPack(a: bv8, b: bv8, c: bv8, d: bv8)
    ensures Bytes(Pack(a, b, c, d)) == Col(a, b, c, d)
  {}

  lemma BytesOfSum(a: bv8, b: bv8, c: bv8, d: bv8)
    ensures (d as bv32) + ((c as bv32) << 8) + ((b as bv32) << 16) + ((a as bv32) << 24) == Pack(a, b, c, d)
  {}

  lemma BytesOfSubWord(w: bv32)
    ensures Bytes(SubWord(w)) == SubCol(Bytes(w))
  {
    hide Sbox, Pack;
    var x := Bytes(w);
    BytesOfSum(Sbox(x.a), Sbox(x.b), Sbox(x.c), Sbox(x.d));
    BytesOfPack(Sbox(x.a), Sbox(x.b), Sbox(x.c), Sbox(x.d));
  }

  lemma BytesOfRotWord(w: bv32)
    ensures Bytes(RotWord(w)) == Col(Bytes(w).b, Bytes(w).c, Bytes(w).d, Bytes(w).a)
  {}

  lemma BytesOfXor(v: bv32, w: bv32)
    ensures Bytes(v ^ w) == Xor(Bytes(v), Bytes(w))
  {}

  // The powers of x that the round constants hold.
  function PowerOfX(i: nat): bv8 { if i == 0 then 1 else Xtime(PowerOfX(i - 1)) }

  lemma FirstPowersOfX()
    ensures PowerOfX(0) == 0x01 && PowerOfX(1) == 0x02 && PowerOfX(2) == 0x04 && PowerOfX(3) == 0x08
    ensures PowerOfX(4) == 0x10 && PowerOfX(5) == 0x20 && PowerOfX(6) == 0x40 && PowerOfX(7) == 0x80
  {
    assert PowerOfX(1) == 0x02;
    assert PowerOfX(3) == 0x08;
    assert PowerOfX(5) == 0x20;
  }

  lemma LaterPowersOfX()
    ensures PowerOfX(8) == 0x1b && PowerOfX(9) == 0x36 && PowerOfX(10) == 0x6c && PowerOfX(11) == 0xd8
    ensures PowerOfX(12) == 0xab && PowerOfX(13) == 0x4d && PowerOfX(14) == 0x9a
  {
    FirstPowersOfX();
    assert PowerOfX(9) == 0x36;
    assert PowerOfX(11) == 0xd8;
    assert PowerOfX(13) == 0x4d;
  }

  lemma BytesOfConstant(b: bv8)
    ensures Bytes((b as bv32) << 24) == Col(b, 0, 0, 0)
  {}

  lemma RconHoldsPowers(i: nat)
    requires i < 15
    ensures Bytes(RCON[i]) == Col(PowerOfX(i), 0, 0, 0)
  {
    hide PowerOfX, Bytes;
    FirstPowersOfX();
    LaterPowersOfX();
    BytesOfConstant(PowerOfX(i));
  }

  // Key lengths in words.
  predicate Legal(nk: nat) { nk == 4 || nk == 6 || nk == 8 }

  function RotCol(c: Col): Col { Col(c.b, c.c, c.d, c.a) }

  // What is added to the word nk places back: section 5.2 numbers the round constants from one.
  function Temp(prev: Col, nk: nat, i: nat): Col
    requires Legal(nk) && nk <= i
  {
    if i % nk == 0 then Xor(SubCol(RotCol(prev)), Col(PowerOfX(i / nk - 1), 0, 0, 0))
    else if nk > 6 && i % nk == 4 then SubCol(prev)
    else prev
  }

  // Word i of the schedule.
  function KeyWord(key: seq<bv8>, nk: nat, i: nat): Col
    requires Legal(nk) && 4 * nk <= |key|
  {
    if i < nk then
      Col(key[4 * i], key[4 * i + 1], key[4 * i + 2], key[4 * i + 3])
    else
      Xor(KeyWord(key, nk, i - nk), Temp(KeyWord(key, nk, i - 1), nk, i))
  }

  // The table is indexed by (i - 1) / nk.
  lemma RconIndex(i: nat, nk: nat)
    requires Legal(nk)
    requires 0 < i < 60 && i % nk == 0
    ensures 0 <= (i - 1) / nk == i / nk - 1 < 15
  {}

  // One step of the second loop.
  method NextWord(w: array<bv32>, i: nat, nk: nat) returns (temp: bv32)
    requires Legal(nk)
    requires nk <= i < w.Length && i < 60
    ensures Bytes(temp) == Temp(Bytes(w[i - 1]), nk, i)
  {
    hide Bytes, SubWord, RotWord, Xor, SubCol, PowerOfX;
    temp := w[i - 1];
    if i % nk == 0 {
      RconIndex(i, nk);
      BytesOfRotWord(temp);
      BytesOfSubWord(RotWord(temp));
      RconHoldsPowers((i - 1) / nk);
      BytesOfXor(SubWord(RotWord(temp)), RCON[(i - 1) / nk]);
      temp := SubWord(RotWord(temp)) ^ RCON[(i - 1) / nk];
    } else if nk > 6 && i % nk == 4 {
      BytesOfSubWord(temp);
      temp := SubWord(temp);
    }
  }

  // The first n words are those of the standard.
  ghost predicate Holds(w: seq<bv32>, n: nat, key: seq<bv8>, nk: nat)
    requires Legal(nk) && 4 * nk <= |key|
  {
    n <= |w| && forall i :: 0 <= i < n ==> Bytes(w[i]) == KeyWord(key, nk, i)
  }

  lemma HoldsNone(w: seq<bv32>, key: seq<bv8>, nk: nat)
    requires Legal(nk) && 4 * nk <= |key|
    ensures Holds(w, 0, key, nk)
  {}

  lemma HoldsAt(w: seq<bv32>, n: nat, key: seq<bv8>, nk: nat, i: nat)
    requires Legal(nk) && 4 * nk <= |key| && Holds(w, n, key, nk) && i < n
    ensures i < |w| && Bytes(w[i]) == KeyWord(key, nk, i)
  {}

  lemma StepByKey(w: seq<bv32>, i: nat, key: seq<bv8>, nk: nat)
    requires Legal(nk) && 4 * nk <= |key| && i < nk && i < |w| && Holds(w, i, key, nk)
    ensures Holds(w[i := Pack(key[4 * i], key[4 * i + 1], key[4 * i + 2], key[4 * i + 3])], i + 1, key, nk)
  {
    hide Bytes, Pack;
    BytesOfPack(key[4 * i], key[4 * i + 1], key[4 * i + 2], key[4 * i + 3]);
  }

  lemma NextKeyWord(key: seq<bv8>, nk: nat, i: nat)
    requires Legal(nk) && 4 * nk <= |key| && nk <= i
    ensures KeyWord(key, nk, i) == Xor(KeyWord(key, nk, i - nk), Temp(KeyWord(key, nk, i - 1), nk, i))
  {}

  lemma StepByXor(w: seq<bv32>, i: nat, key: seq<bv8>, nk: nat, temp: bv32)
    requires Legal(nk) && 4 * nk <= |key| && nk <= i < |w| && Holds(w, i, key, nk)
    requires Bytes(temp) == Temp(KeyWord(key, nk, i - 1), nk, i)
    ensures Holds(w[i := w[i - nk] ^ temp], i + 1, key, nk)
  {
    hide Bytes, Temp, Xor, KeyWord;
    BytesOfXor(w[i - nk], temp);
    NextKeyWord(key, nk, i);
  }

  // The two loops.
  method Expand(key: seq<bv8>, w: array<bv32>, nk: nat, nr: nat)
    requires Legal(nk)
    requires 10 <= nr <= 14 && 4 * nk <= |key| && 4 * nr + 4 <= w.Length
    modifies w
    ensures Holds(w[..], 4 * nr + 4, key, nk)
    ensures forall i :: 4 * nr + 4 <= i < w.Length ==> w[i] == old(w[i])
  {
    hide Holds, Bytes, Pack, Temp;
    var i := 0;
    HoldsNone(w[..], key, nk);
    while i < nk
      invariant i <= nk && Holds(w[..], i, key, nk)
      invariant forall k :: i <= k < w.Length ==> w[k] == old(w[k])
    {
      StepByKey(w[..], i, key, nk);
      ghost var before := w[..];
      w[i] := Pack(key[4 * i], key[4 * i + 1], key[4 * i + 2], key[4 * i + 3]);
      assert w[..] == before[i := w[i]];
      i := i + 1;
    }
    while i < 4 * (nr + 1)
      invariant nk <= i <= 4 * nr + 4 && Holds(w[..], i, key, nk)
      invariant forall k :: i <= k < w.Length ==> w[k] == old(w[k])
    {
      var temp := NextWord(w, i, nk);
      HoldsAt(w[..], i, key, nk, i - 1);
      StepByXor(w[..], i, key, nk, temp);
      ghost var before := w[..];
      w[i] := w[i - nk] ^ temp;
      assert w[..] == before[i := w[i]];
      i := i + 1;
    }
  }

  predicate LegalSize(keysize: int) { keysize == 128 || keysize == 192 || keysize == 256 }

  // The schedule of the standard, as machine words.
  function Schedule(key: seq<bv8>, keysize: int): (w: seq<bv32>)
    requires LegalSize(keysize) && keysize / 8 <= |key|
    ensures |w| == 4 * EncryptRounds(keysize) + 4
  {
    seq(4 * EncryptRounds(keysize) + 4, i requires 0 <= i => Packed(KeyWord(key, keysize / 32, i)))
  }

  function Packed(c: Col): bv32 { Pack(c.a, c.b, c.c, c.d) }

  lemma PackedBytes(w: bv32)
    ensures Packed(Bytes(w)) == w
  {}

  function ByteOf(c: Col, j: nat): bv8 { if j == 0 then c.a else if j == 1 then c.b else if j == 2 then c.c else c.d }

  // Byte j of word i.
  function ScheduleByte(key: seq<bv8>, keysize: int, i: nat, j: nat): bv8
    requires LegalSize(keysize) && keysize / 8 <= |key| && i < 4 * EncryptRounds(keysize) + 4
  {
    ByteOf(Bytes(Schedule(key, keysize)[i]), j)
  }

  lemma ScheduleByteIs(key: seq<bv8>, keysize: int, nk: nat, i: nat, j: nat)
    requires Legal(nk) && keysize == 32 * nk && 4 * nk <= |key| && i < 4 * EncryptRounds(keysize) + 4
    ensures ScheduleByte(key, keysize, i, j) == ByteOf(KeyWord(key, nk, i), j)
  {
    hide Bytes, Pack, KeyWord;
    var c := KeyWord(key, nk, i);
    BytesOfPack(c.a, c.b, c.c, c.d);
  }

  lemma ByteOfXor(x: Col, y: Col, j: nat)
    ensures ByteOf(Xor(x, y), j) == Add(ByteOf(x, j), ByteOf(y, j))
  {}

  lemma ByteOfSub(c: Col, j: nat)
    requires j < 4
    ensures ByteOf(SubCol(c), j) == Sbox(ByteOf(c, j))
    ensures ByteOf(RotCol(c), j) == ByteOf(c, (j + 1) % 4)
  {
    hide Sbox;
  }

  lemma ByteOfFirst(b: bv8, j: nat)
    requires j < 4
    ensures ByteOf(Col(b, 0, 0, 0), j) == if j == 0 then b else 0
  {}

  lemma ByteOfTemp(prev: Col, nk: nat, i: nat, j: nat)
    requires Legal(nk) && nk <= i && j < 4
    ensures ByteOf(Temp(prev, nk, i), j)
         == if i % nk == 0 then Add(Sbox(ByteOf(prev, (j + 1) % 4)), if j == 0 then PowerOfX(i / nk - 1) else 0)
            else if nk == 8 && i % nk == 4 then Sbox(ByteOf(prev, j))
            else ByteOf(prev, j)
  {
    hide Sbox, PowerOfX, Xor, SubCol, RotCol, ByteOf, Add;
    ByteOfSub(prev, j);
    ByteOfSub(RotCol(prev), j);
    if i % nk == 0 {
      ByteOfXor(SubCol(RotCol(prev)), Col(PowerOfX(i / nk - 1), 0, 0, 0), j);
      ByteOfFirst(PowerOfX(i / nk - 1), j);
    }
  }

  // The first words are the key, ...
  lemma ScheduleStarts(key: seq<bv8>, keysize: int, nk: nat, i: nat, j: nat)
    requires Legal(nk) && keysize == 32 * nk && 4 * nk <= |key| && i < nk && j < 4
    ensures ScheduleByte(key, keysize, i, j) == key[4 * i + j]
  {
    hide ScheduleByte;
    ScheduleByteIs(key, keysize, nk, i, j);
  }

  // ... and a later one is the word nk places back plus the word before; that is rotated by one byte and substituted,
  // and a round constant is added to its first byte, if nk divides its number, and for nk = 8 just substituted
  // halfway between (FIPS 197, section 5.2).
  lemma ScheduleGoesOn(key: seq<bv8>, keysize: int, nk: nat, i: nat, j: nat)
    requires Legal(nk) && keysize == 32 * nk && 4 * nk <= |key| && nk <= i < 4 * EncryptRounds(keysize) + 4 && j < 4
    ensures ScheduleByte(key, keysize, i, j) == Add(ScheduleByte(key, keysize, i - nk, j),
              if i % nk == 0 then
                Add(Sbox(ScheduleByte(key, keysize, i - 1, (j + 1) % 4)), if j == 0 then PowerOfX(i / nk - 1) else 0)
              else if nk == 8 && i % nk == 4 then Sbox(ScheduleByte(key, keysize, i - 1, j))
              else ScheduleByte(key, keysize, i - 1, j))
  {
    hide ScheduleByte, KeyWord, Temp, Xor, ByteOf, Add, Sbox, PowerOfX;
    ScheduleByteIs(key, keysize, nk, i, j);
    ScheduleByteIs(key, keysize, nk, i - nk, j);
    ScheduleByteIs(key, keysize, nk, i - 1, j);
    ScheduleByteIs(key, keysize, nk, i - 1, (j + 1) % 4);
    NextKeyWord(key, nk, i);
    ByteOfXor(KeyWord(key, nk, i - nk), Temp(KeyWord(key, nk, i - 1), nk, i), j);
    ByteOfTemp(KeyWord(key, nk, i - 1), nk, i, j);
  }

  lemma HoldsSchedule(w: seq<bv32>, key: seq<bv8>, keysize: int)
    requires LegalSize(keysize) && keysize / 8 <= |key|
    requires Holds(w, 4 * EncryptRounds(keysize) + 4, key, keysize / 32)
    ensures w[..4 * EncryptRounds(keysize) + 4] == Schedule(key, keysize)
  {
    hide Packed, KeyWord, Bytes;
    forall i | 0 <= i < 4 * EncryptRounds(keysize) + 4
      ensures w[i] == Packed(KeyWord(key, keysize / 32, i))
    {
      PackedBytes(w[i]);
    }
  }

  // The words come out as in the standard; for any other key size nothing is written.
  method KeySetup(key: seq<bv8>, w: array<bv32>, keysize: int)
    requires LegalSize(keysize) ==> keysize / 8 <= |key| && 4 * EncryptRounds(keysize) + 4 <= w.Length
    modifies w
    ensures !LegalSize(keysize) ==> w[..] == old(w[..])
    ensures LegalSize(keysize) ==>
              && w[..4 * EncryptRounds(keysize) + 4] == Schedule(key, keysize)
              && w[4 * EncryptRounds(keysize) + 4..] == old(w[4 * EncryptRounds(keysize) + 4..])
  {
    hide Holds, Schedule;
    match keysize {
      case 128 =>
        Expand(key, w, 4, 10);
        HoldsSchedule(w[..], key, 128);
      case 192 =>
        Expand(key, w, 6, 12);
        HoldsSchedule(w[..], key, 192);
      case 256 =>
        Expand(key, w, 8, 14);
        HoldsSchedule(w[..], key, 256);
      case _ =>
    }
  }
}
