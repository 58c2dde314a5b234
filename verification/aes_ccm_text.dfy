/** What the text that CCM authenticates says: nonce, associated data and payload can be read off it, so no two triples
    give the same text; and which counters the payload and the tag are encrypted with. */
module AesCcmText {
  import AesTables
  import opened AesModes
  import opened AesCtr
  import opened AesCcm

  lemma SmallByte(k: nat)
    requires k < 8
    ensures k as bv8 < 8 && (k as bv8) as nat == k
  {
    assert k == 0 || k == 1 || k == 2 || k == 3 || k == 4 || k == 5 || k == 6 || k == 7;
  }

  lemma ByteIsNat(k: nat)
    requires k < 256
    ensures (k as bv8) as int == k
  {
    assert k % 256 == k;
  }

  // The flags tell the width of the nonce, whether there is associated data, and the width of the tag.
  lemma FlagsTell(assocLen: nat, macLen: nat, nonceLen: nat)
    requires 7 <= nonceLen <= 13
    ensures var f := FirstFlags(assocLen, macLen, nonceLen);
            && (f & 7) as nat == 14 - nonceLen && (f & 0x40 != 0 <==> assocLen > 0)
            && (2 <= macLen <= 17 ==> ((f >> 3) & 7) as nat == (macLen - 2) / 2)
  {
    CodeIsSmall(macLen);
    SmallByte(14 - nonceLen);
    FlagFields(MacCode(macLen), SizeCode(nonceLen), assocLen > 0);
  }

  lemma CodeIsSmall(macLen: nat)
    ensures MacCode(macLen) < 8 && (2 <= macLen <= 17 ==> MacCode(macLen) as nat == (macLen - 2) / 2)
  {
    if macLen >= 2 {
      SmallByte((macLen - 2) / 2 % 8);
    }
  }

  // Two bytes as a number, high one first.
  function Short(hi: bv8, lo: bv8): nat { 256 * (hi as nat) + lo as nat }

  lemma ShortIs(n: nat)
    ensures Short((n / 256 % 256) as bv8, (n % 256) as bv8) == n % 65536
  {
    ByteIsNat(n / 256 % 256);
    ByteIsNat(n % 256);
    TwoDigits(n);
  }

  lemma TwoDigits(n: nat)
    ensures 256 * (n / 256 % 256) + n % 256 == n % 65536
  {}

  // The parts of the text and their places: the flags, the nonce and the length of the payload in the first block; then
  // the length of the associated data, the data and zeros up to a block boundary; then the payload and zeros.
  lemma FirstBlockSays(nonce: seq<bv8>, assocLen: nat, payloadLen: nat, macLen: nat)
    requires 7 <= |nonce| <= 13
    ensures var b := FirstBlock(nonce, assocLen, payloadLen, macLen);
            && b[0] == FirstFlags(assocLen, macLen, |nonce|) && b[1..1 + |nonce|] == nonce
            && Short(b[14], b[15]) == payloadLen % 65536
  {
    hide FirstFlags, Short;
    ShortIs(payloadLen);
  }

  lemma AssocSays(assoc: seq<bv8>)
    ensures var a := AssocPart(assoc);
            && |a| == |assoc| + 2 + BlockPad(|assoc| + 2)
            && Short(a[0], a[1]) == |assoc| % 65536 && a[2..2 + |assoc|] == assoc
            && forall k :: 2 + |assoc| <= k < |a| ==> a[k] == 0
  {
    hide Short;
    ShortIs(|assoc|);
  }

  lemma PayloadSays(payload: seq<bv8>)
    ensures var p := PayloadPart(payload);
            && |payload| <= |p| < |payload| + 16 && p[..|payload|] == payload
            && forall k :: |payload| <= k < |p| ==> p[k] == 0
  {}

  lemma FormattedParts(nonce: seq<bv8>, assoc: seq<bv8>, payload: seq<bv8>, macLen: nat)
    requires |nonce| <= 15
    ensures var f, n := Formatted(nonce, assoc, payload, macLen), |AssocPart(assoc)|;
            && |f| >= 16 + n
            && f[..16] == FirstBlock(nonce, |assoc|, |payload|, macLen)
            && f[16..16 + n] == AssocPart(assoc) && f[16 + n..] == PayloadPart(payload)
  {
    hide FirstBlock, AssocPart, PayloadPart;
  }

  ghost predicate Says(f: seq<bv8>, nonce: seq<bv8>, assoc: seq<bv8>, payload: seq<bv8>, macLen: nat)
    requires |nonce| <= 15
  {
    var n := 18 + |assoc| + BlockPad(|assoc| + 2);
    && n + |payload| <= |f| < n + |payload| + 16
    && f[0] == FirstFlags(|assoc|, macLen, |nonce|) && f[1..1 + |nonce|] == nonce
    && Short(f[14], f[15]) == |payload| % 65536
    && Short(f[16], f[17]) == |assoc| % 65536 && f[18..18 + |assoc|] == assoc
    && f[n..n + |payload|] == payload
    && forall k :: 18 + |assoc| <= k < n || n + |payload| <= k < |f| ==> f[k] == 0
  }

  lemma FormattedSays(nonce: seq<bv8>, assoc: seq<bv8>, payload: seq<bv8>, macLen: nat)
    requires 7 <= |nonce| <= 13
    ensures Says(Formatted(nonce, assoc, payload, macLen), nonce, assoc, payload, macLen)
  {
    hide FirstBlock, AssocPart, PayloadPart, FirstFlags, Short, Formatted;
    var f := Formatted(nonce, assoc, payload, macLen);
    var b, a, p := FirstBlock(nonce, |assoc|, |payload|, macLen), AssocPart(assoc), PayloadPart(payload);
    FormattedParts(nonce, assoc, payload, macLen);
    FirstBlockSays(nonce, |assoc|, |payload|, macLen);
    AssocSays(assoc);
    PayloadSays(payload);
    SliceOf(f, 0, b, 1, |nonce|);
    SliceOf(f, 16, a, 2, |assoc|);
    SliceOf(f, 16 + |a|, p, 0, |payload|);
    SlicedAt(f, 0, b);
    SlicedAt(f, 16, a);
    SlicedAt(f, 16 + |a|, p);
  }

  lemma SliceOf(f: seq<bv8>, at: nat, p: seq<bv8>, from: nat, len: nat)
    requires at + |p| <= |f| && f[at..at + |p|] == p && from + len <= |p|
    ensures f[at + from..at + from + len] == p[from..from + len]
  {
    SlicedAt(f, at, p);
  }

  lemma SlicedAt(f: seq<bv8>, at: nat, p: seq<bv8>)
    requires at + |p| <= |f| && f[at..at + |p|] == p
    ensures forall k :: at <= k < at + |p| ==> f[k] == p[k - at]
  {
    forall k | at <= k < at + |p| ensures f[k] == p[k - at] {
      assert f[at..at + |p|][k - at] == f[k];
    }
  }

  // Two lengths that agree modulo 2^16 and fill the same number of blocks agree.
  lemma SameLength(m: nat, n: nat, total: nat)
    requires m % 65536 == n % 65536 && m <= total < m + 16 && n <= total < n + 16
    ensures m == n
  {
    assert m == 65536 * (m / 65536) + m % 65536 && n == 65536 * (n / 65536) + n % 65536;
  }

  // Nothing that is authenticated can be changed without changing the text.
  lemma FormattedInjective(nonce: seq<bv8>, assoc: seq<bv8>, payload: seq<bv8>,
    nonce': seq<bv8>, assoc': seq<bv8>, payload': seq<bv8>, macLen: nat)
    requires 7 <= |nonce| <= 13 && 7 <= |nonce'| <= 13 && |assoc| < 65536 && |assoc'| < 65536
    requires Formatted(nonce, assoc, payload, macLen) == Formatted(nonce', assoc', payload', macLen)
    ensures nonce == nonce' && assoc == assoc' && payload == payload'
  {
    hide Says, Formatted;
    var f := Formatted(nonce, assoc, payload, macLen);
    FormattedSays(nonce, assoc, payload, macLen);
    FormattedSays(nonce', assoc', payload', macLen);
    SameNonce(f, nonce, assoc, payload, nonce', assoc', payload', macLen);
    SameAssoc(f, nonce, assoc, payload, nonce', assoc', payload', macLen);
    SamePayload(f, nonce, payload, nonce', payload', assoc, macLen);
  }

  lemma SameNonce(f: seq<bv8>, nonce: seq<bv8>, assoc: seq<bv8>, payload: seq<bv8>,
    nonce': seq<bv8>, assoc': seq<bv8>, payload': seq<bv8>, macLen: nat)
    requires 7 <= |nonce| <= 13 && 7 <= |nonce'| <= 13
    requires Says(f, nonce, assoc, payload, macLen) && Says(f, nonce', assoc', payload', macLen)
    ensures nonce == nonce'
  {
    hide FirstFlags, Short;
    FlagsTell(|assoc|, macLen, |nonce|);
    FlagsTell(|assoc'|, macLen, |nonce'|);
  }

  lemma SameAssoc(f: seq<bv8>, nonce: seq<bv8>, assoc: seq<bv8>, payload: seq<bv8>,
    nonce': seq<bv8>, assoc': seq<bv8>, payload': seq<bv8>, macLen: nat)
    requires |nonce| <= 15 && |nonce'| <= 15 && |assoc| < 65536 && |assoc'| < 65536
    requires Says(f, nonce, assoc, payload, macLen) && Says(f, nonce', assoc', payload', macLen)
    ensures assoc == assoc'
  {
    hide FirstFlags, Short;
  }

  lemma SamePayload(f: seq<bv8>, nonce: seq<bv8>, payload: seq<bv8>, nonce': seq<bv8>, payload': seq<bv8>,
    assoc: seq<bv8>, macLen: nat)
    requires |nonce| <= 15 && |nonce'| <= 15
    requires Says(f, nonce, assoc, payload, macLen) && Says(f, nonce', assoc, payload', macLen)
    ensures payload == payload'
  {
    hide FirstFlags, Short;
    SameLength(|payload|, |payload'|, |f| - 18 - |assoc| - BlockPad(|assoc| + 2));
  }

  // The counter of the tag: the width of the length field less one, the nonce, and zeros.
  lemma FirstCounterSays(nonce: seq<bv8>)
    requires 7 <= |nonce| <= 13
    ensures var c := FirstCounter(nonce);
            && c[0] as nat == 14 - |nonce| && c[1..1 + |nonce|] == nonce && forall k :: 1 + |nonce| <= k < 16 ==> c[k] == 0
  {
    SmallByte(14 - |nonce|);
  }

  lemma EndsInZero(nonce: seq<bv8>)
    requires |nonce| <= 14
    ensures FirstCounter(nonce)[15] == 0
  {}

  lemma BumpedLast(iv: Block, c: nat)
    requires 0 < c <= 16 && iv[15] == 0
    ensures Bumped(iv, c) == iv[..15] + [1]
  {
    var t := iv[16 - c..];
    assert Next(t) == t[..c - 1] + [1];
    assert iv[..16 - c] + t[..c - 1] == iv[..15];
  }

  lemma ValueOfLast(s: seq<bv8>, b: bv8)
    ensures Value(s + [b]) == 256 * Value(s) + b as nat
  {
    assert (s + [b])[..|s|] == s;
  }

  // The payload starts with the next number, unless the tag is 15 or 16 bytes long: then it starts with the same one.
  lemma PayloadCounterIs(nonce: seq<bv8>, macLen: nat)
    requires |nonce| <= 14
    ensures Value(PayloadCounter(nonce, macLen)) == Value(FirstCounter(nonce)) + if macLen < 15 then 1 else 0
  {
    hide FirstCounter, Value, Bumped;
    var iv := FirstCounter(nonce);
    EndsInZero(nonce);
    if macLen < 15 {
      BumpedLast(iv, 15 - macLen);
      assert iv == iv[..15] + [iv[15]];
      ValueOfLast(iv[..15], 0);
      ValueOfLast(iv[..15], 1);
    } else {
      NotBumped(iv, 15 - macLen);
    }
  }

  lemma NotBumped(iv: Block, c: int)
    requires c <= 0
    ensures Bumped(iv, c) == iv
  {}

  // Byte i of what is sealed is byte i of the payload added to byte i mod 16 of the encryption of the block of that number.
  lemma SealedPayload(e: Block -> Block, nonce: seq<bv8>, assoc: seq<bv8>, payload: seq<bv8>, macLen: nat, i: nat, t: Block)
    requires |nonce| <= 14 && macLen <= 16 && i < |payload|
    requires Value(t) == (Value(FirstCounter(nonce)) + (if macLen < 15 then 1 else 0) + i / 16) % Power(16)
    ensures Seal(e, nonce, assoc, payload, macLen)[i] == AesTables.Add(payload[i], e(t)[i % 16])
  {
    hide FirstCounter, PayloadCounter, Value, Power, Mac, Ctr, AesTables.Add;
    PayloadCounterIs(nonce, macLen);
    CtrByte(e, PayloadCounter(nonce, macLen), payload, i, t);
  }

  // Behind it stand the first bytes of the last block of the CBC chain over the formatted text, with zeros as its first
  // value, added to those of the encrypted first counter.
  lemma SealedTag(e: Block -> Block, nonce: seq<bv8>, assoc: seq<bv8>, payload: seq<bv8>, macLen: nat, j: nat)
    requires |nonce| <= 15 && j < macLen <= 16
    ensures var f := Formatted(nonce, assoc, payload, macLen);
            Seal(e, nonce, assoc, payload, macLen)[|payload| + j] ==
              AesTables.Add(Nth(CbcEncrypt(e, Zeros(16), f), |f| / 16 - 1)[j], e(FirstCounter(nonce))[j])
  {
    hide FirstCounter, PayloadCounter, AesTables.Add, CbcEncrypt, CbcMac, Formatted, Zeros;
    var iv, mac := FirstCounter(nonce), Mac(e, nonce, assoc, payload, macLen);
    CbcMacIsLast(e, Zeros(16), Formatted(nonce, assoc, payload, macLen));
    FirstOfCtr(e, iv, mac[..macLen], j);
  }

  lemma FirstOfCtr(e: Block -> Block, iv: Block, p: seq<bv8>, j: nat)
    requires j < |p| <= 16
    ensures Ctr(e, iv, p)[j] == AesTables.Add(p[j], e(iv)[j])
  {
    hide AesTables.Add;
    assert j / 16 == 0 && j % 16 == j && CounterAt(iv, 0) == iv;
  }
}
