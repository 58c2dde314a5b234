/** The counter and CTR mode (NIST SP 800-38A, section 6.5 and appendix B.1). */
module AesCtr {
  import opened AesTables
  import opened Aes
  import opened AesModes

  // A byte string as a big-endian number.
  function Value(s: seq<bv8>): nat {
    if s == [] then 0 else 256 * Value(s[..|s| - 1]) + s[|s| - 1] as nat
  }

  function Power(n: nat): (p: nat)
    ensures p > 0
  {
    if n == 0 then 1 else 256 * Power(n - 1)
  }

  lemma {:induction false} ValueBound(s: seq<bv8>)
    ensures Value(s) < Power(|s|)
  {
    if s != [] {
      ValueBound(s[..|s| - 1]);
    }
  }

  // The first bytes count most.
  lemma {:induction false} ValueJoins(s: seq<bv8>, t: seq<bv8>)
    ensures Value(s + t) == Value(s) * Power(|t|) + Value(t)
  {
    if t == [] {
      assert s + t == s;
    } else {
      var init, last := t[..|t| - 1], t[|t| - 1];
      ValueJoins(s, init);
      assert (s + t)[..|s + t| - 1] == s + init;
      OneDigitMore(Value(s), Power(|init|), Value(init), last as nat);
    }
  }

  lemma OneDigitMore(v: nat, p: nat, x: nat, d: nat)
    ensures 256 * (v * p + x) + d == v * (256 * p) + (256 * x + d)
  {}

  // The last byte is counted up; a byte that wraps to zero carries into the one before, and out of the first it is lost.
  function Next(s: seq<bv8>): (r: seq<bv8>)
    ensures |r| == |s|
  {
    if s == [] then []
    else if s[|s| - 1] + 1 != 0 then s[..|s| - 1] + [s[|s| - 1] + 1]
    else Next(s[..|s| - 1]) + [0]
  }

  lemma ByteNext(b: bv8)
    ensures (b + 1) as nat == if b + 1 == 0 then 0 else b as nat + 1
    ensures b + 1 == 0 ==> b as nat == 255
  {}

  // Next adds one modulo 256^|s|.
  lemma {:induction false} NextAddsOne(s: seq<bv8>)
    ensures Value(Next(s)) == if Value(s) + 1 == Power(|s|) then 0 else Value(s) + 1
  {
    if s != [] {
      var init, last := s[..|s| - 1], s[|s| - 1];
      ByteNext(last);
      ValueBound(init);
      NextAddsOne(init);
      var r := Next(s);
      if last + 1 != 0 {
        assert r[..|r| - 1] == init && r[|r| - 1] == last + 1;
      } else {
        assert r[..|r| - 1] == Next(init) && r[|r| - 1] == 0;
      }
    }
  }

  // The number determines the bytes.
  lemma {:induction false} ValueDetermines(s: seq<bv8>, t: seq<bv8>)
    requires |s| == |t| && Value(s) == Value(t)
    ensures s == t
  {
    if s != [] {
      var n := |s| - 1;
      SameDigit(s[n] as nat, t[n] as nat, Value(s[..n]), Value(t[..n]));
      ByteIs(s[n], t[n]);
      ValueDetermines(s[..n], t[..n]);
      assert s == s[..n] + [s[n]] && t == t[..n] + [t[n]];
    }
  }

  lemma ByteIs(a: bv8, b: bv8)
    requires a as nat == b as nat
    ensures a == b
  {}

  lemma SameDigit(a: nat, b: nat, x: nat, y: nat)
    requires 256 * x + a == 256 * y + b && a < 256 && b < 256
    ensures a == b && x == y
  {}

  lemma {:induction false} NextEndsInZeros(t: seq<bv8>, k: nat)
    requires k <= |t| && forall i :: k <= i < |t| ==> t[i] + 1 == 0
    ensures Next(t) == Next(t[..k]) + seq(|t| - k, (_: int) => 0 as bv8)
    decreases |t| - k
  {
    if k == |t| {
      assert t[..k] == t;
    } else {
      NextEndsInZeros(t, k + 1);
      assert t[..k + 1][..k] == t[..k];
    }
  }

  // The last c bytes are counted up as one number; nothing happens for c <= 0.
  method IncrementIv(iv: array<bv8>, c: int)
    requires iv.Length == 16 && c <= 16
    modifies iv
    ensures iv[..] == if c <= 0 then old(iv[..]) else old(iv[..])[..16 - c] + Next(old(iv[..])[16 - c..])
  {
    var idx := 15;
    ghost var was := iv[..];
    while idx >= 16 - c
      invariant 15 - c <= idx <= 15 || (c < 0 && idx == 15)
      invariant c > 0 ==> idx >= 16 - c
      invariant forall i :: 0 <= i <= idx ==> iv[i] == was[i]
      invariant forall i :: idx < i < 16 ==> iv[i] == 0 && was[i] + 1 == 0
    {
      iv[idx] := iv[idx] + 1;
      if iv[idx] != 0 || idx == 16 - c {
        Counted(was, iv[..], c, idx);
        break;
      }
      idx := idx - 1;
    }
  }

  lemma Counted(was: seq<bv8>, iv: seq<bv8>, c: int, idx: nat)
    requires |was| == |iv| == 16 && 0 < c <= 16 && 16 - c <= idx < 16
    requires forall i :: 0 <= i < idx ==> iv[i] == was[i]
    requires forall i :: idx < i < 16 ==> iv[i] == 0 && was[i] + 1 == 0
    requires iv[idx] == was[idx] + 1 && (iv[idx] != 0 || idx == 16 - c)
    ensures iv == was[..16 - c] + Next(was[16 - c..])
  {
    var t, k := was[16 - c..], idx + 1 - (16 - c);
    NextEndsInZeros(t, k);
    assert t[..k][..k - 1] == t[..k - 1];
    assert Next(t[..k]) == t[..k - 1] + [iv[idx]];
  }

  // The i-th counter block.
  function CounterAt(iv: Block, i: nat): Block { if i == 0 then iv else Next(CounterAt(iv, i - 1)) }

  lemma {:induction false} CounterAdds(iv: Block, i: nat) returns (k: nat)
    ensures Value(iv) + i == Value(CounterAt(iv, i)) + k * Power(16)
  {
    hide Value, Next, Power;
    k := 0;
    if i > 0 {
      k := CounterAdds(iv, i - 1);
      NextAddsOne(CounterAt(iv, i - 1));
      if Value(CounterAt(iv, i - 1)) + 1 == Power(16) {
        k := k + 1;
      }
    }
  }

  // Its number is that of the initial block plus i, modulo 256^16.
  lemma CounterValue(iv: Block, i: nat)
    ensures Value(CounterAt(iv, i)) == (Value(iv) + i) % Power(16)
  {
    hide Value, Power, CounterAt;
    ValueBound(CounterAt(iv, i));
    var k := CounterAdds(iv, i);
    ModIs(Value(iv) + i, Power(16), k, Value(CounterAt(iv, i)));
  }

  // There is only one such block.
  lemma CounterIs(iv: Block, i: nat, b: Block)
    requires Value(b) == (Value(iv) + i) % Power(16)
    ensures b == CounterAt(iv, i)
  {
    hide Value, Power, CounterAt;
    CounterValue(iv, i);
    ValueDetermines(b, CounterAt(iv, i));
  }

  lemma Multiple(d: int, m: int)
    requires d >= 1 && m > 0
    ensures d * m >= m
  {}

  lemma Distributes(k: int, q: int, m: int)
    ensures (k - q) * m == k * m - q * m
  {}

  lemma RemainderIsUnique(q: int, s: int, k: int, r: int, m: int)
    requires m > 0 && q * m + s == k * m + r && 0 <= r < m && 0 <= s < m
    ensures r == s
  {
    Distributes(k, q, m);
    Distributes(q, k, m);
    if q < k {
      Multiple(k - q, m);
    } else if k < q {
      Multiple(q - k, m);
    }
  }

  lemma Division(x: int, m: int)
    requires m > 0
    ensures x == (x / m) * m + x % m && 0 <= x % m < m
  {}

  lemma ModIs(x: nat, m: nat, k: nat, r: nat)
    requires x == r + k * m && r < m
    ensures x % m == r
  {
    Division(x, m);
    RemainderIsUnique(x / m, x % m, k, r, m);
  }

  // Byte i is added to byte i % 16 of the i / 16-th encrypted counter.
  function Ctr(e: Block -> Block, iv: Block, p: seq<bv8>): (c: seq<bv8>)
    ensures |c| == |p|
  {
    seq(|p|, i requires 0 <= i < |p| => Add(p[i], e(CounterAt(iv, i / 16))[i % 16]))
  }

  // Section 6.5 of NIST SP 800-38A, without counting: byte i of the output is byte i of the input added to byte i mod 16
  // of the encryption of that one block whose number is the initial one plus i / 16, modulo 2^128.
  lemma CtrByte(e: Block -> Block, iv: Block, p: seq<bv8>, i: nat, t: Block)
    requires i < |p| && Value(t) == (Value(iv) + i / 16) % Power(16)
    ensures Ctr(e, iv, p)[i] == Add(p[i], e(t)[i % 16])
  {
    hide Value, Power, CounterAt;
    CounterIs(iv, i / 16, t);
  }

  lemma CtrUndoes(e: Block -> Block, iv: Block, p: seq<bv8>)
    ensures Ctr(e, iv, Ctr(e, iv, p)) == p
  {
    hide CounterAt;
    var c := Ctr(e, iv, p);
    assert forall i :: 0 <= i < |p| ==> c[i] == Add(p[i], e(CounterAt(iv, i / 16))[i % 16]);
  }

  lemma CtrStep(e: Block -> Block, iv: Block, p: seq<bv8>, out: seq<bv8>, j: nat, len: nat)
    requires 16 * j + len <= |p| && len <= 16 && out == Ctr(e, iv, p)[..16 * j] + p[16 * j..]
    ensures Splice(out, 16 * j, XorSeq(out[16 * j..16 * j + len], e(CounterAt(iv, j))))
         == Ctr(e, iv, p)[..16 * j + len] + p[16 * j + len..]
  {
    hide CounterAt, Add;
    var n := 16 * j;
    var out' := Splice(out, n, XorSeq(out[n..n + len], e(CounterAt(iv, j))));
    forall i | n <= i < n + len
      ensures out'[i] == Ctr(e, iv, p)[i]
    {
      assert i / 16 == j && i % 16 == i - n;
    }
  }

  // The buffer was, with Ctr applied to n of the bytes p that stand from at on.
  ghost predicate CtrAt(e: Block -> Block, iv: Block, p: seq<bv8>, was: seq<bv8>, at: nat, buf: seq<bv8>, n: nat) {
    at + |p| <= |was| && n <= |p| && buf == Splice(was, at, Ctr(e, iv, p)[..n] + p[n..])
  }

  lemma CtrAdvance(e: Block -> Block, iv: Block, p: seq<bv8>, was: seq<bv8>, at: nat, buf: seq<bv8>, j: nat, len: nat)
    requires CtrAt(e, iv, p, was, at, buf, 16 * j) && 16 * j + len <= |p| && len <= 16
    ensures var n := 16 * j;
            CtrAt(e, iv, p, was, at,
              Splice(buf, at + n, XorSeq(buf[at + n..at + n + len], e(CounterAt(iv, j)))), n + len)
  {
    hide CounterAt, Add, Ctr, Splice, XorSeq;
    var n := 16 * j;
    var out, b := Ctr(e, iv, p)[..n] + p[n..], e(CounterAt(iv, j));
    CtrStep(e, iv, p, out, j, len);
    SpliceWithin(was, at, out, n, XorSeq(out[n..n + len], b));
  }

  // Encrypting a counter and adding it to some bytes of the output.
  method AddCounter(ivBuf: array<bv8>, outBuf: array<bv8>, output: array<bv8>, at: nat, len: nat, w: seq<bv32>, keysize: int)
    requires Keyed(w, keysize) && ivBuf.Length == 16 == outBuf.Length && len <= 16 && at + len <= output.Length
    requires outBuf != output && ivBuf != output && ivBuf != outBuf
    modifies outBuf, output
    ensures output[..] == Splice(old(output[..]), at,
              XorSeq(old(output[at..at + len]), Encryption(w, keysize)(ivBuf[..])))
  {
    hide EncryptBlock, XorSeq, Splice;
    Encrypt(ivBuf, outBuf, w, keysize);
    XorBuf(outBuf, output, at, len);
  }

  // The source copies only between different buffers.
  method PlaceInput(input: array<bv8>, from: nat, len: nat, output: array<bv8>, at: nat)
    requires from + len <= input.Length && at + len <= output.Length && (input != output || from == at)
    modifies output
    ensures output[..] == Splice(old(output[..]), at, old(input[from..from + len]))
  {
    hide Splice;
    if input != output {
      CopyBytes(input, from, output, at, len);
    } else {
      SpliceSame(output[..], at, len);
    }
  }

  // Both buffers are addressed from an offset, as the source passes pointers into them;
  // they may be one and the same place.
  method EncryptCtr(input: array<bv8>, from: nat, len: nat, output: array<bv8>, at: nat,
    w: seq<bv32>, keysize: int, iv: Block)
    requires Keyed(w, keysize) && from + len <= input.Length && at + len <= output.Length
    requires input != output || from == at
    modifies output
    ensures output[..] == Splice(old(output[..]), at, Ctr(Encryption(w, keysize), iv, old(input[from..from + len])))
  {
    hide Ctr, CtrAt, EncryptBlock, Encryption, XorSeq, Splice, CounterAt, Keyed, Next;
    ghost var e, p, was := Encryption(w, keysize), input[from..from + len], output[..];
    PlaceInput(input, from, len, output, at);
    var ivBuf, outBuf := new bv8[16](i requires 0 <= i < 16 => iv[i]), new bv8[16];
    assert ivBuf[..] == iv;
    var idx := 0;
    ghost var j := 0;
    CtrStart(e, iv, p, was, at);
    if len > 16 {
      while idx < len - 16
        invariant idx == 16 * j < len
        invariant ivBuf[..] == CounterAt(iv, j)
        invariant CtrAt(e, iv, p, was, at, output[..], idx)
        decreases len - idx
      {
        CtrAdvance(e, iv, p, was, at, output[..], j, 16);
        AddCounter(ivBuf, outBuf, output, at + idx, 16, w, keysize);
        NextCounter(iv, j, ivBuf[..]);
        IncrementIv(ivBuf, 16);
        idx, j := idx + 16, j + 1;
      }
    }
    CtrAdvance(e, iv, p, was, at, output[..], j, len - idx);
    AddCounter(ivBuf, outBuf, output, at + idx, len - idx, w, keysize);
    CtrEnd(e, iv, p, was, at, output[..]);
  }

  lemma SpliceSame(s: seq<bv8>, at: nat, len: nat)
    requires at + len <= |s|
    ensures Splice(s, at, s[at..at + len]) == s
  {}

  lemma CtrStart(e: Block -> Block, iv: Block, p: seq<bv8>, was: seq<bv8>, at: nat)
    requires at + |p| <= |was|
    ensures CtrAt(e, iv, p, was, at, Splice(was, at, p), 0) && CounterAt(iv, 0) == iv
  {
    assert Ctr(e, iv, p)[..0] + p[0..] == p;
  }

  lemma CtrEnd(e: Block -> Block, iv: Block, p: seq<bv8>, was: seq<bv8>, at: nat, buf: seq<bv8>)
    requires CtrAt(e, iv, p, was, at, buf, |p|)
    ensures buf == Splice(was, at, Ctr(e, iv, p))
  {
    assert Ctr(e, iv, p)[..|p|] + p[|p|..] == Ctr(e, iv, p);
  }

  lemma NextCounter(iv: Block, i: nat, b: seq<bv8>)
    requires b == CounterAt(iv, i)
    ensures Next(b) == CounterAt(iv, i + 1) && b[..0] + Next(b[0..]) == Next(b)
  {
    assert b[0..] == b;
  }

  // Writing inside a spliced part.
  lemma SpliceWithin(s: seq<bv8>, at: nat, out: seq<bv8>, n: nat, b: seq<bv8>)
    requires at + |out| <= |s| && n + |b| <= |out|
    ensures Splice(s, at, out)[at + n..at + n + |b|] == out[n..n + |b|]
    ensures Splice(Splice(s, at, out), at + n, b) == Splice(s, at, Splice(out, n, b))
  {}
}
