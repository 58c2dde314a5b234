/** The context of ltm/md5.c: initialisation, updating by pieces, finalisation. */
module Md5Context {
  import opened MachineWord
  import opened Md5
  import opened Md5Spec

  // A value modulo 2^64 in its two words.
  predicate Counts(count0: nat, count1: nat, n: nat) {
    count0 < WORD && count1 < WORD && count1 * WORD + count0 == 8 * n % (WORD * WORD)
  }

  lemma CountIndex(count0: nat, count1: nat, n: nat)
    requires Counts(count0, count1, n)
    ensures (count0 / 8) % 64 == n % 64
  {
    var q := 8 * n / (WORD * WORD);
    assert 8 * n == q * (WORD * WORD) + count1 * WORD + count0;
    IndexOf(n, q * 0x80_0000_0000_0000 + count1 * 0x80_0000, count0);
  }

  lemma IndexOf(n: nat, j: nat, count0: nat)
    requires 8 * n == 512 * j + count0
    ensures (count0 / 8) % 64 == n % 64
  {
    assert count0 / 8 == n - 64 * j;
  }

  // The carry from the first word, found by comparing, and the high bits of the length.
  function Carried(count0: nat, len: nat): nat {
    var add := 8 * len % WORD;
    if (count0 + add) % WORD < add then 1 else 0
  }

  lemma CountAdds(count0: nat, count1: nat, n: nat, len: nat)
    requires Counts(count0, count1, n) && len < WORD
    ensures Counts((count0 + 8 * len % WORD) % WORD,
              ((count1 + Carried(count0, len)) % WORD + len / 0x2000_0000) % WORD, n + len)
  {
    hide Carried;
    var add, hi, carry := 8 * len % WORD, len / 0x2000_0000, Carried(count0, len);
    LowWord(count0, len);
    var lo, x := (count0 + add) % WORD, count1 + carry + hi;
    assert count1 * WORD + count0 + 8 * len == x * WORD + lo;
    HighWord(x, lo);
    AddMod(8 * n, 8 * len);
    WrapTwice(count1 + carry, hi);
  }

  lemma LowWord(count0: nat, len: nat)
    requires count0 < WORD
    ensures count0 + 8 * len
         == (Carried(count0, len) + len / 0x2000_0000) * WORD + (count0 + 8 * len % WORD) % WORD
  {
    assert 8 * len == (len / 0x2000_0000) * WORD + 8 * len % WORD;
  }

  lemma WrapTwice(a: nat, b: nat)
    ensures (a % WORD + b) % WORD == (a + b) % WORD
  {}

  lemma HighWord(x: nat, lo: nat)
    requires lo < WORD
    ensures (x * WORD + lo) % (WORD * WORD) == (x % WORD) * WORD + lo
  {
    var q := x / WORD;
    assert x * WORD + lo == q * (WORD * WORD) + (x % WORD) * WORD + lo;
  }

  lemma AddMod(a: nat, b: nat)
    ensures (a + b) % (WORD * WORD) == (a % (WORD * WORD) + b) % (WORD * WORD)
  {}

  // The positions at which the block loop of an update tests its guard.
  predicate Visited(index: nat, len: nat, i: nat) {
    64 - index <= len && (if index == 0 then 0 else 64 - index) <= i <= len && (index + i) % 64 == 0
  }

  // The guard is computed in 32 bits. It agrees with the comparison meant at every visited position
  // exactly when index + len stays below 2^32.
  lemma GuardIsExact(index: nat, len: nat)
    requires index < 64 && len < WORD
    ensures (forall i: nat | Visited(index, len, i) :: (i + 63) % WORD < len <==> i + 63 < len) <==> index + len < WORD
  {
    if index + len < WORD {
      forall i: nat | Visited(index, len, i)
        ensures (i + 63) % WORD < len <==> i + 63 < len
      {
        GuardWithin(index, len, i);
      }
    } else {
      GuardWraps(index, len);
    }
  }

  lemma GuardWithin(index: nat, len: nat, i: nat)
    requires index < 64 && index + len < WORD && Visited(index, len, i)
    ensures i + 63 < WORD
  {
    var k := (index + i) / 64;
    assert index + i == 64 * k < WORD;
  }

  // From there on the loop would read past the input.
  lemma GuardWraps(index: nat, len: nat)
    requires index < 64 && len < WORD <= index + len
    ensures Visited(index, len, WORD - index)
    ensures (WORD - index + 63) % WORD < len && WORD - index + 63 >= len
  {}

  // And it comes to that place: until then the guard means what it says and holds, so that the loop goes on by 64.
  lemma GuardReaches(index: nat, len: nat, i: nat)
    requires index < 64 && len < WORD <= index + len && Visited(index, len, i) && i < WORD - index
    ensures (i + 63) % WORD == i + 63 < len
    ensures i + 64 <= WORD - index && Visited(index, len, i + 64)
  {
    var k := (index + i) / 64;
    assert index + i == 64 * k < WORD;
    assert 64 * k + 64 <= WORD;
  }

  // The part of a message that fills blocks, and the rest.
  function Whole(m: seq<bv8>): seq<bv8> { m[..|m| - |m| % 64] }

  function Rest(m: seq<bv8>): seq<bv8> { m[|m| - |m| % 64..] }

  lemma FoldOfWhole(s: Abcd, m: seq<bv8>)
    ensures Fold(s, m) == Fold(s, Whole(m)) && |Whole(m)| % 64 == 0 && |Rest(m)| == |m| % 64
    ensures m == Whole(m) + Rest(m)
  {
    assert m == Whole(m) + Rest(m);
    FoldIgnoresRest(s, Whole(m), Rest(m));
  }

  class Context {
    var state: Abcd
    var count0: nat
    var count1: nat
    const buffer: array<bv8>

    constructor ()
      ensures fresh(buffer) && buffer.Length == 64
    {
      buffer := new bv8[64];
    }

    // The message m has been fed in: its full blocks are folded into the state, the rest waits in the buffer,
    // and the counter holds eight times its length.
    ghost predicate Tracks(m: seq<bv8>)
      reads this, buffer
    {
      buffer.Length == 64 && state == Fold(INITIAL, m) && Counts(count0, count1, |m|)
      && buffer[..|m| % 64] == Rest(m)
    }

    method Init()
      requires buffer.Length == 64
      modifies this
      ensures Tracks([])
    {
      count0, count1 := 0, 0;
      state := Abcd(W(0x67452301), W(0xefcdab89), W(0x98badcfe), W(0x10325476));
    }

    // The transformation gets the four words by value and adds what becomes of them to the state.
    method Transform(a0: Word, b0: Word, c0: Word, d0: Word, block: seq<bv8>)
      requires |block| == 64
      modifies this`state
      ensures state == Added(old(state), Steps(Words(block), Abcd(a0, b0, c0, d0), 0, 64))
    {
      hide Steps, Words, Plus;
      var x := Fetch(block);
      var a, b, c, d := AllRounds(x, a0, b0, c0, d0);
      state := state.(a := Plus(state.a, a));
      state := state.(b := Plus(state.b, b));
      state := state.(c := Plus(state.c, c));
      state := state.(d := Plus(state.d, d));
    }

    method Block(block: seq<bv8>)
      requires |block| == 64
      modifies this`state
      ensures state == Compress(old(state), block)
    {
      hide Steps, Words, Added;
      Transform(state.a, state.b, state.c, state.d, block);
    }

    // memcpy into the buffer.
    method Keep(at: nat, p: seq<bv8>)
      requires buffer.Length == 64 && at + |p| <= 64
      modifies buffer
      ensures buffer[..at] == old(buffer[..at]) && buffer[at..at + |p|] == p
    {
      var i := 0;
      while i < |p|
        invariant i <= |p|
        invariant forall k :: 0 <= k < at ==> buffer[k] == old(buffer[k])
        invariant forall k :: at <= k < at + i ==> buffer[k] == p[k - at]
      {
        buffer[at + i] := p[i];
        i := i + 1;
      }
    }

    method Count(len: nat, ghost n: nat)
      requires len < WORD && Counts(count0, count1, n)
      modifies this`count0, this`count1
      ensures Counts(count0, count1, n + len)
    {
      CountAdds(count0, count1, n, len);
      assert count1 % WORD == count1;
      hide Counts;
      var add := 8 * len % WORD;
      count0 := (count0 + add) % WORD;
      if count0 < add {
        count1 := (count1 + 1) % WORD;
      }
      count1 := (count1 + len / 0x2000_0000) % WORD;
    }

    // The block loop of an update, from position i on; the guard is the 32-bit one.
    method Blocks(input: seq<bv8>, from: nat, ghost m: seq<bv8>) returns (i: nat)
      requires |input| < WORD && |m| % 64 + |input| < WORD && Visited(|m| % 64, |input|, from)
      requires state == Fold(INITIAL, m + input[..from])
      modifies this`state
      ensures from <= i <= |input| < i + 64 && (|m| + i) % 64 == 0
      ensures state == Fold(INITIAL, m + input[..i])
    {
      hide Fold, Compress;
      i := from;
      while (i + 63) % WORD < |input|
        invariant from <= i && Visited(|m| % 64, |input|, i)
        invariant state == Fold(INITIAL, m + input[..i])
        decreases |input| - i
      {
        GuardWithin(|m| % 64, |input|, i);
        NextBlock(m, input, i);
        Block(input[i..i + 64]);
        i := i + 64;
      }
      GuardWithin(|m| % 64, |input|, i);
      SameRemainder(|m|, i);
    }

    method Update(input: seq<bv8>, ghost m: seq<bv8>)
      requires Tracks(m) && |input| < WORD && |m| % 64 + |input| < WORD
      modifies this, buffer
      ensures Tracks(m + input)
    {
      hide Fold, Compress, Counts;
      CountIndex(count0, count1, |m|);
      var index := (count0 / 8) % 64;
      Count(|input|, |m|);
      var partLen, i := 64 - index, 0;
      if |input| >= partLen {
        assert m + input[..0] == m;
        if index != 0 {
          Keep(index, input[..partLen]);
          FillsBlock(m, input, buffer[..]);
          Block(buffer[..]);
          i := partLen;
        }
        i := Blocks(input, i, m);
        AfterBlocks(m, input, i);
        if |input| == i {
          return;
        }
        index := 0;
      } else {
        StillPartial(m, input);
      }
      Keep(index, input[i..]);
    }

    // The counter in its two words, low byte first.
    method SaveCount(ghost n: nat) returns (bits: array<bv8>)
      requires Counts(count0, count1, n)
      ensures fresh(bits) && bits[..] == LengthBytes(n)
    {
      hide Bytes, LengthBytes, WordOf;
      CountWords(count0, count1, n);
      hide Counts;
      bits := new bv8[8];
      var words := [WordOf(count0), WordOf(count1)];
      Encode(words, bits);
      assert bits[..] == bits[4 * 0..4 * 0 + 4] + bits[4 * 1..4 * 1 + 4] == Bytes(words[0]) + Bytes(words[1]);
    }

    method StoreState(digest: array<bv8>)
      requires digest.Length == 16
      modifies digest
      ensures digest[..] == Output(state)
    {
      hide Bytes;
      var words := [state.a, state.b, state.c, state.d];
      Encode(words, digest);
      assert digest[..] == digest[4 * 0..4 * 0 + 4] + digest[4 * 1..4 * 1 + 4]
                           + digest[4 * 2..4 * 2 + 4] + digest[4 * 3..4 * 3 + 4]
                        == Bytes(words[0]) + Bytes(words[1]) + Bytes(words[2]) + Bytes(words[3]);
    }

    // The padding, cut to the length the buffer needs, then the bit count as it was before, then the four words;
    // the context ends up cleared.
    method Final(digest: array<bv8>, ghost m: seq<bv8>)
      requires Tracks(m) && digest.Length == 16 && digest != buffer
      modifies this, buffer, digest
      ensures digest[..] == Digest(m)
      ensures count0 == 0 && count1 == 0 && state == Abcd(W(0), W(0), W(0), W(0))
      ensures forall k :: 0 <= k < 64 ==> buffer[k] == 0
    {
      hide Fold, Counts, LengthBytes, Output, Padding;
      CountIndex(count0, count1, |m|);
      var index := (count0 / 8) % 64;
      var bits := SaveCount(|m|);
      var padLen := (if index < 56 then 56 else 120) - index;
      PaddingIs(|m|, index);
      Update(PADDING[..padLen], m);
      Update(bits[..], m + PADDING[..padLen]);
      StoreState(digest);
      count0, count1, state := 0, 0, Abcd(W(0), W(0), W(0), W(0));
      forall k | 0 <= k < 64 {
        buffer[k] := 0;
      }
    }
  }

  const PADDING: seq<bv8> := [0x80] + seq(63, (_: int) => 0 as bv8)

  lemma CountWords(count0: nat, count1: nat, n: nat)
    requires Counts(count0, count1, n)
    ensures count0 < WORD && count1 < WORD
    ensures LengthBytes(n) == Bytes(WordOf(count0)) + Bytes(WordOf(count1))
  {
    hide Bytes, WordOf;
    SplitWords(8 * n % (WORD * WORD), count0, count1);
  }

  lemma SplitWords(bits: nat, lo: nat, hi: nat)
    requires bits == hi * WORD + lo && lo < WORD && hi < WORD
    ensures bits % WORD == lo && bits / WORD == hi
  {}

  lemma PaddingIs(n: nat, index: nat)
    requires index == n % 64
    ensures PADDING[..(if index < 56 then 56 else 120) - index] == Padding(n)
  {}

  lemma SameRemainder(n: nat, i: nat)
    requires (n % 64 + i) % 64 == 0
    ensures (n + i) % 64 == 0
  {}

  lemma NextBlock(m: seq<bv8>, input: seq<bv8>, i: nat)
    requires (|m| % 64 + i) % 64 == 0 && i + 64 <= |input|
    ensures Compress(Fold(INITIAL, m + input[..i]), input[i..i + 64]) == Fold(INITIAL, m + input[..i + 64])
  {
    hide Fold, Compress;
    SameRemainder(|m|, i);
    FoldAppends(INITIAL, m + input[..i], input[i..i + 64]);
    assert m + input[..i] + input[i..i + 64] == m + input[..i + 64];
  }

  lemma CutAt(b: seq<bv8>, k: nat)
    requires k <= |b|
    ensures b == b[..k] + b[k..]
  {}

  // A partly filled buffer, filled up.
  lemma FillsBlock(m: seq<bv8>, input: seq<bv8>, buffer: seq<bv8>)
    requires |buffer| == 64 && 64 - |m| % 64 <= |input|
    requires buffer[..|m| % 64] == Rest(m) && buffer[|m| % 64..] == input[..64 - |m| % 64]
    ensures Compress(Fold(INITIAL, m), buffer) == Fold(INITIAL, m + input[..64 - |m| % 64])
  {
    hide Fold, Compress, Whole, Rest;
    var k := |m| % 64;
    FoldOfWhole(INITIAL, m);
    CutAt(buffer, k);
    SameJoined(Whole(m), Rest(m), input[..64 - k], m, buffer);
    FoldAppends(INITIAL, Whole(m), buffer);
  }

  lemma SameJoined(w: seq<bv8>, r: seq<bv8>, x: seq<bv8>, m: seq<bv8>, b: seq<bv8>)
    requires m == w + r && b == r + x
    ensures w + b == m + x
  {}

  lemma AfterBlocks(m: seq<bv8>, input: seq<bv8>, i: nat)
    requires i <= |input| < i + 64 && (|m| + i) % 64 == 0
    ensures Fold(INITIAL, m + input) == Fold(INITIAL, m + input[..i])
    ensures |m + input| % 64 == |input| - i && Rest(m + input) == input[i..]
  {
    hide Fold;
    assert m + input == m + input[..i] + input[i..];
    FoldIgnoresRest(INITIAL, m + input[..i], input[i..]);
  }

  lemma StillPartial(m: seq<bv8>, input: seq<bv8>)
    requires |m| % 64 + |input| < 64
    ensures Fold(INITIAL, m + input) == Fold(INITIAL, m)
    ensures |m + input| % 64 == |m| % 64 + |input| && Rest(m + input) == Rest(m) + input
  {
    hide Fold, Whole, Rest;
    NoCarry(|m|, |input|);
    FoldOfWhole(INITIAL, m);
    FoldOfWhole(INITIAL, m + input);
    var w := |m| - |m| % 64;
    SplitsAt(m, w);
    SplitsAt(m + input, w);
    assert (m + input)[..w] == m[..w] && (m + input)[w..] == m[w..] + input;
  }

  lemma SplitsAt(m: seq<bv8>, w: nat)
    requires w == |m| - |m| % 64
    ensures Whole(m) == m[..w] && Rest(m) == m[w..]
  {}

  lemma NoCarry(n: nat, k: nat)
    requires n % 64 + k < 64
    ensures (n + k) % 64 == n % 64 + k
  {}

  // An empty buffer leaves the digest as it was.
  method SumMem(buf: seq<bv8>, digest: array<bv8>)
    requires |buf| < WORD && digest.Length == 16
    modifies digest
    ensures digest[..] == if buf == [] then old(digest[..]) else Digest(buf)
  {
    hide Digest;
    if |buf| == 0 {
      return;
    }
    var ctx := new Context();
    ctx.Init();
    ctx.Update(buf, []);
    assert [] + buf == buf;
    ctx.Final(digest, buf);
  }

  datatype File = Missing | Readable(content: seq<bv8>)

  // The file comes in pieces of 1024 bytes; the end shows in a short piece, so that the last one may be empty.
  method SumFile(file: File, digest: array<bv8>) returns (status: int)
    requires digest.Length == 16
    modifies digest
    ensures status == if file.Missing? then -1 else 0
    ensures digest[..] == if file.Missing? then old(digest[..]) else Digest(file.content)
  {
    hide Digest;
    if file.Missing? {
      return -1;
    }
    var ctx := new Context();
    ctx.Init();
    var pos, eof := 0, false;
    while !eof
      invariant pos <= |file.content| && (eof ==> pos == |file.content|)
      invariant fresh(ctx) && fresh(ctx.buffer) && ctx.Tracks(file.content[..pos])
      invariant digest[..] == old(digest[..])
      decreases |file.content| - pos, if eof then 0 else 1
    {
      var nr := if |file.content| - pos < 1024 then |file.content| - pos else 1024;
      ctx.Update(file.content[pos..pos + nr], file.content[..pos]);
      assert file.content[..pos] + file.content[pos..pos + nr] == file.content[..pos + nr];
      pos, eof := pos + nr, nr < 1024;
    }
    assert file.content[..pos] == file.content;
    ctx.Final(digest, file.content);
    return 0;
  }

  function Joined(chunks: seq<seq<bv8>>): seq<bv8> {
    if chunks == [] then [] else Joined(chunks[..|chunks| - 1]) + chunks[|chunks| - 1]
  }

  // Any use of a context between its set-up and its end: however a message is cut up, the digest is that of the whole.
  method SumChunks(chunks: seq<seq<bv8>>, digest: array<bv8>)
    requires digest.Length == 16 && forall i :: 0 <= i < |chunks| ==> |chunks[i]| + 63 < WORD
    modifies digest
    ensures digest[..] == Digest(Joined(chunks))
  {
    hide Digest;
    var ctx := new Context();
    ctx.Init();
    for i := 0 to |chunks|
      invariant fresh(ctx) && fresh(ctx.buffer) && ctx.Tracks(Joined(chunks[..i]))
    {
      ctx.Update(chunks[i], Joined(chunks[..i]));
      assert chunks[..i + 1][..i] == chunks[..i];
    }
    assert chunks[..|chunks|] == chunks;
    ctx.Final(digest, Joined(chunks));
  }
}
