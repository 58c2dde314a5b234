/** The in-place form of the cipher: a matrix rewritten step by step, and buffers of one block. */
module AesBlock {
  import opened AesTables
  import opened AesCipher

  predicate Square(m: array2<bv8>) { m.Length0 == 4 && m.Length1 == 4 }

  ghost function RowOf(m: array2<bv8>, i: nat): Col
    requires Square(m) && i < 4
    reads m
  {
    Col(m[i, 0], m[i, 1], m[i, 2], m[i, 3])
  }

  ghost function ColOf(m: array2<bv8>, j: nat): Col
    requires Square(m) && j < 4
    reads m
  {
    Col(m[0, j], m[1, j], m[2, j], m[3, j])
  }

  ghost function Grid(m: array2<bv8>): State
    requires Square(m)
    reads m
  {
    State(ColOf(m, 0), ColOf(m, 1), ColOf(m, 2), ColOf(m, 3))
  }

  // The source's four lines for one row.
  method SubRow(state: array2<bv8>, i: nat)
    requires Square(state) && i < 4
    modifies state
    ensures RowOf(state, i) == SubCol(old(RowOf(state, i)))
    ensures forall k :: 0 <= k < 4 && k != i ==> RowOf(state, k) == old(RowOf(state, k))
  {
    hide Sbox;
    state[i, 0] := Sbox(state[i, 0]);
    state[i, 1] := Sbox(state[i, 1]);
    state[i, 2] := Sbox(state[i, 2]);
    state[i, 3] := Sbox(state[i, 3]);
  }

  method SubBytes(state: array2<bv8>)
    requires Square(state)
    modifies state
    ensures Grid(state) == Sub(old(Grid(state)))
  {
    hide Sbox;
    SubRow(state, 0);
    SubRow(state, 1);
    SubRow(state, 2);
    SubRow(state, 3);
  }

  method InvSubRow(state: array2<bv8>, i: nat)
    requires Square(state) && i < 4
    modifies state
    ensures RowOf(state, i) == InvSubCol(old(RowOf(state, i)))
    ensures forall k :: 0 <= k < 4 && k != i ==> RowOf(state, k) == old(RowOf(state, k))
  {
    hide InvSbox;
    state[i, 0] := InvSbox(state[i, 0]);
    state[i, 1] := InvSbox(state[i, 1]);
    state[i, 2] := InvSbox(state[i, 2]);
    state[i, 3] := InvSbox(state[i, 3]);
  }

  method InvSubBytes(state: array2<bv8>)
    requires Square(state)
    modifies state
    ensures Grid(state) == InvSub(old(Grid(state)))
  {
    hide InvSbox;
    InvSubRow(state, 0);
    InvSubRow(state, 1);
    InvSubRow(state, 2);
    InvSubRow(state, 3);
  }

  // The two opposite shifts by one place; row 3 moves left by three as row 1 moves right by one.
  method ShiftLeft(state: array2<bv8>, i: nat)
    requires Square(state) && i < 4
    modifies state
    ensures var r := old(RowOf(state, i)); RowOf(state, i) == Col(r.b, r.c, r.d, r.a)
    ensures forall k :: 0 <= k < 4 && k != i ==> RowOf(state, k) == old(RowOf(state, k))
  {
    var t := state[i, 0];
    state[i, 0] := state[i, 1];
    state[i, 1] := state[i, 2];
    state[i, 2] := state[i, 3];
    state[i, 3] := t;
  }

  method ShiftRight(state: array2<bv8>, i: nat)
    requires Square(state) && i < 4
    modifies state
    ensures var r := old(RowOf(state, i)); RowOf(state, i) == Col(r.d, r.a, r.b, r.c)
    ensures forall k :: 0 <= k < 4 && k != i ==> RowOf(state, k) == old(RowOf(state, k))
  {
    var t := state[i, 3];
    state[i, 3] := state[i, 2];
    state[i, 2] := state[i, 1];
    state[i, 1] := state[i, 0];
    state[i, 0] := t;
  }

  method SwapHalves(state: array2<bv8>, i: nat)
    requires Square(state) && i < 4
    modifies state
    ensures var r := old(RowOf(state, i)); RowOf(state, i) == Col(r.c, r.d, r.a, r.b)
    ensures forall k :: 0 <= k < 4 && k != i ==> RowOf(state, k) == old(RowOf(state, k))
  {
    var t := state[i, 0];
    state[i, 0] := state[i, 2];
    state[i, 2] := t;
    t := state[i, 1];
    state[i, 1] := state[i, 3];
    state[i, 3] := t;
  }

  method RowsLeft(state: array2<bv8>)
    requires Square(state)
    modifies state
    ensures Grid(state) == Shift(old(Grid(state)))
  {
    ShiftLeft(state, 1);
    SwapHalves(state, 2);
    ShiftRight(state, 3);
    assert RowOf(state, 0) == old(RowOf(state, 0)) && RowOf(state, 1).a == old(RowOf(state, 1).b);
  }

  method RowsRight(state: array2<bv8>)
    requires Square(state)
    modifies state
    ensures Grid(state) == InvShift(old(Grid(state)))
  {
    ShiftRight(state, 1);
    SwapHalves(state, 2);
    ShiftLeft(state, 3);
    assert RowOf(state, 0) == old(RowOf(state, 0)) && RowOf(state, 1).b == old(RowOf(state, 1).a);
  }

  lemma CellIs(m: array2<bv8>, r: nat, c: nat)
    requires Square(m) && r < 4 && c < 4
    ensures Cell(Grid(m), r, c) == m[r, c]
  {}

  // Row r moves left by r places.
  method ShiftRows(state: array2<bv8>)
    requires Square(state)
    modifies state
    ensures Grid(state) == Shift(old(Grid(state)))
    ensures forall r, c :: 0 <= r < 4 && 0 <= c < 4 ==> state[r, c] == old(state[r, (c + r) % 4])
  {
    hide Shift, Grid, Cell;
    ghost var was := Grid(state);
    forall r, c | 0 <= r < 4 && 0 <= c < 4 ensures Cell(was, r, c) == state[r, c] {
      CellIs(state, r, c);
    }
    RowsLeft(state);
    forall r, c | 0 <= r < 4 && 0 <= c < 4 ensures state[r, c] == old(state[r, (c + r) % 4]) {
      CellIs(state, r, c);
      ShiftMoves(was, r, c);
    }
  }

  // And right by r places.
  method InvShiftRows(state: array2<bv8>)
    requires Square(state)
    modifies state
    ensures Grid(state) == InvShift(old(Grid(state)))
    ensures forall r, c :: 0 <= r < 4 && 0 <= c < 4 ==> state[r, (c + r) % 4] == old(state[r, c])
  {
    hide InvShift, Grid, Cell;
    ghost var was := Grid(state);
    forall r, c | 0 <= r < 4 && 0 <= c < 4 ensures Cell(was, r, c) == state[r, c] {
      CellIs(state, r, c);
    }
    RowsRight(state);
    forall r, c | 0 <= r < 4 && 0 <= c < 4 ensures state[r, (c + r) % 4] == old(state[r, c]) {
      CellIs(state, r, (c + r) % 4);
      ShiftMoves(was, r, c);
    }
  }

  // Adding up from the left, starting at any of the four terms.
  lemma SumInTurn(p: bv8, q: bv8, r: bv8, s: bv8)
    ensures Add(Add(Add(p, q), r), s) == Sum(p, q, r, s)
    ensures Add(Add(Add(s, p), q), r) == Sum(p, q, r, s)
    ensures Add(Add(Add(r, s), p), q) == Sum(p, q, r, s)
    ensures Add(Add(Add(q, r), s), p) == Sum(p, q, r, s)
  {
    hide Add;
    AddAssociates(Add(p, q), r, s);
    AddAssociates(Add(r, s), p, q);
    AddCommutes(Add(p, q), Add(r, s));
    AddAssociates(Add(s, p), q, r);
    AddAssociates(Add(q, r), s, p);
    AddCommutes(Add(s, p), Add(q, r));
    AddCommutes(r, s);
    AddCommutes(p, s);
    Exchange(p, q, s, r);
  }

  method MixColumn(state: array2<bv8>, j: nat)
    requires Square(state) && j < 4
    modifies state
    ensures ColOf(state, j) == MixCol(old(ColOf(state, j)))
    ensures forall k :: 0 <= k < 4 && k != j ==> ColOf(state, k) == old(ColOf(state, k))
  {
    hide Gf, Mul, Add, Sum;
    var c0, c1, c2, c3 := state[0, j], state[1, j], state[2, j], state[3, j];
    GfMultiplies(c0);
    GfMultiplies(c1);
    GfMultiplies(c2);
    GfMultiplies(c3);
    SumInTurn(Mul(c0, 2), Mul(c1, 3), c2, c3);
    SumInTurn(Mul(c1, 2), Mul(c2, 3), c3, c0);
    SumInTurn(Mul(c2, 2), Mul(c3, 3), c0, c1);
    SumInTurn(Mul(c3, 2), Mul(c0, 3), c1, c2);
    state[0, j] := Gf(c0).x2;
    state[0, j] := Add(state[0, j], Gf(c1).x3);
    state[0, j] := Add(state[0, j], c2);
    state[0, j] := Add(state[0, j], c3);
    state[1, j] := c0;
    state[1, j] := Add(state[1, j], Gf(c1).x2);
    state[1, j] := Add(state[1, j], Gf(c2).x3);
    state[1, j] := Add(state[1, j], c3);
    state[2, j] := c0;
    state[2, j] := Add(state[2, j], c1);
    state[2, j] := Add(state[2, j], Gf(c2).x2);
    state[2, j] := Add(state[2, j], Gf(c3).x3);
    state[3, j] := Gf(c0).x3;
    state[3, j] := Add(state[3, j], c1);
    state[3, j] := Add(state[3, j], c2);
    state[3, j] := Add(state[3, j], Gf(c3).x2);
  }

  method MixColumns(state: array2<bv8>)
    requires Square(state)
    modifies state
    ensures Grid(state) == Mix(old(Grid(state)))
  {
    hide MixCol;
    MixColumn(state, 0);
    MixColumn(state, 1);
    MixColumn(state, 2);
    MixColumn(state, 3);
  }

  method InvMixColumn(state: array2<bv8>, j: nat)
    requires Square(state) && j < 4
    modifies state
    ensures ColOf(state, j) == InvMixCol(old(ColOf(state, j)))
    ensures forall k :: 0 <= k < 4 && k != j ==> ColOf(state, k) == old(ColOf(state, k))
  {
    hide Gf, Mul, Add, Sum;
    var c0, c1, c2, c3 := state[0, j], state[1, j], state[2, j], state[3, j];
    GfMultiplies(c0);
    GfMultiplies(c1);
    GfMultiplies(c2);
    GfMultiplies(c3);
    SumInTurn(Mul(c0, 14), Mul(c1, 11), Mul(c2, 13), Mul(c3, 9));
    SumInTurn(Mul(c1, 14), Mul(c2, 11), Mul(c3, 13), Mul(c0, 9));
    SumInTurn(Mul(c2, 14), Mul(c3, 11), Mul(c0, 13), Mul(c1, 9));
    SumInTurn(Mul(c3, 14), Mul(c0, 11), Mul(c1, 13), Mul(c2, 9));
    state[0, j] := Gf(c0).xe;
    state[0, j] := Add(state[0, j], Gf(c1).xb);
    state[0, j] := Add(state[0, j], Gf(c2).xd);
    state[0, j] := Add(state[0, j], Gf(c3).x9);
    state[1, j] := Gf(c0).x9;
    state[1, j] := Add(state[1, j], Gf(c1).xe);
    state[1, j] := Add(state[1, j], Gf(c2).xb);
    state[1, j] := Add(state[1, j], Gf(c3).xd);
    state[2, j] := Gf(c0).xd;
    state[2, j] := Add(state[2, j], Gf(c1).x9);
    state[2, j] := Add(state[2, j], Gf(c2).xe);
    state[2, j] := Add(state[2, j], Gf(c3).xb);
    state[3, j] := Gf(c0).xb;
    state[3, j] := Add(state[3, j], Gf(c1).xd);
    state[3, j] := Add(state[3, j], Gf(c2).x9);
    state[3, j] := Add(state[3, j], Gf(c3).xe);
  }

  method InvMixColumns(state: array2<bv8>)
    requires Square(state)
    modifies state
    ensures Grid(state) == InvMix(old(Grid(state)))
  {
    hide InvMixCol;
    InvMixColumn(state, 0);
    InvMixColumn(state, 1);
    InvMixColumn(state, 2);
    InvMixColumn(state, 3);
  }

  // One subkey: the bytes of the word are cut out and added to a column.
  method AddSubkey(state: array2<bv8>, j: nat, w: bv32)
    requires Square(state) && j < 4
    modifies state
    ensures ColOf(state, j) == Xor(old(ColOf(state, j)), Bytes(w))
    ensures forall k :: 0 <= k < 4 && k != j ==> ColOf(state, k) == old(ColOf(state, k))
  {
    hide Add;
    var k0, k1, k2, k3 := (w >> 24) as bv8, ((w >> 16) & 0xff) as bv8, ((w >> 8) & 0xff) as bv8, (w & 0xff) as bv8;
    state[0, j] := Add(state[0, j], k0);
    state[1, j] := Add(state[1, j], k1);
    state[2, j] := Add(state[2, j], k2);
    state[3, j] := Add(state[3, j], k3);
  }

  // The source passes the address of the first of the round's four words.
  method AddRoundKey(state: array2<bv8>, w: seq<bv32>, r: nat)
    requires Square(state) && 4 * r + 4 <= |w|
    modifies state
    ensures Grid(state) == AddKey(old(Grid(state)), w, r)
  {
    hide Xor, Bytes;
    AddSubkey(state, 0, w[4 * r]);
    AddSubkey(state, 1, w[4 * r + 1]);
    AddSubkey(state, 2, w[4 * r + 2]);
    AddSubkey(state, 3, w[4 * r + 3]);
  }

  method EncryptRound(state: array2<bv8>, w: seq<bv32>, r: nat)
    requires Square(state) && 4 * r + 4 <= |w|
    modifies state
    ensures Grid(state) == Round(old(Grid(state)), w, r)
  {
    hide Sub, Shift, Mix, AddKey, Grid;
    SubBytes(state);
    ShiftRows(state);
    MixColumns(state);
    AddRoundKey(state, w, r);
  }

  method DecryptRound(state: array2<bv8>, w: seq<bv32>, r: nat)
    requires Square(state) && 4 * r + 4 <= |w|
    modifies state
    ensures Grid(state) == InvRound(old(Grid(state)), w, r)
  {
    hide InvSub, InvShift, InvMix, AddKey, Grid;
    InvShiftRows(state);
    InvSubBytes(state);
    AddRoundKey(state, w, r);
    InvMixColumns(state);
  }

  // The bytes of a block fill the state column by column.
  function Four(b: seq<bv8>, i: nat): Col
    requires i + 4 <= |b|
  {
    Col(b[i], b[i + 1], b[i + 2], b[i + 3])
  }

  function Load(b: seq<bv8>): State
    requires |b| == 16
  {
    State(Four(b, 0), Four(b, 4), Four(b, 8), Four(b, 12))
  }

  function Flat(c: Col): seq<bv8> { [c.a, c.b, c.c, c.d] }

  function Store(s: State): (b: seq<bv8>)
    ensures |b| == 16
  {
    Flat(s.c0) + Flat(s.c1) + Flat(s.c2) + Flat(s.c3)
  }

  lemma StoreLoads(s: State)
    ensures Load(Store(s)) == s
  {}

  lemma LoadStores(b: seq<bv8>)
    requires |b| == 16
    ensures Store(Load(b)) == b
  {}

  method LoadColumn(input: array<bv8>, state: array2<bv8>, j: nat)
    requires Square(state) && j < 4 && input.Length == 16
    modifies state
    ensures ColOf(state, j) == Four(input[..], 4 * j)
    ensures forall k :: 0 <= k < 4 && k != j ==> ColOf(state, k) == old(ColOf(state, k))
  {
    state[0, j] := input[4 * j];
    state[1, j] := input[4 * j + 1];
    state[2, j] := input[4 * j + 2];
    state[3, j] := input[4 * j + 3];
  }

  method LoadState(input: array<bv8>, state: array2<bv8>)
    requires Square(state) && input.Length == 16
    modifies state
    ensures Grid(state) == Load(input[..])
  {
    hide Four;
    LoadColumn(input, state, 0);
    LoadColumn(input, state, 1);
    LoadColumn(input, state, 2);
    LoadColumn(input, state, 3);
  }

  method StoreColumn(state: array2<bv8>, output: array<bv8>, j: nat)
    requires Square(state) && j < 4 && output.Length == 16
    modifies output
    ensures output[..] == old(output[..4 * j]) + Flat(ColOf(state, j)) + old(output[4 * j + 4..])
  {
    output[4 * j] := state[0, j];
    output[4 * j + 1] := state[1, j];
    output[4 * j + 2] := state[2, j];
    output[4 * j + 3] := state[3, j];
  }

  method StoreState(state: array2<bv8>, output: array<bv8>)
    requires Square(state) && output.Length == 16
    modifies output
    ensures output[..] == Store(Grid(state))
  {
    StoreColumn(state, output, 0);
    StoreColumn(state, output, 1);
    StoreColumn(state, output, 2);
    StoreColumn(state, output, 3);
  }
}
