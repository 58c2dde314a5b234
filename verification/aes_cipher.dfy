/** The block cipher of tserver/tq_aes.c: the round steps on the state matrix and the two ciphers (FIPS 197, section 5). */
module AesCipher {
  import opened AesTables

  // A column of the state, top byte first, and the state as its four columns.
  datatype Col = Col(a: bv8, b: bv8, c: bv8, d: bv8)
  datatype State = State(c0: Col, c1: Col, c2: Col, c3: Col)

  function Xor(x: Col, y: Col): Col { Col(Add(x.a, y.a), Add(x.b, y.b), Add(x.c, y.c), Add(x.d, y.d)) }

  // The bytes of a word, most significant first.
  function Bytes(w: bv32): Col {
    Col((w >> 24) as bv8, ((w >> 16) & 0xff) as bv8, ((w >> 8) & 0xff) as bv8, (w & 0xff) as bv8)
  }

  function AddKey(s: State, w: seq<bv32>, r: nat): State
    requires 4 * r + 4 <= |w|
  {
    State(Xor(s.c0, Bytes(w[4 * r])), Xor(s.c1, Bytes(w[4 * r + 1])),
          Xor(s.c2, Bytes(w[4 * r + 2])), Xor(s.c3, Bytes(w[4 * r + 3])))
  }

  function SubCol(c: Col): Col { Col(Sbox(c.a), Sbox(c.b), Sbox(c.c), Sbox(c.d)) }

  function InvSubCol(c: Col): Col { Col(InvSbox(c.a), InvSbox(c.b), InvSbox(c.c), InvSbox(c.d)) }

  function Sub(s: State): State { State(SubCol(s.c0), SubCol(s.c1), SubCol(s.c2), SubCol(s.c3)) }

  function InvSub(s: State): State { State(InvSubCol(s.c0), InvSubCol(s.c1), InvSubCol(s.c2), InvSubCol(s.c3)) }

  // Row r moves left by r places, or right.
  function Shift(s: State): State {
    State(Col(s.c0.a, s.c1.b, s.c2.c, s.c3.d), Col(s.c1.a, s.c2.b, s.c3.c, s.c0.d),
          Col(s.c2.a, s.c3.b, s.c0.c, s.c1.d), Col(s.c3.a, s.c0.b, s.c1.c, s.c2.d))
  }

  function InvShift(s: State): State {
    State(Col(s.c0.a, s.c3.b, s.c2.c, s.c1.d), Col(s.c1.a, s.c0.b, s.c3.c, s.c2.d),
          Col(s.c2.a, s.c1.b, s.c0.c, s.c3.d), Col(s.c3.a, s.c2.b, s.c1.c, s.c0.d))
  }

  // A column times the circulant matrices of FIPS 197, (5.6) and (5.10).
  function Sum(p: bv8, q: bv8, r: bv8, s: bv8): bv8 { Add(Add(p, q), Add(r, s)) }

  function Mix1(a: bv8, b: bv8, c: bv8, d: bv8): bv8 { Sum(Mul(a, 2), Mul(b, 3), c, d) }

  function InvMix1(a: bv8, b: bv8, c: bv8, d: bv8): bv8 { Sum(Mul(a, 14), Mul(b, 11), Mul(c, 13), Mul(d, 9)) }

  function MixCol(x: Col): Col {
    Col(Mix1(x.a, x.b, x.c, x.d), Mix1(x.b, x.c, x.d, x.a), Mix1(x.c, x.d, x.a, x.b), Mix1(x.d, x.a, x.b, x.c))
  }

  function InvMixCol(x: Col): Col {
    Col(InvMix1(x.a, x.b, x.c, x.d), InvMix1(x.b, x.c, x.d, x.a), InvMix1(x.c, x.d, x.a, x.b), InvMix1(x.d, x.a, x.b, x.c))
  }

  function Mix(s: State): State { State(MixCol(s.c0), MixCol(s.c1), MixCol(s.c2), MixCol(s.c3)) }

  function InvMix(s: State): State { State(InvMixCol(s.c0), InvMixCol(s.c1), InvMixCol(s.c2), InvMixCol(s.c3)) }

  lemma AddKeyUndoes(s: State, w: seq<bv32>, r: nat)
    requires 4 * r + 4 <= |w|
    ensures AddKey(AddKey(s, w, r), w, r) == s
  {
    hide Bytes;
    XorUndoes(s.c0, Bytes(w[4 * r]));
    XorUndoes(s.c1, Bytes(w[4 * r + 1]));
    XorUndoes(s.c2, Bytes(w[4 * r + 2]));
    XorUndoes(s.c3, Bytes(w[4 * r + 3]));
  }

  lemma XorUndoes(x: Col, y: Col)
    ensures Xor(Xor(x, y), y) == x
  {}

  lemma SubUndone(s: State)
    ensures InvSub(Sub(s)) == s
  {
    hide Sbox, InvSbox;
    SubColUndone(s.c0);
    SubColUndone(s.c1);
    SubColUndone(s.c2);
    SubColUndone(s.c3);
  }

  lemma SubColUndone(c: Col)
    ensures InvSubCol(SubCol(c)) == c
  {
    hide Sbox, InvSbox;
    InvSboxUndoes(c.a);
    InvSboxUndoes(c.b);
    InvSboxUndoes(c.c);
    InvSboxUndoes(c.d);
  }

  // The byte in row r and column c.
  function Cell(s: State, r: nat, c: nat): bv8 {
    var x := if c == 0 then s.c0 else if c == 1 then s.c1 else if c == 2 then s.c2 else s.c3;
    if r == 0 then x.a else if r == 1 then x.b else if r == 2 then x.c else x.d
  }

  // FIPS 197, sections 5.1.2 and 5.3.1.
  lemma ShiftMoves(s: State, r: nat, c: nat)
    requires r < 4 && c < 4
    ensures Cell(Shift(s), r, c) == Cell(s, r, (c + r) % 4)
    ensures Cell(InvShift(s), r, (c + r) % 4) == Cell(s, r, c)
  {}

  lemma ShiftUndone(s: State)
    ensures InvShift(Shift(s)) == s
  {}

  // The mixings are linear ...
  lemma AddCommutes(x: bv8, y: bv8)
    ensures Add(x, y) == Add(y, x)
  {}

  lemma AddAssociates(x: bv8, y: bv8, z: bv8)
    ensures Add(Add(x, y), z) == Add(x, Add(y, z))
  {}

  lemma Exchange(p: bv8, q: bv8, r: bv8, s: bv8)
    ensures Add(Add(p, q), Add(r, s)) == Add(Add(p, r), Add(q, s))
  {
    hide Add;
    AddAssociates(p, q, Add(r, s));
    AddAssociates(q, r, s);
    AddCommutes(q, r);
    AddAssociates(r, q, s);
    AddAssociates(p, r, Add(q, s));
  }

  lemma XtimeAdds(x: bv8, y: bv8)
    ensures Xtime(Add(x, y)) == Add(Xtime(x), Xtime(y))
  {}

  // Multiplication by the coefficients of the two matrices, in powers of x.
  lemma MulByPowers(b: bv8)
    ensures var p1, p2, p3 := Xtime(b), Xtime(Xtime(b)), Xtime(Xtime(Xtime(b)));
            && Mul(b, 2) == p1 && Mul(b, 3) == Add(p1, b)
            && Mul(b, 9) == Add(p3, b) && Mul(b, 11) == Add(Add(p3, p1), b)
            && Mul(b, 13) == Add(Add(p3, p2), b) && Mul(b, 14) == Add(Add(p3, p2), p1)
  {
    hide Mul, Xtime, Add;
    MulByTwoAndThree(b);
    MulByNineAndEleven(b);
    MulByThirteenAndFourteen(b);
  }

  lemma MulByTwoAndThree(b: bv8)
    ensures Mul(b, 2) == Xtime(b) && Mul(b, 3) == Add(Xtime(b), b)
  {}

  lemma MulByNineAndEleven(b: bv8)
    ensures Mul(b, 9) == Add(Xtime(Xtime(Xtime(b))), b) && Mul(b, 11) == Add(Add(Xtime(Xtime(Xtime(b))), Xtime(b)), b)
  {}

  lemma MulByThirteenAndFourteen(b: bv8)
    ensures Mul(b, 13) == Add(Add(Xtime(Xtime(Xtime(b))), Xtime(Xtime(b))), b)
    ensures Mul(b, 14) == Add(Add(Xtime(Xtime(Xtime(b))), Xtime(Xtime(b))), Xtime(b))
  {}

  lemma MulAdds(x: bv8, y: bv8)
    ensures Mul(Add(x, y), 2) == Add(Mul(x, 2), Mul(y, 2)) && Mul(Add(x, y), 3) == Add(Mul(x, 3), Mul(y, 3))
    ensures Mul(Add(x, y), 9) == Add(Mul(x, 9), Mul(y, 9)) && Mul(Add(x, y), 11) == Add(Mul(x, 11), Mul(y, 11))
    ensures Mul(Add(x, y), 13) == Add(Mul(x, 13), Mul(y, 13)) && Mul(Add(x, y), 14) == Add(Mul(x, 14), Mul(y, 14))
  {
    hide Add, Xtime, Mul;
    var x1, x2, x3 := Xtime(x), Xtime(Xtime(x)), Xtime(Xtime(Xtime(x)));
    var y1, y2, y3 := Xtime(y), Xtime(Xtime(y)), Xtime(Xtime(Xtime(y)));
    MulByPowers(x);
    MulByPowers(y);
    MulByPowers(Add(x, y));
    XtimeAdds(x, y);
    XtimeAdds(x1, y1);
    XtimeAdds(x2, y2);
    Exchange(x1, y1, x, y);
    Exchange(x3, y3, x, y);
    Exchange(x3, y3, x1, y1);
    Exchange(Add(x3, x1), Add(y3, y1), x, y);
    Exchange(x3, y3, x2, y2);
    Exchange(Add(x3, x2), Add(y3, y2), x, y);
    Exchange(Add(x3, x2), Add(y3, y2), x1, y1);
  }

  lemma SumAdds(p: bv8, q: bv8, r: bv8, s: bv8, p': bv8, q': bv8, r': bv8, s': bv8)
    ensures Sum(Add(p, p'), Add(q, q'), Add(r, r'), Add(s, s')) == Add(Sum(p, q, r, s), Sum(p', q', r', s'))
  {
    hide Add;
    Exchange(p, p', q, q');
    Exchange(r, r', s, s');
    Exchange(Add(p, q), Add(p', q'), Add(r, s), Add(r', s'));
  }

  lemma Mix1Adds(a: bv8, b: bv8, c: bv8, d: bv8, a': bv8, b': bv8, c': bv8, d': bv8)
    ensures Mix1(Add(a, a'), Add(b, b'), Add(c, c'), Add(d, d')) == Add(Mix1(a, b, c, d), Mix1(a', b', c', d'))
  {
    hide Add, Mul;
    MulAdds(a, a');
    MulAdds(b, b');
    SumAdds(Mul(a, 2), Mul(b, 3), c, d, Mul(a', 2), Mul(b', 3), c', d');
  }

  lemma InvMix1Adds(a: bv8, b: bv8, c: bv8, d: bv8, a': bv8, b': bv8, c': bv8, d': bv8)
    ensures InvMix1(Add(a, a'), Add(b, b'), Add(c, c'), Add(d, d')) == Add(InvMix1(a, b, c, d), InvMix1(a', b', c', d'))
  {
    hide Add, Mul;
    MulAdds(a, a');
    MulAdds(b, b');
    MulAdds(c, c');
    MulAdds(d, d');
    SumAdds(Mul(a, 14), Mul(b, 11), Mul(c, 13), Mul(d, 9), Mul(a', 14), Mul(b', 11), Mul(c', 13), Mul(d', 9));
  }

  lemma MixColAdds(x: Col, y: Col)
    ensures MixCol(Xor(x, y)) == Xor(MixCol(x), MixCol(y))
  {
    hide Add, Mix1;
    Mix1Adds(x.a, x.b, x.c, x.d, y.a, y.b, y.c, y.d);
    Mix1Adds(x.b, x.c, x.d, x.a, y.b, y.c, y.d, y.a);
    Mix1Adds(x.c, x.d, x.a, x.b, y.c, y.d, y.a, y.b);
    Mix1Adds(x.d, x.a, x.b, x.c, y.d, y.a, y.b, y.c);
  }

  lemma InvMixColAdds(x: Col, y: Col)
    ensures InvMixCol(Xor(x, y)) == Xor(InvMixCol(x), InvMixCol(y))
  {
    hide Add, InvMix1;
    InvMix1Adds(x.a, x.b, x.c, x.d, y.a, y.b, y.c, y.d);
    InvMix1Adds(x.b, x.c, x.d, x.a, y.b, y.c, y.d, y.a);
    InvMix1Adds(x.c, x.d, x.a, x.b, y.c, y.d, y.a, y.b);
    InvMix1Adds(x.d, x.a, x.b, x.c, y.d, y.a, y.b, y.c);
  }

  // ... and undo each other on the columns with one byte: polynomials over GF(2) in x, applied to a byte, in which
  // everything cancels but that byte, ...
  datatype Poly = Poly(c0: bool, c1: bool, c2: bool, c3: bool, c4: bool)

  datatype Powers = Powers(p0: bv8, p1: bv8, p2: bv8, p3: bv8, p4: bv8)

  function PowersOf(b: bv8): Powers {
    var p1 := Xtime(b);
    var p2 := Xtime(p1);
    var p3 := Xtime(p2);
    Powers(b, p1, p2, p3, Xtime(p3))
  }

  function Plus(f: Poly, g: Poly): Poly {
    Poly(f.c0 != g.c0, f.c1 != g.c1, f.c2 != g.c2, f.c3 != g.c3, f.c4 != g.c4)
  }

  function Term(c: bool, p: bv8): bv8 { if c then p else 0 }

  function Upper3(f: Poly, v: Powers): bv8 { Add(Term(f.c3, v.p3), Term(f.c4, v.p4)) }

  function Upper2(f: Poly, v: Powers): bv8 { Add(Term(f.c2, v.p2), Upper3(f, v)) }

  function Upper1(f: Poly, v: Powers): bv8 { Add(Term(f.c1, v.p1), Upper2(f, v)) }

  function Applied(f: Poly, v: Powers): bv8 { Add(Term(f.c0, v.p0), Upper1(f, v)) }

  lemma TermAdds(c: bool, d: bool, p: bv8)
    ensures Add(Term(c, p), Term(d, p)) == Term(c != d, p)
  {}

  lemma LevelAdds(c: bool, d: bool, p: bv8, x: bv8, y: bv8)
    ensures Add(Add(Term(c, p), x), Add(Term(d, p), y)) == Add(Term(c != d, p), Add(x, y))
  {
    hide Add, Term;
    Exchange(Term(c, p), x, Term(d, p), y);
    TermAdds(c, d, p);
  }

  lemma Upper3Adds(f: Poly, g: Poly, v: Powers)
    ensures Add(Upper3(f, v), Upper3(g, v)) == Upper3(Plus(f, g), v)
  {
    hide Add, Term;
    TermAdds(f.c4, g.c4, v.p4);
    LevelAdds(f.c3, g.c3, v.p3, Term(f.c4, v.p4), Term(g.c4, v.p4));
  }

  lemma Upper2Adds(f: Poly, g: Poly, v: Powers)
    ensures Add(Upper2(f, v), Upper2(g, v)) == Upper2(Plus(f, g), v)
  {
    hide Add, Term, Upper3;
    Upper3Adds(f, g, v);
    LevelAdds(f.c2, g.c2, v.p2, Upper3(f, v), Upper3(g, v));
  }

  lemma Upper1Adds(f: Poly, g: Poly, v: Powers)
    ensures Add(Upper1(f, v), Upper1(g, v)) == Upper1(Plus(f, g), v)
  {
    hide Add, Term, Upper2;
    Upper2Adds(f, g, v);
    LevelAdds(f.c1, g.c1, v.p1, Upper2(f, v), Upper2(g, v));
  }

  lemma AppliedAdds(f: Poly, g: Poly, v: Powers)
    ensures Add(Applied(f, v), Applied(g, v)) == Applied(Plus(f, g), v)
  {
    hide Add, Term, Upper1;
    Upper1Adds(f, g, v);
    LevelAdds(f.c0, g.c0, v.p0, Upper1(f, v), Upper1(g, v));
  }

  const X0 := Poly(true, false, false, false, false)
  const X1 := Poly(false, true, false, false, false)
  const X2 := Poly(false, false, true, false, false)
  const X3 := Poly(false, false, false, true, false)
  const X4 := Poly(false, false, false, false, true)

  lemma AppliedPowers(v: Powers)
    ensures Applied(X0, v) == v.p0 && Applied(X1, v) == v.p1 && Applied(X2, v) == v.p2
    ensures Applied(X3, v) == v.p3 && Applied(X4, v) == v.p4
    ensures Applied(Poly(false, false, false, false, false), v) == 0
  {}

  // The coefficients of the inverse matrix, times a byte, times twice the byte and times three times the byte.
  lemma MulIsApplied(b: bv8)
    ensures var v := PowersOf(b);
            && Mul(b, 9) == Applied(Poly(true, false, false, true, false), v)
            && Mul(b, 11) == Applied(Poly(true, true, false, true, false), v)
            && Mul(b, 13) == Applied(Poly(true, false, true, true, false), v)
            && Mul(b, 14) == Applied(Poly(false, true, true, true, false), v)
  {
    hide Add, Xtime, Mul, Applied;
    var v := PowersOf(b);
    MulByPowers(b);
    AppliedPowers(v);
    AppliedAdds(X3, X0, v);
    AppliedAdds(X3, X1, v);
    AppliedAdds(Plus(X3, X1), X0, v);
    AppliedAdds(X3, X2, v);
    AppliedAdds(Plus(X3, X2), X0, v);
    AppliedAdds(Plus(X3, X2), X1, v);
  }

  lemma MulTwiceIsApplied(b: bv8)
    ensures var v := PowersOf(b);
            && Mul(Mul(b, 2), 9) == Applied(Poly(false, true, false, false, true), v)
            && Mul(Mul(b, 2), 11) == Applied(Poly(false, true, true, false, true), v)
            && Mul(Mul(b, 2), 13) == Applied(Poly(false, true, false, true, true), v)
            && Mul(Mul(b, 2), 14) == Applied(Poly(false, false, true, true, true), v)
  {
    hide Add, Xtime, Mul, Applied;
    var v := PowersOf(b);
    MulByPowers(b);
    MulByPowers(Xtime(b));
    AppliedPowers(v);
    AppliedAdds(X4, X1, v);
    AppliedAdds(X4, X2, v);
    AppliedAdds(Plus(X4, X2), X1, v);
    AppliedAdds(X4, X3, v);
    AppliedAdds(Plus(X4, X3), X1, v);
    AppliedAdds(Plus(X4, X3), X2, v);
  }

  lemma MulThriceIsApplied(b: bv8)
    ensures var v := PowersOf(b);
            && Mul(Mul(b, 3), 9) == Applied(Poly(true, true, false, true, true), v)
            && Mul(Mul(b, 3), 11) == Applied(Poly(true, false, true, true, true), v)
            && Mul(Mul(b, 3), 13) == Applied(Poly(true, true, true, false, true), v)
            && Mul(Mul(b, 3), 14) == Applied(Poly(false, true, false, false, true), v)
  {
    hide Add, Xtime, Mul, Applied;
    var v := PowersOf(b);
    MulByPowers(b);
    MulIsApplied(b);
    MulTwiceIsApplied(b);
    MulAdds(Xtime(b), b);
    AppliedAdds(Poly(false, true, false, false, true), Poly(true, false, false, true, false), v);
    AppliedAdds(Poly(false, true, true, false, true), Poly(true, true, false, true, false), v);
    AppliedAdds(Poly(false, true, false, true, true), Poly(true, false, true, true, false), v);
    AppliedAdds(Poly(false, false, true, true, true), Poly(false, true, true, true, false), v);
  }

  lemma SumOfApplied(f: Poly, g: Poly, h: Poly, k: Poly, v: Powers)
    ensures Sum(Applied(f, v), Applied(g, v), Applied(h, v), Applied(k, v)) == Applied(Plus(Plus(f, g), Plus(h, k)), v)
  {
    hide Add, Applied;
    AppliedAdds(f, g, v);
    AppliedAdds(h, k, v);
    AppliedAdds(Plus(f, g), Plus(h, k), v);
  }

  lemma UnitUndone(b: bv8)
    ensures InvMix1(Mul(b, 2), b, b, Mul(b, 3)) == b
  {
    hide Add, Xtime, Mul, Sum, Applied;
    MulIsApplied(b);
    MulTwiceIsApplied(b);
    MulThriceIsApplied(b);
    AppliedPowers(PowersOf(b));
    SumOfApplied(Poly(false, false, true, true, true), Poly(true, true, false, true, false),
      Poly(true, false, true, true, false), Poly(true, true, false, true, true), PowersOf(b));
  }

  lemma SecondCancels(b: bv8)
    ensures InvMix1(b, b, Mul(b, 3), Mul(b, 2)) == 0
  {
    hide Add, Xtime, Mul, Sum, Applied;
    MulIsApplied(b);
    MulTwiceIsApplied(b);
    MulThriceIsApplied(b);
    AppliedPowers(PowersOf(b));
    SumOfApplied(Poly(false, true, true, true, false), Poly(true, true, false, true, false),
      Poly(true, true, true, false, true), Poly(false, true, false, false, true), PowersOf(b));
  }

  lemma ThirdCancels(b: bv8)
    ensures InvMix1(b, Mul(b, 3), Mul(b, 2), b) == 0
  {
    hide Add, Xtime, Mul, Sum, Applied;
    MulIsApplied(b);
    MulTwiceIsApplied(b);
    MulThriceIsApplied(b);
    AppliedPowers(PowersOf(b));
    SumOfApplied(Poly(false, true, true, true, false), Poly(true, false, true, true, true),
      Poly(false, true, false, true, true), Poly(true, false, false, true, false), PowersOf(b));
  }

  lemma LastCancels(b: bv8)
    ensures InvMix1(Mul(b, 3), Mul(b, 2), b, b) == 0
  {
    hide Add, Xtime, Mul, Sum, Applied;
    MulIsApplied(b);
    MulTwiceIsApplied(b);
    MulThriceIsApplied(b);
    AppliedPowers(PowersOf(b));
    SumOfApplied(Poly(false, true, false, false, true), Poly(false, true, true, false, true),
      Poly(true, false, true, true, false), Poly(true, false, false, true, false), PowersOf(b));
  }

  lemma Mix1OfUnit(b: bv8)
    ensures Mix1(b, 0, 0, 0) == Mul(b, 2) && Mix1(0, b, 0, 0) == Mul(b, 3)
    ensures Mix1(0, 0, b, 0) == b && Mix1(0, 0, 0, b) == b
  {
    hide Mul;
    MulOfZero();
  }

  lemma MulOfZero()
    ensures Mul(0, 2) == 0 && Mul(0, 3) == 0
  {}

  lemma ColsUndone(b: bv8)
    ensures InvMixCol(MixCol(Col(b, 0, 0, 0))) == Col(b, 0, 0, 0)
    ensures InvMixCol(MixCol(Col(0, b, 0, 0))) == Col(0, b, 0, 0)
    ensures InvMixCol(MixCol(Col(0, 0, b, 0))) == Col(0, 0, b, 0)
    ensures InvMixCol(MixCol(Col(0, 0, 0, b))) == Col(0, 0, 0, b)
  {
    hide Mix1, InvMix1, Mul;
    Mix1OfUnit(b);
    UnitUndone(b);
    SecondCancels(b);
    ThirdCancels(b);
    LastCancels(b);
  }

  lemma UndoneAdds(x: Col, y: Col)
    requires InvMixCol(MixCol(x)) == x && InvMixCol(MixCol(y)) == y
    ensures InvMixCol(MixCol(Xor(x, y))) == Xor(x, y)
  {
    hide MixCol, InvMixCol, Xor;
    MixColAdds(x, y);
    InvMixColAdds(MixCol(x), MixCol(y));
  }

  // ... which generate all columns.
  lemma MixColUndone(x: Col)
    ensures InvMixCol(MixCol(x)) == x
  {
    hide MixCol, InvMixCol;
    ColsUndone(x.a);
    ColsUndone(x.b);
    ColsUndone(x.c);
    ColsUndone(x.d);
    UndoneAdds(Col(x.a, 0, 0, 0), Col(0, x.b, 0, 0));
    UndoneAdds(Col(0, 0, x.c, 0), Col(0, 0, 0, x.d));
    assert Xor(Col(x.a, 0, 0, 0), Col(0, x.b, 0, 0)) == Col(x.a, x.b, 0, 0);
    assert Xor(Col(0, 0, x.c, 0), Col(0, 0, 0, x.d)) == Col(0, 0, x.c, x.d);
    UndoneAdds(Col(x.a, x.b, 0, 0), Col(0, 0, x.c, x.d));
    assert Xor(Col(x.a, x.b, 0, 0), Col(0, 0, x.c, x.d)) == x;
  }

  // Undoing the column mixing: the two matrices are inverse over GF(2^8).
  lemma MixUndone(s: State)
    ensures InvMix(Mix(s)) == s
  {
    hide MixCol, InvMixCol;
    MixColUndone(s.c0);
    MixColUndone(s.c1);
    MixColUndone(s.c2);
    MixColUndone(s.c3);
  }

  // The state after n full rounds (FIPS 197, section 5.1).
  function Round(s: State, w: seq<bv32>, r: nat): State
    requires 4 * r + 4 <= |w|
  {
    AddKey(Mix(Shift(Sub(s))), w, r)
  }

  function Rounds(s: State, w: seq<bv32>, n: nat): State
    requires 4 * n + 4 <= |w|
  {
    if n == 0 then AddKey(s, w, 0) else Round(Rounds(s, w, n - 1), w, n)
  }

  function Cipher(w: seq<bv32>, nr: nat, s: State): State
    requires 0 < nr && 4 * nr + 4 <= |w|
  {
    AddKey(Shift(Sub(Rounds(s, w, nr - 1))), w, nr)
  }

  // The inverse rounds hi down to lo (FIPS 197, section 5.3).
  function InvRound(s: State, w: seq<bv32>, r: nat): State
    requires 4 * r + 4 <= |w|
  {
    InvMix(AddKey(InvSub(InvShift(s)), w, r))
  }

  function InvRounds(s: State, w: seq<bv32>, hi: nat, lo: nat): State
    requires 4 * hi + 4 <= |w|
    decreases hi + 1 - lo
  {
    if hi < lo then s else InvRound(InvRounds(s, w, hi, lo + 1), w, lo)
  }

  function InvCipher(w: seq<bv32>, nr: nat, s: State): State
    requires 0 < nr && 4 * nr + 4 <= |w|
  {
    AddKey(InvSub(InvShift(InvRounds(AddKey(s, w, nr), w, nr - 1, 1))), w, 0)
  }

  // One inverse round takes the state between two substitutions back by one round.
  lemma RoundUndone(s: State, w: seq<bv32>, r: nat)
    requires 4 * r + 4 <= |w|
    ensures InvRound(Shift(Sub(Round(s, w, r))), w, r) == Shift(Sub(s))
  {
    hide Sub, InvSub, Shift, InvShift, Mix, InvMix, AddKey;
    var t := Round(s, w, r);
    ShiftUndone(Sub(t));
    SubUndone(t);
    AddKeyUndoes(Mix(Shift(Sub(s))), w, r);
    MixUndone(Shift(Sub(s)));
  }

  lemma {:induction false} RoundsUndone(s: State, w: seq<bv32>, hi: nat, lo: nat)
    requires 4 * hi + 4 <= |w| && 1 <= lo <= hi + 1
    ensures InvRounds(Shift(Sub(Rounds(s, w, hi))), w, hi, lo) == Shift(Sub(Rounds(s, w, lo - 1)))
    decreases hi + 1 - lo
  {
    hide Sub, Shift, Round, InvRound;
    if lo <= hi {
      RoundsUndone(s, w, hi, lo + 1);
      RoundUndone(Rounds(s, w, lo - 1), w, lo);
    }
  }

  // Decryption undoes encryption, whatever the round keys and however many rounds.
  lemma CipherUndone(w: seq<bv32>, nr: nat, s: State)
    requires 0 < nr && 4 * nr + 4 <= |w|
    ensures InvCipher(w, nr, Cipher(w, nr, s)) == s
  {
    hide Sub, InvSub, Shift, InvShift, AddKey, InvRounds;
    var t := Rounds(s, w, nr - 1);
    AddKeyUndoes(Shift(Sub(t)), w, nr);
    RoundsUndone(s, w, nr - 1, 1);
    ShiftUndone(Sub(Rounds(s, w, 0)));
    SubUndone(Rounds(s, w, 0));
    AddKeyUndoes(s, w, 0);
  }
}
