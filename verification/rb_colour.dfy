/** The red-black rules of tserver/rb_tree.c and the colour cases of its two fix-up loops. */
module RbColour {
  import opened RbShape

  function Own(red: bool): nat { if red then 0 else 1 }

  // No red node has a red child, and every way down passes h black nodes.
  ghost predicate Rb(t: Tree, h: int) {
    match t
    case Nil => h == 0
    case Fork(l, _, red, r) => Rb(l, h - Own(red)) && Rb(r, h - Own(red)) && (red ==> !l.Red() && !r.Red())
  }

  // As Rb, except that a red root may have red children.
  ghost predicate Loose(t: Tree, h: int) {
    match t
    case Nil => h == 0
    case Fork(l, _, red, r) => Rb(l, h - Own(red)) && Rb(r, h - Own(red))
  }

  // A subtree of black height h, with a red root if `red`, may hang in the hole of c.
  ghost predicate RbPath(c: Path, h: int, red: bool) {
    match c
    case Top => !red
    case In(_, _, nred, sib, up) =>
      Rb(sib, h) && (nred ==> !sib.Red() && !red) && RbPath(up, h + Own(nred), nred)
  }

  // A red-black tree: some black height, and a black root.
  ghost predicate RedBlack(s: Tree) { !s.Red() && exists h :: Rb(s, h) }

  lemma {:induction false} RbNonNegative(t: Tree, h: int)
    requires Rb(t, h)
    ensures h >= 0
  {
    if t.Fork? { RbNonNegative(t.l, h - Own(t.red)); }
  }

  lemma {:induction false} PlugRb(c: Path, t: Tree, h: int)
    requires Rb(t, h) && RbPath(c, h, t.Red())
    ensures RedBlack(c.Plug(t))
  {
    if c.In? { PlugRb(c.up, Join(c.d, t, c.n, c.red, c.sib), h + Own(c.red)); }
  }

  lemma {:induction false} SplitRb(c: Path, t: Tree) returns (h: int)
    requires RedBlack(c.Plug(t))
    ensures Rb(t, h) && RbPath(c, h, t.Red())
  {
    if c.In? {
      h := SplitRb(c.up, Join(c.d, t, c.n, c.red, c.sib));
      h := h - Own(c.red);
    } else {
      h :| Rb(t, h);
    }
  }

  // Between two turns of the insertion fix-up the tree is red-black but for the edge above the red node.
  ghost predicate InsertOk(c: Path, t: Tree, h: int) { t.Red() && Rb(t, h) && RbPath(c, h, false) }

  lemma {:induction false} InsertHasGrandparent(c: Path, t: Tree, h: int)
    requires InsertOk(c, t, h) && c.In? && c.red
    ensures c.up.In? && !c.up.red
  {
    assert RbPath(c.up, h, true);
  }

  ghost function Recoloured(c: Path, t: Tree): Tree
    requires c.In? && c.up.In? && c.up.sib.Fork?
  {
    Join(c.up.d, Join(c.d, t, c.n, false, c.sib), c.up.n, true, c.up.sib.(red := false))
  }

  lemma {:induction false} InsertRedUncle(c: Path, t: Tree, h: int)
    requires InsertOk(c, t, h) && c.In? && c.red && c.up.In? && c.up.sib.Red()
    ensures InsertOk(c.up.up, Recoloured(c, t), h + 1)
  {
    assert RbPath(c.up, h, true) && Rb(c.up.sib, h);
    assert Rb(Join(c.d, t, c.n, false, c.sib), h + 1);
    assert Rb(c.up.sib.(red := false), h + 1);
  }

  lemma {:induction false} InsertInner(c: Path, t: Tree, h: int)
    requires InsertOk(c, t, h) && c.In? && c.red && c.up.In? && c.d != c.up.d
    ensures var e := c.up.d;
            && CanRotate(Join(c.d, t, c.n, c.red, c.sib), e)
            && InsertOk(In(e, t.n, true, t.Kid(c.d), c.up), Join(e, c.sib, c.n, true, t.Kid(e)), h)
            && Rotate(Join(c.d, t, c.n, c.red, c.sib), e) == Join(e, Join(e, c.sib, c.n, true, t.Kid(e)), t.n, true, t.Kid(c.d))
  {}

  lemma {:induction false} InsertOuter(c: Path, t: Tree, h: int)
    requires InsertOk(c, t, h) && c.In? && c.red && c.up.In? && !c.up.sib.Red() && c.d == c.up.d
    ensures var e := c.up.d;
            var g := Join(e.Other(), c.up.sib, c.up.n, true, c.sib);
            && CanRotate(Join(e, Join(e, t, c.n, false, c.sib), c.up.n, true, c.up.sib), e.Other())
            && InsertOk(In(e, c.n, false, g, c.up.up), t, h)
            && Rotate(Join(e, Join(e, t, c.n, false, c.sib), c.up.n, true, c.up.sib), e.Other()) == Join(e, t, c.n, false, g)
  {
    assert RbPath(c.up, h, true);
    assert Rb(Join(c.up.d.Other(), c.up.sib, c.up.n, true, c.sib), h);
  }

  lemma {:induction false} InsertDone(c: Path, t: Tree, h: int)
    requires InsertOk(c, t, h) && (c.In? ==> !c.red)
    ensures c.In? ==> RedBlack(c.Plug(t))
    ensures c.Top? ==> RedBlack(t.(red := false))
  {
    if c.In? {
      PlugRb(c, t, h);
    } else {
      assert Rb(t.(red := false), h + 1);
    }
  }

  // Between two turns of the deletion fix-up the subtree t is one black node short.
  ghost predicate DeleteOk(c: Path, t: Tree, h: int) {
    Loose(t, h) && (c.In? ==> RbPath(c, h + 1, false))
  }

  lemma {:induction false} DeleteHasSibling(c: Path, t: Tree, h: int)
    requires DeleteOk(c, t, h) && c.In? && !t.Red()
    ensures Rb(t, h) && c.sib.Fork?
    ensures c.sib.Red() ==> !c.red && c.sib.l.Fork? && c.sib.r.Fork?
  {
    RbNonNegative(t, h);
    assert Rb(c.sib, h + 1);
    assert c.sib.Red() ==> Rb(c.sib.l, h + 1) && Rb(c.sib.r, h + 1);
  }

  lemma {:induction false} DeleteRedSibling(c: Path, t: Tree, h: int)
    requires DeleteOk(c, t, h) && c.In? && !t.Red() && c.sib.Red()
    ensures var w, o := c.sib, c.d.Other();
            var s := Join(c.d, t, c.n, true, w.(red := false));
            && CanRotate(s, c.d)
            && Rotate(s, c.d) == Join(c.d, Join(c.d, t, c.n, true, w.Kid(c.d)), w.n, false, w.Kid(o))
            && DeleteOk(In(c.d, c.n, true, w.Kid(c.d), In(c.d, w.n, false, w.Kid(o), c.up)), t, h)
            && !w.Kid(c.d).Red()
  {
    DeleteHasSibling(c, t, h);
  }

  lemma {:induction false} DeleteBlackNephews(c: Path, t: Tree, h: int)
    requires DeleteOk(c, t, h) && c.In? && !t.Red() && c.sib.Fork? && !c.sib.red && !c.sib.l.Red() && !c.sib.r.Red()
    ensures DeleteOk(c.up, Join(c.d, t, c.n, c.red, c.sib.(red := true)), h + Own(c.red))
  {
    DeleteHasSibling(c, t, h);
    assert Rb(c.sib, h + 1);
    assert RbPath(c.up, h + 1 + Own(c.red), c.red);
    assert Rb(c.sib.(red := true), h);
  }

  lemma {:induction false} DeleteNearNephew(c: Path, t: Tree, h: int)
    requires DeleteOk(c, t, h) && c.In? && !t.Red() && c.sib.Fork? && !c.sib.red
    requires c.sib.Kid(c.d).Red() && !c.sib.Kid(c.d.Other()).Red()
    ensures var w, o := c.sib, c.d.Other();
            var v := w.Kid(c.d);
            var s := Join(c.d, v.(red := false), w.n, true, w.Kid(o));
            && CanRotate(s, o)
            && Rotate(s, o).Fork? && !Rotate(s, o).red && Rotate(s, o).Kid(o).Red()
            && DeleteOk(c.(sib := Rotate(s, o)), t, h)
  {
    var w, o := c.sib, c.d.Other();
    var v := w.Kid(c.d);
    assert Rb(w, h + 1) && Rb(v, h);
    assert Rb(Join(o, w.Kid(o), w.n, true, v.Kid(o)), h);
  }

  lemma {:induction false} DeleteFarNephew(c: Path, t: Tree, h: int)
    requires DeleteOk(c, t, h) && c.In? && !t.Red() && c.sib.Fork? && !c.sib.red && c.sib.Kid(c.d.Other()).Red()
    ensures var w, o := c.sib, c.d.Other();
            var far := w.Kid(o).(red := false);
            var s := Join(c.d, t, c.n, false, Join(o, far, w.n, c.red, w.Kid(c.d)));
            && CanRotate(s, c.d)
            && RedBlack(c.up.Plug(Rotate(s, c.d)))
            && DeleteOk(Top, c.up.Plug(Rotate(s, c.d)), RedBlackHeight(c.up.Plug(Rotate(s, c.d))))
  {
    DeleteHasSibling(c, t, h);
    var w, o := c.sib, c.d.Other();
    var far := w.Kid(o).(red := false);
    var s := Join(c.d, t, c.n, false, Join(o, far, w.n, c.red, w.Kid(c.d)));
    assert Rb(w, h + 1) && Rb(w.Kid(o), h);
    assert Rb(far, h + 1);
    assert Rb(Join(c.d, t, c.n, false, w.Kid(c.d)), h + 1);
    PlugRb(c.up, Rotate(s, c.d), h + 1 + Own(c.red));
  }

  ghost function RedBlackHeight(s: Tree): (h: int)
    requires RedBlack(s)
    ensures Rb(s, h)
  {
    var h :| Rb(s, h); h
  }

  lemma {:induction false} DeleteDone(c: Path, t: Tree, h: int)
    requires DeleteOk(c, t, h) && (c.In? ==> t.Red())
    ensures t.Fork? ==> RedBlack(c.Plug(t.(red := false)))
    ensures t.Nil? ==> RedBlack(c.Plug(t))
  {
    if t.Fork? {
      assert Rb(t.(red := false), h + 1 - Own(t.red));
      if c.In? { PlugRb(c, t.(red := false), h + 1); }
    } else {
      assert Rb(t, 0);
    }
  }

  // Renaming a node on the way up changes no colour.
  lemma {:induction false} RbPathRename(x: Path, d: Side, n: Node, s: Node, red: bool, sib: Tree, up: Path, h: int, r: bool)
    requires RbPath(x.Then(In(d, n, red, sib, up)), h, r)
    ensures RbPath(x.Then(In(d, s, red, sib, up)), h, r)
  {
    if x.In? { RbPathRename(x.up, d, n, s, red, sib, up, h + Own(x.red), x.red); }
  }

  // Taking out a node with at most one child: nothing to repair if it was red, one black node short otherwise.
  lemma {:induction false} UnhookColours(c: Path, t: Tree, k: Tree, h: int)
    requires Rb(t, h) && RbPath(c, h, t.Red()) && t.Fork? && ((t.l == Nil && k == t.r) || (t.r == Nil && k == t.l))
    ensures t.red ==> RedBlack(c.Plug(k))
    ensures !t.red ==> DeleteOk(c, k, h - 1)
  {
    if t.red {
      PlugRb(c, k, h);
    }
  }

  function Max(a: nat, b: nat): nat { if a < b then b else a }

  ghost function Height(t: Tree): nat {
    match t case Nil => 0 case Fork(l, _, _, r) => 1 + Max(Height(l), Height(r))
  }

  function Pow2(n: nat): nat { if n == 0 then 1 else 2 * Pow2(n - 1) }

  lemma {:induction false} RbSize(t: Tree, h: nat)
    requires Rb(t, h)
    ensures Pow2(h) <= |t.InOrder()| + 1
    ensures Height(t) <= 2 * h + (if t.Red() then 1 else 0)
  {
    if t.Fork? {
      RbNonNegative(t.l, h - Own(t.red));
      RbSize(t.l, h - Own(t.red));
      RbSize(t.r, h - Own(t.red));
    }
  }

  lemma {:induction false} Pow2Grows(a: nat, b: nat)
    requires a <= b
    ensures Pow2(a) <= Pow2(b)
  {
    if a < b { Pow2Grows(a, b - 1); }
  }

  // The height is at most twice the binary logarithm of the number of nodes plus one.
  lemma {:induction false} HeightBound(s: Tree)
    requires RedBlack(s)
    ensures Pow2((Height(s) + 1) / 2) <= |s.InOrder()| + 1
  {
    var h :| Rb(s, h);
    RbNonNegative(s, h);
    RbSize(s, h);
    Pow2Grows((Height(s) + 1) / 2, h);
  }

  // So is the length of every descent.
  lemma {:induction false} DepthBound(c: Path, t: Tree)
    ensures c.Depth() + Height(t) <= Height(c.Plug(t))
  {
    if c.In? { DepthBound(c.up, Join(c.d, t, c.n, c.red, c.sib)); }
  }
}
