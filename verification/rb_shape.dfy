/** The pointer structure of tserver/rb_tree.c, seen as values.

    A `Graph` is a snapshot of the link and colour fields of the nodes. A `Tree` is the tree those links
    draw; a `Path` is what surrounds a subtree on the way up to the root, so that a (path, tree) pair is
    a position in the tree: the place a node pointer of the source points at. `Fits` says that the
    snapshot draws exactly that position. Every pointer move of the source is a step between positions. */
module RbShape {

  datatype Side = L | R {
    function Other(): Side { if L? then R else L }
  }

  class Node {
    var key: int
    var left: Node?
    var right: Node?
    var parent: Node?
    var red: bool

    constructor ()
      ensures left == right == parent == null
    {
      left, right, parent := null, null, null;
    }
  }

  datatype Cell = Cell(left: Node?, right: Node?, parent: Node?, red: bool) {
    function Kid(d: Side): Node? { if d.L? then left else right }
    function WithKid(d: Side, k: Node?): Cell { if d.L? then this.(left := k) else this.(right := k) }
  }

  datatype Graph = Graph(root: Node, nil: Node, m: map<Node, Cell>)

  datatype Tree = Nil | Fork(l: Tree, n: Node, red: bool, r: Tree) {
    ghost function Nodes(): set<Node> {
      match this case Nil => {} case Fork(l, n, _, r) => l.Nodes() + {n} + r.Nodes()
    }

    ghost function InOrder(): seq<Node> {
      match this case Nil => [] case Fork(l, n, _, r) => l.InOrder() + [n] + r.InOrder()
    }

    // No node occurs twice.
    ghost predicate Sep() {
      match this
      case Nil => true
      case Fork(l, n, _, r) =>
        n !in l.Nodes() && n !in r.Nodes() && l.Nodes() !! r.Nodes() && l.Sep() && r.Sep()
    }

    // The links below `p` draw this tree, and `p` points up to `up`.
    ghost predicate Links(p: Node?, up: Node?, g: Graph) {
      match this
      case Nil => p == g.nil
      case Fork(l, n, red, r) =>
        && p == n && n != g.nil && n in g.m && g.m[n].parent == up && g.m[n].red == red
        && l.Links(g.m[n].left, n, g) && r.Links(g.m[n].right, n, g)
    }

    ghost function Kid(d: Side): Tree requires Fork? { if d.L? then l else r }

    ghost predicate Red() { Fork? && red }
  }

  // The node n with t on side d and sib on the other side.
  ghost function Join(d: Side, t: Tree, n: Node, red: bool, sib: Tree): Tree {
    if d.L? then Fork(t, n, red, sib) else Fork(sib, n, red, t)
  }

  datatype Path = Top | In(d: Side, n: Node, red: bool, sib: Tree, up: Path) {
    ghost function Nodes(): set<Node> {
      match this case Top => {} case In(_, n, _, sib, up) => {n} + sib.Nodes() + up.Nodes()
    }

    ghost function Depth(): nat { match this case Top => 0 case In(_, _, _, _, up) => 1 + up.Depth() }

    ghost function Before(): seq<Node> {
      match this case Top => []
      case In(d, n, _, sib, up) => if d.L? then up.Before() else up.Before() + sib.InOrder() + [n]
    }

    ghost function After(): seq<Node> {
      match this case Top => []
      case In(d, n, _, sib, up) => if d.L? then [n] + sib.InOrder() + up.After() else up.After()
    }

    // The nodes just before and just after the hole.
    ghost function Prev(): Node? {
      match this case Top => null case In(d, n, _, _, up) => if d.R? then n else up.Prev()
    }

    ghost function Next(): Node? {
      match this case Top => null case In(d, n, _, _, up) => if d.L? then n else up.Next()
    }

    ghost predicate Sep() {
      match this
      case Top => true
      case In(_, n, _, sib, up) =>
        n !in sib.Nodes() && n !in up.Nodes() && sib.Nodes() !! up.Nodes() && sib.Sep() && up.Sep()
    }

    // `p` hangs in the hole of this path.
    ghost predicate Links(p: Node?, g: Graph) {
      match this
      case Top => p == g.root
      case In(d, n, red, sib, up) =>
        && n != g.nil && n in g.m && g.m[n].red == red && g.m[n].Kid(d) == p
        && sib.Links(g.m[n].Kid(d.Other()), n, g)
        && g.root in Nodes() && (up.In? ==> g.m[n].parent == up.n) && up.Links(n, g)
    }

    ghost function Plug(t: Tree): Tree {
      match this case Top => t case In(d, n, red, sib, up) => up.Plug(Join(d, t, n, red, sib))
    }

    ghost function Then(outer: Path): Path {
      match this case Top => outer case In(d, n, red, sib, up) => In(d, n, red, sib, up.Then(outer))
    }
  }

  ghost predicate Agree(g: Graph, g': Graph, s: set<Node>) {
    g.nil == g'.nil && forall n :: n in s && n in g.m ==> n in g'.m && g'.m[n] == g.m[n]
  }

  lemma {:induction false} Frame(t: Tree, p: Node?, up: Node?, g: Graph, g': Graph)
    requires t.Links(p, up, g) && Agree(g, g', t.Nodes())
    ensures t.Links(p, up, g')
  {
    if t.Fork? {
      Frame(t.l, g.m[t.n].left, t.n, g, g');
      Frame(t.r, g.m[t.n].right, t.n, g, g');
    }
  }

  lemma {:induction false} FramePath(c: Path, p: Node?, g: Graph, g': Graph)
    requires c.Links(p, g) && Agree(g, g', c.Nodes()) && g.root == g'.root
    ensures c.Links(p, g')
  {
    if c.In? {
      Frame(c.sib, g.m[c.n].Kid(c.d.Other()), c.n, g, g');
      FramePath(c.up, c.n, g, g');
    }
  }

  // As Frame, when the root of t has been given another parent.
  lemma {:induction false} FrameUnder(t: Tree, p: Node?, up: Node?, g: Graph, up': Node?, g': Graph)
    requires t.Sep() && t.Links(p, up, g)
    requires t.Nil? ==> g.nil == g'.nil
    requires t.Fork? ==> Agree(g, g', t.l.Nodes() + t.r.Nodes()) && t.n in g'.m && g'.m[t.n] == g.m[t.n].(parent := up')
    ensures t.Links(p, up', g')
  {
    if t.Fork? {
      Frame(t.l, g.m[t.n].left, t.n, g, g');
      Frame(t.r, g.m[t.n].right, t.n, g, g');
    }
  }

  // The snapshot g draws the tree c.Plug(t), and the pointer p is at its subtree t.
  ghost predicate Fits(c: Path, t: Tree, p: Node?, g: Graph) {
    && c.Sep() && t.Sep() && c.Nodes() !! t.Nodes()
    && c.Links(p, g)
    && t.Links(p, if c.In? then c.n else if t.Fork? && t.n in g.m then g.m[t.n].parent else null, g)
  }

  lemma {:induction false} ZoomOut(c: Path, t: Tree, p: Node?, g: Graph)
    requires Fits(c, t, p, g) && c.In?
    ensures Fits(c.up, Join(c.d, t, c.n, c.red, c.sib), c.n, g)
    ensures t.Fork? ==> g.m[t.n].parent == c.n
    ensures p != g.m[c.n].Kid(c.d.Other()) || t.Nil?
  {
  }

  lemma {:induction false} ZoomIn(c: Path, t: Tree, p: Node?, g: Graph, d: Side)
    requires Fits(c, t, p, g) && t.Fork?
    ensures Fits(In(d, t.n, t.red, t.Kid(d.Other()), c), t.Kid(d), g.m[t.n].Kid(d), g)
  {
    RootInside(c, t, p, g);
  }

  lemma {:induction false} RootInside(c: Path, t: Tree, p: Node?, g: Graph)
    requires Fits(c, t, p, g) && t.Fork?
    ensures g.root in c.Nodes() + {t.n} && (g.root == p <==> c.Top?)
  {
  }

  lemma RootApart(c: Path, t: Tree, p: Node?, g: Graph)
    requires Fits(c, t, p, g) && t.Fork?
    ensures t.n !in c.Nodes() + t.l.Nodes() + t.r.Nodes()
  {}

  lemma {:induction false} Paint(c: Path, t: Tree, n: Node, g: Graph, red: bool, g': Graph)
    requires Fits(c, t, n, g) && t.Fork?
    requires g' == g.(m := g.m[n := g.m[n].(red := red)])
    ensures Fits(c, t.(red := red), n, g')
  {
    Frame(t.l, g.m[t.n].left, t.n, g, g');
    Frame(t.r, g.m[t.n].right, t.n, g, g');
    FramePath(c, n, g, g');
  }

  ghost predicate CanRotate(t: Tree, d: Side) { t.Fork? && t.Kid(d.Other()).Fork? }

  // The rotation of t towards side d.
  ghost function Rotate(t: Tree, d: Side): Tree
    requires CanRotate(t, d)
  {
    var y := t.Kid(d.Other());
    Join(d, Join(d, t.Kid(d), t.n, t.red, y.Kid(d)), y.n, y.red, y.Kid(d.Other()))
  }

  lemma {:induction false} RotateSame(t: Tree, d: Side)
    requires CanRotate(t, d)
    ensures Rotate(t, d).InOrder() == t.InOrder()
    ensures Rotate(t, d).Nodes() == t.Nodes() && (t.Sep() ==> Rotate(t, d).Sep())
  {
    var t', y := Rotate(t, d), t.Kid(d.Other());
    assert t'.Kid(d).InOrder() == if d.L? then t.l.InOrder() + [t.n] + y.l.InOrder() else y.r.InOrder() + [t.n] + t.r.InOrder();
    if t.Sep() { assert y.Sep(); assert t'.Kid(d).Sep(); }
  }

  // What the writes of a rotation at x towards side d do to the snapshot.
  ghost predicate Rotated(g: Graph, g': Graph, x: Node, d: Side) {
    && x in g.m && g.m[x].Kid(d.Other()) != null
    && var y := g.m[x].Kid(d.Other());
    && y in g.m && y != x
    && var b, p := g.m[y].Kid(d), g.m[x].parent;
    && g'.nil == g.nil
    && g'.root == (if x == g.root then y else g.root)
    && x in g'.m && g'.m[x] == g.m[x].WithKid(d.Other(), b).(parent := y)
    && y in g'.m && g'.m[y] == g.m[y].WithKid(d, x).(parent := p)
    && (b != g.nil && b != null && b in g.m ==> b in g'.m && g'.m[b] == g.m[b].(parent := x))
    && (x != g.root && p != null && p in g.m ==> p in g'.m && g'.m[p] == g.m[p].WithKid(if g.m[p].Kid(d) == x then d else d.Other(), y))
    && (forall n :: n in g.m && n != x && n != y && (n != b || b == g.nil) && (n != p || x == g.root) ==> n in g'.m && g'.m[n] == g.m[n])
  }

  // The child slot that held x (the root pointer, or a link of the parent) holds y instead.
  lemma {:induction false} Rehang(c: Path, x: Node, y: Node, g: Graph, g': Graph)
    requires c.Sep() && c.Links(x, g) && x !in c.Nodes() && x != g.nil
    requires g'.nil == g.nil && g'.root == (if x == g.root then y else g.root)
    requires c.In? ==> c.n in g.m && c.n in g'.m && Agree(g, g', c.Nodes() - {c.n})
    requires c.In? ==> g'.m[c.n] == g.m[c.n].WithKid(if g.m[c.n].left == x then L else R, y)
    ensures c.Links(y, g')
  {
    if c.In? {
      var o := g.m[c.n].Kid(c.d.Other());
      assert c.sib.Links(o, c.n, g) && o != x;
      Frame(c.sib, o, c.n, g, g');
      FramePath(c.up, c.n, g, g');
    }
  }

  // The node that went down, ...
  lemma {:induction false} RotateLower(t: Tree, x: Node, up: Node?, g: Graph, d: Side, g': Graph)
    requires CanRotate(t, d) && t.Sep() && t.Links(x, up, g)
    requires Rotated(g, g', x, d) && (x == g.root || up == null || up !in t.Nodes())
    ensures Rotate(t, d).Kid(d).Links(x, t.Kid(d.Other()).n, g')
  {
    var ty := t.Kid(d.Other());
    var y, b := ty.n, ty.Kid(d);
    assert ty.Links(g.m[x].Kid(d.Other()), x, g);
    assert b.Links(g.m[y].Kid(d), y, g);
    assert ty.Sep() && b.Sep() && b.Nodes() <= ty.Nodes();
    assert b.Fork? ==> b.l.Nodes() <= b.Nodes() && b.r.Nodes() <= b.Nodes();
    Frame(t.Kid(d), g.m[x].Kid(d), x, g, g');
    FrameUnder(b, g.m[y].Kid(d), y, g, x, g');
  }

  // ... and the one that came up.
  lemma {:induction false} RotateLinks(t: Tree, x: Node, up: Node?, g: Graph, d: Side, g': Graph)
    requires CanRotate(t, d) && t.Sep() && t.Links(x, up, g)
    requires Rotated(g, g', x, d) && (x == g.root || up == null || up !in t.Nodes())
    ensures Rotate(t, d).Links(t.Kid(d.Other()).n, up, g')
  {
    var ty := t.Kid(d.Other());
    var y, b := ty.n, ty.Kid(d);
    assert ty.Links(g.m[x].Kid(d.Other()), x, g);
    assert b.Links(g.m[y].Kid(d), y, g);
    assert ty.Sep() && b.Sep() && b.Nodes() <= ty.Nodes();
    Frame(ty.Kid(d.Other()), g.m[y].Kid(d.Other()), y, g, g');
    RotateLower(t, x, up, g, d, g');
  }

  lemma {:induction false} RotateFits(c: Path, t: Tree, x: Node, g: Graph, d: Side, g': Graph)
    requires Fits(c, t, x, g) && CanRotate(t, d)
    requires Rotated(g, g', x, d)
    ensures Fits(c, Rotate(t, d), t.Kid(d.Other()).n, g')
  {
    var ty := t.Kid(d.Other());
    assert ty.Links(g.m[x].Kid(d.Other()), x, g);
    assert ty.Kid(d).Links(g.m[ty.n].Kid(d), ty.n, g);
    RotateSame(t, d);
    RootInside(c, t, x, g);
    RotateLinks(t, x, g.m[x].parent, g, d, g');
    Rehang(c, x, ty.n, g, g');
  }

  // The whole snapshot draws the tree s.
  ghost predicate Draws(s: Tree, g: Graph) { Fits(Top, s, g.root, g) }

  ghost function Ptr(t: Tree, nil: Node): Node { if t.Fork? then t.n else nil }

  lemma {:induction false} PlugNodes(c: Path, t: Tree)
    ensures c.Plug(t).Nodes() == c.Nodes() + t.Nodes()
  {
    if c.In? { PlugNodes(c.up, Join(c.d, t, c.n, c.red, c.sib)); }
  }

  lemma JoinOrder(c: Path, t: Tree)
    requires c.In?
    ensures c.up.Before() + Join(c.d, t, c.n, c.red, c.sib).InOrder() + c.up.After() == c.Before() + t.InOrder() + c.After()
  {
    if c.d.L? {
      Regroup(c.up.Before(), t.InOrder(), [c.n] + c.sib.InOrder(), c.up.After());
    } else {
      Regroup(c.up.Before(), c.sib.InOrder() + [c.n], t.InOrder(), c.up.After());
    }
  }

  lemma Regroup(a: seq<Node>, b: seq<Node>, c: seq<Node>, d: seq<Node>)
    ensures a + (b + c) + d == (a + b) + c + d && a + (b + c) + d == a + b + (c + d)
  {}

  lemma {:induction false} PlugOrder(c: Path, t: Tree)
    ensures c.Plug(t).InOrder() == c.Before() + t.InOrder() + c.After()
  {
    if c.In? {
      PlugOrder(c.up, Join(c.d, t, c.n, c.red, c.sib));
      JoinOrder(c, t);
    }
  }

  lemma {:induction false} HoleNeighbours(c: Path)
    ensures if c.Before() == [] then c.Prev() == null else c.Prev() == c.Before()[|c.Before()| - 1]
    ensures if c.After() == [] then c.Next() == null else c.Next() == c.After()[0]
  {
    if c.In? { HoleNeighbours(c.up); }
  }

  lemma HolePrevNext(c: Path)
    ensures var s, at := c.Plug(Nil).InOrder(), |c.Before()|;
            && at <= |s| && (at > 0 <==> c.Prev() != null) && (at > 0 ==> s[at - 1] == c.Prev())
            && (at < |s| <==> c.Next() != null) && (at < |s| ==> s[at] == c.Next())
  {
    HoleNeighbours(c);
    PlugOrder(c, Nil);
  }

  lemma {:induction false} PlugThen(x: Path, c: Path, t: Tree)
    ensures x.Then(c).Plug(t) == c.Plug(x.Plug(t))
  {
    if x.In? { PlugThen(x.up, c, Join(x.d, t, x.n, x.red, x.sib)); }
  }

  // Every position of a drawn tree is drawn ...
  lemma {:induction false} Unplug(c: Path, t: Tree, g: Graph)
    requires Draws(c.Plug(t), g)
    ensures Fits(c, t, Ptr(t, g.nil), g)
  {
    if c.In? {
      var s := Join(c.d, t, c.n, c.red, c.sib);
      Unplug(c.up, s, g);
      ZoomIn(c.up, s, c.n, g, c.d);
      assert t.Links(g.m[c.n].Kid(c.d), c.n, g);
    }
  }

  // ... and only then.
  lemma {:induction false} Replug(c: Path, t: Tree, p: Node?, g: Graph)
    requires Fits(c, t, p, g)
    ensures Draws(c.Plug(t), g)
  {
    if c.In? {
      ZoomOut(c, t, p, g);
      Replug(c.up, Join(c.d, t, c.n, c.red, c.sib), c.n, g);
    }
  }

  // A new leaf x in the empty hole of c.
  lemma {:induction false} Graft(c: Path, x: Node, g: Graph, g': Graph)
    requires Draws(c.Plug(Nil), g) && c.In? && x !in c.Nodes() && x != g.nil
    requires g'.nil == g.nil && g'.root == g.root && Agree(g, g', c.Nodes() - {c.n})
    requires c.n in g.m && c.n in g'.m && g'.m[c.n] == g.m[c.n].WithKid(c.d, x)
    requires x in g'.m && g'.m[x] == Cell(g.nil, g.nil, c.n, true)
    ensures Draws(c.Plug(Fork(Nil, x, true, Nil)), g')
  {
    Unplug(c, Nil, g);
    Frame(c.sib, g.m[c.n].Kid(c.d.Other()), c.n, g, g');
    FramePath(c.up, c.n, g, g');
    Replug(c, Fork(Nil, x, true, Nil), x, g');
  }

  // Every node of a tree has a position in it.
  lemma {:induction false} Locate(c: Path, s: Tree, x: Node) returns (c': Path, t: Tree)
    requires x in s.Nodes()
    ensures c'.Plug(t) == c.Plug(s) && t.Fork? && t.n == x
    decreases s
  {
    if x == s.n {
      c', t := c, s;
    } else if x in s.l.Nodes() {
      c', t := Locate(In(L, s.n, s.red, s.r, c), s.l, x);
    } else {
      c', t := Locate(In(R, s.n, s.red, s.l, c), s.r, x);
    }
  }

  // The only child k of the node x at c moves up into its place.
  ghost predicate Spliced(g: Graph, g': Graph, c: Path, x: Node, k: Tree) {
    && g'.nil == g.nil && g'.root == (if x == g.root then Ptr(k, g.nil) else g.root)
    && (k.Fork? ==> k.n in g.m && k.n in g'.m && g'.m[k.n] == g.m[k.n].(parent := if c.In? then c.n else g.m[k.n].parent))
    && (c.In? ==> c.n in g.m && c.n in g'.m && g'.m[c.n] == g.m[c.n].WithKid(if g.m[c.n].left == x then L else R, Ptr(k, g.nil)))
    && Agree(g, g', c.Nodes() - (if c.In? then {c.n} else {}) + k.Nodes() - (if k.Fork? then {k.n} else {}))
  }

  lemma {:induction false} SpliceFits(c: Path, t: Tree, k: Tree, g: Graph, g': Graph)
    requires Draws(c.Plug(t), g) && t.Fork? && ((t.l == Nil && k == t.r) || (t.r == Nil && k == t.l))
    requires Spliced(g, g', c, t.n, k)
    ensures Draws(c.Plug(k), g')
  {
    Unplug(c, t, g);
    RootInside(c, t, t.n, g);
    assert t.l.Links(g.m[t.n].left, t.n, g) && t.r.Links(g.m[t.n].right, t.n, g);
    assert k.Sep() && k.Links(Ptr(k, g.nil), t.n, g);
    FrameUnder(k, Ptr(k, g.nil), t.n, g, if c.In? then c.n else if k.Fork? then g.m[k.n].parent else null, g');
    Rehang(c, t.n, Ptr(k, g.nil), g, g');
    Replug(c, k, Ptr(k, g.nil), g');
  }

  // The steps of such a takeover: the fields, the slot above, the two links below.
  ghost function Copied(g: Graph, x: Node, s: Node): Graph
    requires x in g.m
  {
    g.(m := g.m[s := g.m[x]])
  }

  ghost function SlotTaken(g: Graph, x: Node, s: Node, p: Node?): Graph {
    if x == g.root then g.(root := s)
    else if p != null && p in g.m then g.(m := g.m[p := g.m[p].WithKid(if g.m[p].left == x then L else R, s)])
    else g
  }

  ghost function KidTold(g: Graph, s: Node, kid: Node): Graph {
    if kid == g.nil || kid !in g.m then g else g.(m := g.m[kid := g.m[kid].(parent := s)])
  }

  // The node s takes over the links and the colour of x, and the neighbours of x are told.
  ghost predicate TookPlace(g: Graph, g': Graph, x: Node, s: Node) {
    && x in g.m
    && var l, r, p := g.m[x].left, g.m[x].right, g.m[x].parent;
    && g'.nil == g.nil && g'.root == (if x == g.root then s else g.root)
    && s in g'.m && g'.m[s] == g.m[x]
    && (l != null && l != g.nil && l in g.m ==> l in g'.m && g'.m[l] == g.m[l].(parent := s))
    && (r != null && r != g.nil && r in g.m ==> r in g'.m && g'.m[r] == g.m[r].(parent := s))
    && (x != g.root && p != null && p in g.m ==> p in g'.m && g'.m[p] == g.m[p].WithKid(if g.m[p].left == x then L else R, s))
    && (forall n :: n in g.m && n != x && n != s && (n != l || n == g.nil) && (n != r || n == g.nil) && (n != p || x == g.root)
          ==> n in g'.m && g'.m[n] == g.m[n])
  }

  lemma SlotKeeps(g: Graph, x: Node, s: Node)
    requires x in g.m && x != s && (x == g.root || g.m[x].parent != s)
    ensures var h := SlotTaken(Copied(g, x, s), x, s, g.m[x].parent);
            s in h.m && h.m[s] == g.m[x] && h.nil == g.nil
  {}

  lemma ToldKeeps(g: Graph, s: Node, kid: Node)
    requires s in g.m && kid != s
    ensures var h := KidTold(g, s, kid);
            s in h.m && h.m[s] == g.m[s] && h.nil == g.nil
  {}

  lemma PlaceTaken(g: Graph, x: Node, s: Node)
    requires x in g.m && s in g.m && g.nil in g.m && x != s && g.m[x].left != null && g.m[x].right != null
    requires var l, r, p := g.m[x].left, g.m[x].right, g.m[x].parent;
             && l in g.m && l != g.nil && l != x && l != s && r in g.m && r != x && r != s && r != l
             && (x != g.root ==> p != null && p in g.m && p != x && p != s && p != l && p != r && p != g.nil)
    ensures var l, r, p := g.m[x].left, g.m[x].right, g.m[x].parent;
            TookPlace(g, KidTold(KidTold(SlotTaken(Copied(g, x, s), x, s, p), s, l), s, r), x, s)
  {}

  lemma {:induction false} TookPlaceFits(c: Path, t: Tree, s: Node, g: Graph, g': Graph)
    requires Draws(c.Plug(t), g) && t.Fork? && s !in t.Nodes() && s !in c.Nodes() && s != g.nil
    requires TookPlace(g, g', t.n, s)
    ensures Draws(c.Plug(t.(n := s)), g')
  {
    Unplug(c, t, g);
    RootInside(c, t, t.n, g);
    assert t.l.Links(g.m[t.n].left, t.n, g) && t.r.Links(g.m[t.n].right, t.n, g);
    assert t.l.Fork? ==> t.l.Sep();
    assert t.r.Fork? ==> t.r.Sep();
    FrameUnder(t.l, g.m[t.n].left, t.n, g, s, g');
    FrameUnder(t.r, g.m[t.n].right, t.n, g, s, g');
    Rehang(c, t.n, s, g, g');
    Replug(c, t.(n := s), s, g');
  }

  // A path that only ever went left.
  ghost predicate Lefty(x: Path) { x.In? ==> x.d.L? && Lefty(x.up) }

  lemma {:induction false} LeftyBefore(x: Path)
    requires Lefty(x)
    ensures x.Before() == []
  {
    if x.In? { LeftyBefore(x.up); }
  }

  // Only the upward link of the root of k still differs.
  ghost function Patch(g: Graph, k: Tree, up: Node): Graph
    requires k.Fork? ==> k.n in g.m
  {
    if k.Fork? then g.(m := g.m[k.n := g.m[k.n].(parent := up)]) else g
  }

  // The writes that lift temp into the place of s, below q.
  ghost predicate Unhooked(g: Graph, g': Graph, s: Node, temp: Node, up: Node) {
    && s in g.m && temp in g.m && g.m[s].parent != null && g.m[s].parent in g.m
    && var q := g.m[s].parent;
    g' == g.(m := g.m[q := g.m[q].WithKid(if g.m[q].left == s then L else R, temp)][temp := g.m[temp].(parent := up)])
  }

  lemma {:induction false} UnhookFits(c: Path, t: Tree, k: Tree, g: Graph, up: Node, g': Graph)
    requires Draws(c.Plug(t), g) && c.In? && t.Fork? && ((t.l == Nil && k == t.r) || (t.r == Nil && k == t.l))
    requires g.nil !in c.Nodes() && g.nil !in t.Nodes()
    requires Unhooked(g, g', t.n, Ptr(k, g.nil), up)
    ensures k.Fork? ==> k.n in g'.m
    ensures Draws(c.Plug(k), Patch(g', k, c.n))
  {
    Unplug(c, t, g);
    RootInside(c, t, t.n, g);
    assert t.l.Links(g.m[t.n].left, t.n, g) && t.r.Links(g.m[t.n].right, t.n, g);
    assert k.Sep() && (k.Fork? ==> k.n in k.Nodes());
    SpliceFits(c, t, k, g, Patch(g', k, c.n));
  }

  lemma {:induction false} DrawsFrame(s: Tree, g: Graph, g': Graph)
    requires Draws(s, g) && Agree(g, g', s.Nodes()) && g.root == g'.root
    ensures Draws(s, g')
  {
    Frame(s, g.root, if s.Fork? && s.n in g.m then g.m[s.n].parent else null, g, g');
  }

  // Replacing x by its successor: the patched upward link of k is overwritten, or was right already.
  lemma {:induction false} PatchTook(g: Graph, k: Tree, up: Node, x: Node, s: Node, g': Graph)
    requires TookPlace(g, g', x, s) && (k.Fork? ==> k.n in g.m && k.n != x && k.n != s && k.n != g.nil && k.n != g.m[x].left)
    requires k.Fork? ==> g.m[k.n].parent == up || (g.m[x].right == k.n)
    requires k.Fork? && x != g.root ==> g.m[x].parent != k.n
    ensures TookPlace(Patch(g, k, up), g', x, s)
  {}

  // The nodes left when x has been replaced by its successor, the root of ts.
  lemma {:induction false} SuccessorNodes(c: Path, t: Tree, x: Path, ts: Tree, g: Graph)
    requires Draws(c.Plug(t), g) && t.Fork? && x.Plug(ts) == t.r && ts.Fork? && ts.l.Nil?
    ensures t.n !in c.Plug(Fork(t.l, ts.n, t.red, x.Plug(ts.r))).Nodes()
    ensures c.Plug(Fork(t.l, ts.n, t.red, x.Plug(ts.r))).Nodes() + {t.n} == c.Plug(t).Nodes()
    ensures ts.n !in c.Nodes() && ts.n !in Fork(t.l, t.n, t.red, x.Plug(ts.r)).Nodes() && ts.n != t.n
    ensures ts.r.Fork? ==> ts.r.n in x.Plug(ts.r).Nodes() && ts.r.n in c.Plug(t).Nodes()
    ensures ts.n in c.Plug(t).Nodes()
    ensures c.Nodes() + Fork(t.l, t.n, t.red, x.Plug(ts.r)).Nodes() <= c.Plug(t).Nodes()
    ensures x.In? ==> x.n != t.n && x.n in x.Plug(ts.r).Nodes()
    ensures x.In? ==> ts.r != x.Plug(ts.r)
  {
    var cx := In(R, t.n, t.red, t.l, c);
    PlugNodes(c, t);
    PlugNodes(c, Fork(t.l, ts.n, t.red, x.Plug(ts.r)));
    PlugNodes(x, ts);
    PlugNodes(x, ts.r);
    PlugThen(x, cx, ts);
    Unplug(c, t, g);
    Unplug(x.Then(cx), ts, g);
    ThenNodes(x, cx);
    assert ts.Sep();
  }

  lemma {:induction false} ThenNodes(x: Path, c: Path)
    ensures x.Then(c).Nodes() == x.Nodes() + c.Nodes()
  {
    if x.In? { ThenNodes(x.up, c); }
  }

  // Where the links of the root of a position lead.
  lemma {:induction false} Neighbours(c: Path, t: Tree, g: Graph)
    requires Draws(c.Plug(t), g) && t.Fork?
    ensures t.n in g.m && g.m[t.n].left == Ptr(t.l, g.nil) && g.m[t.n].right == Ptr(t.r, g.nil)
    ensures t.n !in t.l.Nodes() && t.n !in t.r.Nodes() && t.l.Nodes() !! t.r.Nodes() && t.l.Nodes() + t.r.Nodes() <= t.Nodes()
    ensures t.l.Fork? ==> t.l.n in t.l.Nodes()
    ensures t.r.Fork? ==> t.r.n in t.r.Nodes()
    ensures c.In? ==> g.m[t.n].parent == c.n && c.n !in t.Nodes()
    ensures g.root == t.n <==> c.Top?
  {
    Unplug(c, t, g);
    RootInside(c, t, t.n, g);
    assert t.l.Links(g.m[t.n].left, t.n, g) && t.r.Links(g.m[t.n].right, t.n, g);
  }

  lemma CutOut(b: seq<Node>, l: seq<Node>, x: Node, r: seq<Node>, a: seq<Node>)
    ensures var s, s', at := b + (l + [x] + r) + a, b + (l + r) + a, |b| + |l|;
            at < |s| && s[at] == x && s' == s[..at] + s[at + 1..]
  {}

  lemma {:induction false} ChildOrder(c: Path, t: Tree, k: Tree)
    requires t.Fork? && ((t.l == Nil && k == t.r) || (t.r == Nil && k == t.l))
    ensures var s, at := c.Plug(t).InOrder(), |c.Before()| + |t.l.InOrder()|;
            at < |s| && s[at] == t.n && c.Plug(k).InOrder() == s[..at] + s[at + 1..]
  {
    PlugOrder(c, t);
    PlugOrder(c, k);
    CutOut(c.Before(), t.l.InOrder(), t.n, t.r.InOrder(), c.After());
    assert k.InOrder() == t.l.InOrder() + t.r.InOrder();
  }

  lemma {:induction false} SuccessorTree(t: Tree, x: Path, ts: Tree)
    requires t.Fork? && x.Plug(ts) == t.r && Lefty(x) && ts.Fork? && ts.l.Nil?
    ensures Fork(t.l, ts.n, t.red, x.Plug(ts.r)).InOrder() == t.l.InOrder() + t.r.InOrder()
  {
    PlugOrder(x, ts);
    PlugOrder(x, ts.r);
    LeftyBefore(x);
    FirstSplit(t.l.InOrder(), ts.n, ts.r.InOrder(), x.After());
  }

  lemma FirstSplit(l: seq<Node>, n: Node, r: seq<Node>, after: seq<Node>)
    ensures l + [n] + ([] + r + after) == l + ([] + ([] + [n] + r) + after)
  {}

  lemma {:induction false} SuccessorOrder(c: Path, t: Tree, x: Path, ts: Tree)
    requires t.Fork? && x.Plug(ts) == t.r && Lefty(x) && ts.Fork? && ts.l.Nil?
    ensures var s, at := c.Plug(t).InOrder(), |c.Before()| + |t.l.InOrder()|;
            && at < |s| && s[at] == t.n
            && x.Then(In(R, ts.n, t.red, t.l, c)).Plug(ts.r).InOrder() == s[..at] + s[at + 1..]
  {
    PlugThen(x, In(R, ts.n, t.red, t.l, c), ts.r);
    SuccessorTree(t, x, ts);
    var t' := Fork(t.l, ts.n, t.red, x.Plug(ts.r));
    PlugOrder(c, t);
    PlugOrder(c, t');
    CutOut(c.Before(), t.l.InOrder(), t.n, t.r.InOrder(), c.After());
  }

  // The order lists exactly the nodes of the tree ...
  lemma {:induction false} OrderNodes(t: Tree)
    ensures forall n :: n in t.Nodes() ==> n in t.InOrder()
    ensures forall i :: 0 <= i < |t.InOrder()| ==> t.InOrder()[i] in t.Nodes()
  {
    if t.Fork? { OrderNodes(t.l); OrderNodes(t.r); }
  }

  // ... each once.
  lemma {:induction false} Distinct(t: Tree)
    requires t.Sep()
    ensures forall i, j :: 0 <= i < j < |t.InOrder()| ==> t.InOrder()[i] != t.InOrder()[j]
  {
    if t.Fork? {
      OrderNodes(t.l);
      OrderNodes(t.r);
      Distinct(t.l);
      Distinct(t.r);
      var a, b := t.l.InOrder(), t.r.InOrder();
      forall i, j | 0 <= i < |a| && 0 <= j < |b| ensures a[i] != b[j] {
        assert a[i] in t.l.Nodes() && b[j] in t.r.Nodes();
      }
    }
  }

  // y comes right after x in s, or is null when x is the last.
  ghost predicate Follows(s: seq<Node>, x: Node, y: Node?) {
    exists i :: 0 <= i < |s| && s[i] == x && y == if i + 1 < |s| then s[i + 1] else null
  }

  lemma FollowsIn(pre: seq<Node>, x: Node, post: seq<Node>)
    ensures Follows(pre + [x] + post, x, if post == [] then null else post[0])
  {
    var s := pre + [x] + post;
    assert s[|pre|] == x && (post != [] ==> s[|pre| + 1] == post[0]);
    FollowsAt(s, |pre|, x, if post == [] then null else post[0]);
  }

  lemma FollowsAt(s: seq<Node>, i: nat, x: Node, y: Node?)
    requires i < |s| && s[i] == x && y == if i + 1 < |s| then s[i + 1] else null
    ensures Follows(s, x, y)
  {}
}
