/** tserver/rb_tree.c: the red-black tree over mutable nodes with parent links and a shared sentinel. */
module RbTree {
  import opened RbShape
  import opened RbColour
  import opened RbOrder

  class Rbt {
    var root: Node
    const sentinel: Node
    const insert: InsertBy
    ghost var nodes: set<Node>
    ghost var shape: Tree

    constructor (s: Node, how: InsertBy)
      modifies s`red
      ensures Valid() && shape == Nil && sentinel == s && insert == how
    {
      sentinel, root, insert := s, s, how;
      nodes, shape := {}, Nil;
      new;
      s.red := false;
      assert Rb(Nil, 0);
    }

    ghost function G(): Graph
      reads this`root, this`nodes, nodes, sentinel
    {
      Graph(root, sentinel, map n | n in nodes + {sentinel} :: Cell(n.left, n.right, n.parent, n.red))
    }

    // The fields of the nodes draw the tree s, the sentinel is black and no node of the tree.
    ghost predicate Shown(s: Tree)
      reads this`root, this`nodes, nodes, sentinel
    {
      sentinel !in nodes && !sentinel.red && nodes == s.Nodes() && Draws(s, G())
    }

    ghost predicate Valid()
      reads this, nodes, sentinel
    {
      Shown(shape) && RedBlack(shape)
    }

    ghost function Order(): seq<Node> reads this { shape.InOrder() }

    // The order lists nodes of the tree, each once.
    lemma Listing()
      requires Valid()
      ensures forall i :: 0 <= i < |Order()| ==> Order()[i] in nodes
      ensures forall i, j :: 0 <= i < j < |Order()| ==> Order()[i] != Order()[j]
    {
      OrderNodes(shape);
      Distinct(shape);
    }

    // What the fields hold at a position.
    lemma {:induction false} View(c: Path, t: Tree)
      requires Shown(c.Plug(t))
      ensures Fits(c, t, Ptr(t, sentinel), G())
      ensures t.Fork? ==>
        && t.n in nodes && t.n.red == t.red && t.n.left == Ptr(t.l, sentinel) && t.n.right == Ptr(t.r, sentinel)
        && (c.In? ==> t.n.parent == c.n) && (root == t.n <==> c.Top?)
      ensures c.In? ==>
        && c.n in nodes && c.n.red == c.red && (c.up.In? ==> c.n.parent == c.up.n) && (root == c.n <==> c.up.Top?)
        && c.n.left == Ptr(if c.d.L? then t else c.sib, sentinel) && c.n.right == Ptr(if c.d.L? then c.sib else t, sentinel)
        && c.n != sentinel && c.n !in t.Nodes() && c.n !in c.sib.Nodes() && c.sib.Nodes() !! t.Nodes()
      ensures c.Top? ==> root == Ptr(t, sentinel)
      ensures c.Nodes() + t.Nodes() == nodes
    {
      Unplug(c, t, G());
      PlugNodes(c, t);
      if t.Fork? { RootInside(c, t, t.n, G()); }
      if t.Fork? {
        assert t.l.Links(G().m[t.n].left, t.n, G());
        assert t.r.Links(G().m[t.n].right, t.n, G());
      }
      if c.In? {
        assert c.sib.Links(G().m[c.n].Kid(c.d.Other()), c.n, G());
        ZoomOut(c, t, Ptr(t, sentinel), G());
        RootInside(c.up, Join(c.d, t, c.n, c.red, c.sib), c.n, G());
      }
    }

    // The two child links of a node.
    lemma KidsAt(c: Path, t: Tree)
      requires Shown(c.Plug(t)) && t.Fork?
      ensures t.n in nodes && t.n.left == Ptr(t.l, sentinel) && t.n.right == Ptr(t.r, sentinel)
      ensures (t.l.Fork? ==> t.l.n != sentinel) && (t.r.Fork? ==> t.r.n != sentinel)
    {
      View(c, t);
      View(In(L, t.n, t.red, t.r, c), t.l);
      View(In(R, t.n, t.red, t.l, c), t.r);
    }

    // rbt_red and rbt_black
    method Colour(n: Node, red: bool, ghost c: Path, ghost t: Tree)
      requires Shown(c.Plug(t)) && t.Fork? && t.n == n
      modifies n`red
      ensures Shown(c.Plug(t.(red := red)))
    {
      hide Fits, Draws;
      ghost var g := G();
      Unplug(c, t, g);
      PlugNodes(c, t);
      n.red := red;
      assert G().m == g.m[n := g.m[n].(red := red)];
      Paint(c, t, n, g, red, G());
      Replug(c, t.(red := red), n, G());
      PlugNodes(c, t.(red := red));
    }

    method LeftRotate(node: Node)
      requires sentinel !in nodes && node in nodes && node.right in nodes && node.right != node
      requires node.right.left == sentinel || (node.right.left in nodes && node.right.left != node && node.right.left != node.right)
      requires node != root ==> node.parent in nodes && node.parent != node && node.parent != node.right && node.parent != node.right.left
      requires node != root ==> node.parent.left == node || node.parent.right == node
      modifies this`root, nodes`left, nodes`right, nodes`parent
      ensures Rotated(old(G()), G(), node, L)
    {
      var temp := node.right;
      node.right := temp.left;
      if temp.left != sentinel {
        temp.left.parent := node;
      }
      temp.parent := node.parent;
      if node == root {
        root := temp;
      } else if node == node.parent.left {
        node.parent.left := temp;
      } else {
        node.parent.right := temp;
      }
      temp.left := node;
      node.parent := temp;
    }

    method LeftRotateAt(node: Node, ghost c: Path, ghost t: Tree)
      requires Shown(c.Plug(t)) && t.Fork? && t.n == node && CanRotate(t, L)
      modifies this`root, nodes`left, nodes`right, nodes`parent
      ensures Shown(c.Plug(Rotate(t, L)))
    {
      hide Fits, Draws, RedBlack;
      ghost var g := G();
      View(c, t);
      View(In(R, t.n, t.red, t.l, c), t.r);
      RootApart(c, t, node, g);
      RootApart(In(R, t.n, t.red, t.l, c), t.r, t.r.n, g);
      assert t.r.l.Nodes() <= t.r.Nodes();
      LeftRotate(node);
      Turned(c, t, g, L);
    }

    method RightRotate(node: Node)
      requires sentinel !in nodes && node in nodes && node.left in nodes && node.left != node
      requires node.left.right == sentinel || (node.left.right in nodes && node.left.right != node && node.left.right != node.left)
      requires node != root ==> node.parent in nodes && node.parent != node && node.parent != node.left && node.parent != node.left.right
      requires node != root ==> node.parent.right == node || node.parent.left == node
      modifies this`root, nodes`right, nodes`left, nodes`parent
      ensures Rotated(old(G()), G(), node, R)
    {
      var temp := node.left;
      node.left := temp.right;
      if temp.right != sentinel {
        temp.right.parent := node;
      }
      temp.parent := node.parent;
      if node == root {
        root := temp;
      } else if node == node.parent.right {
        node.parent.right := temp;
      } else {
        node.parent.left := temp;
      }
      temp.right := node;
      node.parent := temp;
    }

    method RightRotateAt(node: Node, ghost c: Path, ghost t: Tree)
      requires Shown(c.Plug(t)) && t.Fork? && t.n == node && CanRotate(t, R)
      modifies this`root, nodes`right, nodes`left, nodes`parent
      ensures Shown(c.Plug(Rotate(t, R)))
    {
      hide Fits, Draws, RedBlack;
      ghost var g := G();
      View(c, t);
      View(In(L, t.n, t.red, t.r, c), t.l);
      RootApart(c, t, node, g);
      RootApart(In(L, t.n, t.red, t.r, c), t.l, t.l.n, g);
      assert t.l.r.Nodes() <= t.l.Nodes();
      RightRotate(node);
      Turned(c, t, g, R);
    }

    lemma Turned(c: Path, t: Tree, g: Graph, d: Side)
      requires CanRotate(t, d) && Fits(c, t, t.n, g) && Rotated(g, G(), t.n, d)
      requires nodes == c.Nodes() + t.Nodes() && sentinel !in nodes && !sentinel.red
      ensures Shown(c.Plug(Rotate(t, d)))
    {
      RotateFits(c, t, t.n, g, d, G());
      RotateSame(t, d);
      Replug(c, Rotate(t, d), t.Kid(d.Other()).n, G());
      PlugNodes(c, Rotate(t, d));
    }

    // The uncle is red: parent and uncle become black, the grandparent red.
    method RecolourUncle(node: Node, temp: Node, ghost c: Path, ghost t: Tree, ghost h: int)
      requires Shown(c.Plug(t)) && InsertOk(c, t, h) && t.n == node && c.In? && c.red && c.up.In? && c.up.sib.Red()
      requires temp == c.up.sib.n
      modifies nodes`red
      ensures Shown(c.up.up.Plug(Recoloured(c, t))) && InsertOk(c.up.up, Recoloured(c, t), h + 1)
      ensures c.up.up.Plug(Recoloured(c, t)).InOrder() == c.Plug(t).InOrder()
    {
      hide Shown, InsertOk, Recoloured;
      ghost var parent, e := Join(c.d, t, c.n, c.red, c.sib), c.up.d;
      UncleView(c, t, h);
      Colour(node.parent, false, c.up, parent);
      Colour(temp, false, In(e.Other(), c.up.n, c.up.red, parent.(red := false), c.up.up), c.up.sib);
      Colour(node.parent.parent, true, c.up.up, Join(e, parent.(red := false), c.up.n, c.up.red, c.up.sib.(red := false)));
      RecolourOrder(c, t);
      InsertRedUncle(c, t, h);
      RecolouredIs(c, t);
    }

    lemma RecolouredIs(c: Path, t: Tree)
      requires c.In? && c.up.In? && c.up.sib.Fork?
      ensures Recoloured(c, t) == Join(c.up.d, Join(c.d, t, c.n, false, c.sib), c.up.n, true, c.up.sib.(red := false))
    {}

    // The uncle is black and the parent a left child.
    method RotateUncleLeft(node0: Node, ghost c0: Path, ghost t0: Tree, ghost h: int) returns (node: Node, ghost c: Path, ghost t: Tree)
      requires Shown(c0.Plug(t0)) && InsertOk(c0, t0, h) && t0.n == node0 && c0.In? && c0.red && c0.up.In?
      requires !c0.up.sib.Red() && c0.up.d == L
      modifies this`root, nodes`left, nodes`right, nodes`parent, nodes`red
      ensures Shown(c.Plug(t)) && InsertOk(c, t, h) && t.n == node && c.In? && !c.red
      ensures c.Plug(t).InOrder() == c0.Plug(t0).InOrder()
    {
      node, c, t := node0, c0, t0;
      View(c, t);
      if node == node.parent.right {
        InsertInner(c, t, h);
        ghost var parent := Join(c.d, t, c.n, c.red, c.sib);
        node := node.parent;
        LeftRotateAt(node, c.up, parent);
        RotateSame(parent, L);
        PlugOrder(c.up, parent);
        PlugOrder(c.up, Rotate(parent, L));
        c, t := In(L, t.n, true, t.Kid(c.d), c.up), Join(L, c.sib, c.n, true, t.Kid(L));
      }
      TurnGrandparent(node, c, t, h);
      ghost var grand := Join(L, Join(L, t, c.n, false, c.sib), c.up.n, true, c.up.sib);
      View(In(L, c.n, false, c.sib, In(L, c.up.n, true, c.up.sib, c.up.up)), t);
      View(In(L, c.up.n, true, c.up.sib, c.up.up), Join(L, t, c.n, false, c.sib));
      RightRotateAt(node.parent.parent, c.up.up, grand);
      InsertOuter(c, t, h);
      RotateSame(grand, R);
      GrandOrder(c, t, grand);
      c := In(L, c.n, false, Join(R, c.up.sib, c.up.n, true, c.sib), c.up.up);
    }

    // The uncle is black and the parent a right child.
    method RotateUncleRight(node0: Node, ghost c0: Path, ghost t0: Tree, ghost h: int) returns (node: Node, ghost c: Path, ghost t: Tree)
      requires Shown(c0.Plug(t0)) && InsertOk(c0, t0, h) && t0.n == node0 && c0.In? && c0.red && c0.up.In?
      requires !c0.up.sib.Red() && c0.up.d == R
      modifies this`root, nodes`right, nodes`left, nodes`parent, nodes`red
      ensures Shown(c.Plug(t)) && InsertOk(c, t, h) && t.n == node && c.In? && !c.red
      ensures c.Plug(t).InOrder() == c0.Plug(t0).InOrder()
    {
      node, c, t := node0, c0, t0;
      View(c, t);
      if node == node.parent.left {
        InsertInner(c, t, h);
        ghost var parent := Join(c.d, t, c.n, c.red, c.sib);
        node := node.parent;
        RightRotateAt(node, c.up, parent);
        RotateSame(parent, R);
        PlugOrder(c.up, parent);
        PlugOrder(c.up, Rotate(parent, R));
        c, t := In(R, t.n, true, t.Kid(c.d), c.up), Join(R, c.sib, c.n, true, t.Kid(R));
      }
      TurnGrandparent(node, c, t, h);
      ghost var grand := Join(R, Join(R, t, c.n, false, c.sib), c.up.n, true, c.up.sib);
      View(In(R, c.n, false, c.sib, In(R, c.up.n, true, c.up.sib, c.up.up)), t);
      View(In(R, c.up.n, true, c.up.sib, c.up.up), Join(R, t, c.n, false, c.sib));
      LeftRotateAt(node.parent.parent, c.up.up, grand);
      InsertOuter(c, t, h);
      RotateSame(grand, L);
      GrandOrder(c, t, grand);
      c := In(R, c.n, false, Join(L, c.up.sib, c.up.n, true, c.sib), c.up.up);
    }

    // The two repaintings before the outer rotation.
    method TurnGrandparent(node: Node, ghost c: Path, ghost t: Tree, ghost h: int)
      requires Shown(c.Plug(t)) && InsertOk(c, t, h) && t.n == node && c.In? && c.red && c.up.In?
      requires c.d == c.up.d
      modifies nodes`red
      ensures Shown(c.up.up.Plug(Join(c.d, Join(c.d, t, c.n, false, c.sib), c.up.n, true, c.up.sib)))
    {
      ghost var parent := Join(c.d, t, c.n, c.red, c.sib);
      View(c, t);
      View(c.up, parent);
      Colour(node.parent, false, c.up, parent);
      Colour(node.parent.parent, true, c.up.up, Join(c.d, parent.(red := false), c.up.n, c.up.red, c.up.sib));
    }

    lemma {:induction false} GrandOrder(c: Path, t: Tree, grand: Tree)
      requires c.In? && c.up.In? && c.d == c.up.d
      requires grand == Join(c.d, Join(c.d, t, c.n, false, c.sib), c.up.n, true, c.up.sib)
      requires CanRotate(grand, c.d.Other())
      ensures c.up.up.Plug(Rotate(grand, c.d.Other())).InOrder() == c.Plug(t).InOrder()
    {
      var was := Join(c.d, Join(c.d, t, c.n, c.red, c.sib), c.up.n, c.up.red, c.up.sib);
      RotateSame(grand, c.d.Other());
      assert grand.InOrder() == was.InOrder();
      PlugOrder(c.up.up, was);
      PlugOrder(c.up.up, Rotate(grand, c.d.Other()));
    }

    // The loop of rbtree_insert_value.
    method DescendValue(root0: Node, node: Node, ghost rank: map<Node, int>) returns (temp: Node, p: Side, ghost c: Path)
      requires Shown(shape) && shape.Fork? && root0 == root
      requires insert == ByValue
      ensures c.In? && c.Plug(Nil) == shape && temp == c.n && p == c.d
      ensures c.Prev() != null ==> c.Prev() in nodes && !Less(insert, node.key, c.Prev().key)
      ensures c.Next() != null ==> c.Next() in nodes && Less(insert, node.key, c.Next().key)
      ensures Ranks(insert, rank, nodes + {node}) && Sorted(rank, Order()) ==> Bounds(rank, node, c)
    {
      hide Shown, Ranks, Sorted, Bounds, Less;
      temp, p, c := root0, L, Top;
      ghost var t := shape;
      View(c, t);
      while true
        invariant t.Fork? && temp == t.n && c.Plug(t) == shape
        invariant c.Prev() != null ==> c.Prev() in nodes && !Less(insert, node.key, c.Prev().key)
        invariant c.Next() != null ==> c.Next() in nodes && Less(insert, node.key, c.Next().key)
        decreases t
      {
        KidsAt(c, t);
        p := if Less(ByValue, node.key, temp.key) then L else R;
        c, t := In(p, t.n, t.red, t.Kid(p.Other()), c), t.Kid(p);
        var next := if p.L? then temp.left else temp.right;
        if next == sentinel {
          break;
        }
        temp := next;
      }
      if Ranks(insert, rank, nodes + {node}) && Sorted(rank, Order()) { NeighboursBound(insert, rank, node, c, nodes); }
    }

    // The loop of rbtree_insert_timer_value.
    method DescendTimer(root0: Node, node: Node, ghost rank: map<Node, int>) returns (temp: Node, p: Side, ghost c: Path)
      requires Shown(shape) && shape.Fork? && root0 == root
      requires insert == ByTimer
      ensures c.In? && c.Plug(Nil) == shape && temp == c.n && p == c.d
      ensures c.Prev() != null ==> c.Prev() in nodes && !Less(insert, node.key, c.Prev().key)
      ensures c.Next() != null ==> c.Next() in nodes && Less(insert, node.key, c.Next().key)
      ensures Ranks(insert, rank, nodes + {node}) && Sorted(rank, Order()) ==> Bounds(rank, node, c)
    {
      hide Shown, Ranks, Sorted, Bounds, Less;
      temp, p, c := root0, L, Top;
      ghost var t := shape;
      View(c, t);
      while true
        invariant t.Fork? && temp == t.n && c.Plug(t) == shape
        invariant c.Prev() != null ==> c.Prev() in nodes && !Less(insert, node.key, c.Prev().key)
        invariant c.Next() != null ==> c.Next() in nodes && Less(insert, node.key, c.Next().key)
        decreases t
      {
        KidsAt(c, t);
        p := if Less(ByTimer, node.key, temp.key) then L else R;
        c, t := In(p, t.n, t.red, t.Kid(p.Other()), c), t.Kid(p);
        var next := if p.L? then temp.left else temp.right;
        if next == sentinel {
          break;
        }
        temp := next;
      }
      if Ranks(insert, rank, nodes + {node}) && Sorted(rank, Order()) { NeighboursBound(insert, rank, node, c, nodes); }
    }

    // The writes after either descent: *p = node and the four fields of the node.
    method Hang(temp: Node, p: Side, node: Node, ghost c: Path)
      requires Shown(c.Plug(Nil)) && c.In? && temp == c.n && p == c.d && node !in nodes && node != sentinel
      modifies this`nodes, nodes`left, nodes`right, node`left, node`right, node`parent, node`red
      ensures nodes == old(nodes) + {node} && Shown(c.Plug(Fork(Nil, node, true, Nil)))
    {
      ghost var g := G();
      View(c, Nil);
      HangWrites(temp, p, node);
      Graft(c, node, g, G());
      PlugNodes(c, Fork(Nil, node, true, Nil));
    }

    method HangWrites(temp: Node, p: Side, node: Node)
      requires temp in nodes && node !in nodes && node != sentinel && sentinel !in nodes
      modifies this`nodes, nodes`left, nodes`right, node`left, node`right, node`parent, node`red
      ensures nodes == old(nodes) + {node} && root == old(root)
      ensures G().m[node] == Cell(sentinel, sentinel, temp, true)
      ensures G().m[temp] == old(G()).m[temp].WithKid(p, node)
      ensures Agree(old(G()), G(), old(nodes) - {temp} + {sentinel})
    {
      if p.L? {
        temp.left := node;
      } else {
        temp.right := node;
      }
      node.parent := temp;
      node.left := sentinel;
      node.right := sentinel;
      node.red := true;
      nodes := nodes + {node};
    }

    // The insertion into an empty tree.
    method PlantRoot(node: Node)
      requires Valid() && shape == Nil && node != sentinel
      modifies this`root, this`nodes, this`shape, node`left, node`right, node`parent, node`red
      ensures Valid() && nodes == {node} && shape == Fork(Nil, node, false, Nil)
    {
      node.parent := null;
      node.left := sentinel;
      node.right := sentinel;
      node.red := false;
      root := node;
      nodes, shape := {node}, Fork(Nil, node, false, Nil);
      assert Rb(shape, 1);
      assert Path.Top.Links(node, G()) && Nil.Links(sentinel, node, G());
      assert shape.Links(root, null, G());
    }

    method Insert(node: Node, ghost rank: map<Node, int>) returns (ghost at: nat)
      requires Valid() && node !in nodes && node != sentinel
      modifies this`root, this`nodes, this`shape, nodes`left, nodes`right, nodes`parent, nodes`red
      modifies node`left, node`right, node`parent, node`red
      ensures Valid() && nodes == old(nodes) + {node}
      ensures at <= |old(Order())| && Order() == old(Order())[..at] + [node] + old(Order())[at..]
      ensures at > 0 ==> !Less(insert, node.key, old(Order())[at - 1].key)
      ensures at < |old(Order())| ==> Less(insert, node.key, old(Order())[at].key)
      ensures Ranks(insert, rank, nodes) && Sorted(rank, old(Order())) ==> StablyInserted(rank, old(Order()), node, at)
    {
      hide Ranks, Sorted, Bounds, StablyInserted, Less, Shown, RedBlack, InsertOk;
      ghost var was := Order();
      View(Top, shape);
      if root == sentinel {
        PlantRoot(node);
        at := 0;
        if Ranks(insert, rank, nodes) { FirstPlace(insert, rank, node, nodes); }
        return;
      }
      ghost var c, h := InsertBelow(node, rank);
      at := |c.Before()|;
      HolePlace(node, c);
      HolePrevNext(c);
      if Bounds(rank, node, c) { BoundsPlace(rank, node, c); }
      FixInsert(node, c, Fork(Nil, node, true, Nil), h);
    }

    method InsertBelow(node: Node, ghost rank: map<Node, int>) returns (ghost c: Path, ghost h: int)
      requires Valid() && root != sentinel && node !in nodes && node != sentinel
      modifies this`nodes, nodes`left, nodes`right, node`left, node`right, node`parent, node`red
      ensures nodes == old(nodes) + {node} && c.Plug(Nil) == old(shape)
      ensures c.Prev() != null ==> c.Prev() in nodes && !Less(insert, node.key, c.Prev().key)
      ensures c.Next() != null ==> c.Next() in nodes && Less(insert, node.key, c.Next().key)
      ensures Ranks(insert, rank, nodes) && Sorted(rank, old(Order())) ==> Bounds(rank, node, c)
      ensures Shown(c.Plug(Fork(Nil, node, true, Nil))) && InsertOk(c, Fork(Nil, node, true, Nil), h)
    {
      View(Top, shape);
      var temp, p;
      if insert.ByValue? {
        temp, p, c := DescendValue(root, node, rank);
      } else {
        temp, p, c := DescendTimer(root, node, rank);
      }
      h := SplitRb(c, Nil);
      Hang(temp, p, node, c);
    }

    // What the fields around a red node with a red parent hold.
    lemma {:induction false} UncleView(c: Path, t: Tree, h: int)
      requires Shown(c.Plug(t)) && InsertOk(c, t, h) && c.In? && c.red
      ensures c.up.In? && t.n in nodes && t.n.parent == c.n && c.n in nodes && c.n.parent == c.up.n
      ensures c.up.n.left == Ptr(if c.up.d.L? then Join(c.d, t, c.n, c.red, c.sib) else c.up.sib, sentinel)
      ensures c.up.n.right == Ptr(if c.up.d.L? then c.up.sib else Join(c.d, t, c.n, c.red, c.sib), sentinel)
      ensures c.up.sib.Fork? ==> c.up.sib.n in nodes
      ensures c.up.n in nodes && Ptr(c.up.sib, sentinel) != c.n && Ptr(c.up.sib, sentinel).red == c.up.sib.Red()
    {
      InsertHasGrandparent(c, t, h);
      View(c, t);
      var parent := Join(c.d, t, c.n, c.red, c.sib);
      View(c.up, parent);
      View(In(c.up.d.Other(), c.up.n, c.up.red, parent, c.up.up), c.up.sib);
      assert c.n in parent.Nodes() && (c.up.sib.Fork? ==> c.up.sib.n in c.up.sib.Nodes());
    }

    // One turn of the loop of rbtree_insert.
    method FixInsertTurn(node0: Node, ghost c0: Path, ghost t0: Tree, ghost h0: int)
      returns (node: Node, ghost c: Path, ghost t: Tree, ghost h: int)
      requires Shown(c0.Plug(t0)) && InsertOk(c0, t0, h0) && t0.n == node0 && c0.In? && c0.red
      modifies this`root, nodes`left, nodes`right, nodes`parent, nodes`red
      ensures Shown(c.Plug(t)) && InsertOk(c, t, h) && t.n == node
      ensures c.Plug(t).InOrder() == c0.Plug(t0).InOrder()
      ensures c.In? && c.red ==> c.Depth() < c0.Depth()
    {
      node, c, t, h := node0, c0, t0, h0;
      UncleView(c, t, h);
      if node.parent == node.parent.parent.left {
        var temp := node.parent.parent.right;
        if temp.red {
          RecolourUncle(node, temp, c, t, h);
          node := node.parent.parent;
          c, t, h := c.up.up, Recoloured(c, t), h + 1;
        } else {
          node, c, t := RotateUncleLeft(node, c, t, h);
        }
      } else {
        var temp := node.parent.parent.left;
        if temp.red {
          RecolourUncle(node, temp, c, t, h);
          node := node.parent.parent;
          c, t, h := c.up.up, Recoloured(c, t), h + 1;
        } else {
          node, c, t := RotateUncleRight(node, c, t, h);
        }
      }
    }

    // The loop of rbtree_insert and the final repainting of the root.
    method FixInsert(node0: Node, ghost c0: Path, ghost t0: Tree, ghost h0: int)
      requires Shown(c0.Plug(t0)) && InsertOk(c0, t0, h0) && t0.n == node0
      modifies this`root, this`shape, nodes`left, nodes`right, nodes`parent, nodes`red
      ensures Valid() && Order() == c0.Plug(t0).InOrder()
    {
      var node := node0;
      ghost var c, t, h := c0, t0, h0;
      View(c, t);
      while node != root && node.parent.red
        invariant Shown(c.Plug(t)) && InsertOk(c, t, h) && t.n == node && c.Plug(t).InOrder() == c0.Plug(t0).InOrder()
        invariant unchanged(`nodes)
        invariant node != root ==> c.In? && node.parent == c.n && c.n.red == c.red
        invariant node == root ==> c.Top?
        decreases if c.In? && c.red then 1 + c.Depth() else 0
      {
        node, c, t, h := FixInsertTurn(node, c, t, h);
        View(c, t);
      }
      BlackenRoot(c, t, h);
    }

    method BlackenRoot(ghost c: Path, ghost t: Tree, ghost h: int)
      requires Shown(c.Plug(t)) && InsertOk(c, t, h) && (c.In? ==> !c.red)
      modifies this`shape, nodes`red
      ensures Valid() && Order() == c.Plug(t).InOrder()
    {
      InsertDone(c, t, h);
      ghost var s := c.Plug(t);
      PlugNodes(c, t);
      View(Top, s);
      Colour(root, false, Top, s);
      shape := s.(red := false);
    }

    lemma {:induction false} RecolourOrder(c: Path, t: Tree)
      requires c.In? && c.up.In? && c.up.sib.Fork?
      ensures c.up.up.Plug(Recoloured(c, t)).InOrder() == c.Plug(t).InOrder()
    {
      var was := Join(c.up.d, Join(c.d, t, c.n, c.red, c.sib), c.up.n, c.up.red, c.up.sib);
      PlugOrder(c.up.up, was);
      PlugOrder(c.up.up, Recoloured(c, t));
    }

    // rbtree_min, from the node at (c, t)
    method Min(node0: Node, ghost c: Path, ghost t: Tree) returns (node: Node, ghost x: Path, ghost s: Tree)
      requires Shown(c.Plug(t)) && t.Fork? && t.n == node0
      ensures s.Fork? && s.n == node && s.l.Nil? && x.Plug(s) == t && Lefty(x)
      ensures |t.InOrder()| > 0 && t.InOrder()[0] == node
    {
      node, x, s := node0, Top, t;
      PlugThen(x, c, s);
      View(x.Then(c), s);
      while node.left != sentinel
        invariant s.Fork? && s.n == node && x.Plug(s) == t && Lefty(x)
        invariant node.left == Ptr(s.l, sentinel) && (s.l.Fork? ==> sentinel != s.l.n)
        decreases s
      {
        node := node.left;
        x, s := In(L, s.n, s.red, s.r, x), s.l;
        PlugThen(x, c, s);
        View(x.Then(c), s);
      }
      PlugOrder(x, s);
      LeftyBefore(x);
    }

    method Unslot(subst: Node, temp: Node)
      requires sentinel !in nodes && subst.parent in nodes && subst != subst.parent
      modifies nodes`left, nodes`right
      ensures subst.parent == old(subst.parent)
      ensures var q := subst.parent; G() == old(G()).(m := old(G()).m[q := old(G()).m[q].WithKid(if old(q.left) == subst then L else R, temp)])
    {
      if subst == subst.parent.left {
        subst.parent.left := temp;
      } else {
        subst.parent.right := temp;
      }
    }

    // The slot of subst and the upward link of temp (the first writes of rbtree_delete).
    method Unhook(node: Node, subst: Node, temp: Node)
      requires sentinel !in nodes && subst in nodes && temp in nodes + {sentinel} && subst.parent in nodes
      requires temp != subst && subst != subst.parent && temp != subst.parent
      modifies nodes`left, nodes`right, nodes`parent, sentinel`parent
      ensures Unhooked(old(G()), G(), subst, temp, UpOf(node, subst, old(subst.parent)))
    {
      Unslot(subst, temp);
      SetUp(node, subst, temp);
    }

    method SetUp(node: Node, subst: Node, temp: Node)
      requires sentinel !in nodes && temp in nodes + {sentinel} && subst.parent in nodes && temp != subst
      modifies nodes`parent, sentinel`parent
      ensures subst.parent == old(subst.parent)
      ensures G() == old(G()).(m := old(G()).m[temp := old(G()).m[temp].(parent := UpOf(node, subst, subst.parent))])
    {
      if subst == node {
        temp.parent := subst.parent;
      } else {
        if subst.parent == node {
          temp.parent := subst;
        } else {
          temp.parent := subst.parent;
        }
      }
    }

    ghost function UpOf(node: Node, subst: Node, q: Node?): Node? { if subst != node && q == node then subst else q }

    // The four fields of node are copied.
    method CopyLinks(node: Node, subst: Node)
      requires sentinel !in nodes && node in nodes && subst in nodes && !sentinel.red
      modifies nodes`left, nodes`right, nodes`parent, subst`red
      ensures G() == old(G()).(m := old(G()).m[subst := old(G()).m[node]])
      ensures subst != node ==> node.parent == old(node.parent)
    {
      subst.left := node.left;
      subst.right := node.right;
      subst.parent := node.parent;
      subst.red := node.red;
    }

    // The slot that held node, the root pointer or a link of its parent, holds subst.
    method TakeSlot(node: Node, subst: Node)
      requires sentinel !in nodes && subst in nodes && (node != root ==> node.parent in nodes)
      modifies this`root, nodes`left, nodes`right
      ensures G() == SlotTaken(old(G()), node, subst, old(node.parent))
    {
      if node == root {
        root := subst;
      } else {
        if node == node.parent.left {
          node.parent.left := subst;
        } else {
          node.parent.right := subst;
        }
      }
    }

    // A child of subst, if there is one, is told.
    method TellKid(subst: Node, kid: Node)
      requires sentinel !in nodes && kid in nodes + {sentinel}
      modifies nodes`parent
      ensures G() == KidTold(old(G()), subst, kid)
    {
      if kid != sentinel {
        kid.parent := subst;
      }
    }

    // subst takes over the place of node.
    method TakePlace(node: Node, subst: Node)
      requires sentinel !in nodes && node in nodes && subst in nodes && node != subst && !sentinel.red
      requires node.left in nodes && node.left != node && node.left != subst
      requires node.right in nodes + {sentinel} && node.right != node && node.right != subst && node.right != node.left
      requires node != root ==> node.parent in nodes && node.parent != node && node.parent != subst
      requires node != root ==> node.parent != node.left && node.parent != node.right
      modifies this`root, nodes`left, nodes`right, nodes`parent, subst`red
      ensures TookPlace(old(G()), G(), node, subst)
    {
      hide SlotTaken, KidTold;
      ghost var g, l, r, p := G(), node.left, node.right, node.parent;
      CopyLinks(node, subst);
      TakeSlot(node, subst);
      SlotKeeps(g, node, subst);
      assert G().m[subst].left == l && G().m[subst].right == r;
      TellKid(subst, subst.left);
      ToldKeeps(SlotTaken(Copied(g, node, subst), node, subst, p), subst, l);
      assert G().m[subst].right == r;
      TellKid(subst, subst.right);
      PlaceTaken(g, node, subst);
    }

    // Unhook at the position of subst, which has at most the child k.
    method UnhookAt(node: Node, subst: Node, temp: Node, ghost c: Path, ghost t: Tree, ghost k: Tree)
      requires Shown(c.Plug(t)) && c.In? && t.Fork? && t.n == subst && ((t.l == Nil && k == t.r) || (t.r == Nil && k == t.l))
      requires temp == Ptr(k, sentinel)
      modifies nodes`left, nodes`right, nodes`parent, sentinel`parent
      ensures (k.Fork? ==> k.n in G().m) && Draws(c.Plug(k), Patch(G(), k, c.n))
      ensures temp.parent == UpOf(node, subst, c.n) && c.n == old(subst.parent)
      ensures sentinel !in nodes && !sentinel.red
    {
      ghost var g0 := G();
      View(c, t);
      Unhook(node, subst, temp);
      UnhookFits(c, t, k, g0, UpOf(node, subst, c.n), G());
      assert G().m[temp].parent == UpOf(node, subst, c.n);
    }

    // TakePlace at the position of node, whose right subtree hangs together but for the upward link of k.
    method TakePlaceAt(node: Node, subst: Node, ghost c: Path, ghost t: Tree, ghost k: Tree, ghost up: Node)
      requires sentinel !in nodes && !sentinel.red && subst in nodes && subst != node
      requires t.Fork? && t.l.Fork? && (k.Fork? ==> k.n in nodes && k.n in t.r.Nodes())
      requires t.n == node && Draws(c.Plug(t), Patch(G(), k, up))
      requires subst !in c.Nodes() && subst !in t.Nodes() && c.Nodes() + t.Nodes() <= nodes
      requires k.Fork? ==> k.n.parent == up || t.r == k
      modifies this`root, nodes`left, nodes`right, nodes`parent, nodes`red
      ensures Draws(c.Plug(t.(n := subst)), G())
    {
      ghost var g := G();
      Neighbours(c, t, Patch(g, k, up));
      assert node.left == g.m[node].left && node.right == g.m[node].right && node.parent == g.m[node].parent;
      TakePlace(node, subst);
      PatchTook(g, k, up, node, subst, G());
      TookPlaceFits(c, t, subst, Patch(g, k, up), G());
    }

    // A node with two children: subst, the least node of the right subtree, takes its place.
    method Substitute(node: Node, subst: Node, temp: Node, ghost c: Path, ghost t: Tree, ghost x: Path, ghost ts: Tree)
      requires Shown(c.Plug(t)) && t.Fork? && t.n == node && t.l.Fork?
      requires x.Plug(ts) == t.r && ts.Fork? && ts.l.Nil? && ts.n == subst && temp == Ptr(ts.r, sentinel)
      modifies this`root, nodes`left, nodes`right, nodes`parent, nodes`red, sentinel`parent
      ensures Draws(c.Plug(Fork(t.l, subst, t.red, x.Plug(ts.r))), G()) && !sentinel.red
      ensures ts.r.Nil? ==> sentinel.parent == if x.In? then x.n else subst
    {
      ghost var k, cx := ts.r, In(R, node, t.red, t.l, c);
      ghost var cs := x.Then(cx);
      PlugThen(x, cx, ts);
      PlugThen(x, cx, k);
      SuccessorNodes(c, t, x, ts, G());
      UnhookAt(node, subst, temp, cs, ts, k);
      TakePlaceAt(node, subst, c, Fork(t.l, node, t.red, x.Plug(k)), k, cs.n);
    }

    // The removed node is wiped.
    method Forget(node: Node, ghost s: Tree)
      requires sentinel !in nodes && !sentinel.red && Draws(s, G())
      requires node in nodes && node !in s.Nodes() && s.Nodes() + {node} == nodes
      modifies this`nodes, node`left, node`right, node`parent, node`key
      ensures Shown(s) && nodes == old(nodes) - {node}
      ensures node.left == node.right == node.parent == null && node.key == 0
    {
      ghost var g := G();
      node.left := null;
      node.right := null;
      node.parent := null;
      node.key := 0;
      nodes := nodes - {node};
      DrawsFrame(s, g, G());
    }

    // The fix-up of rbtree_delete stands at temp, the root of t.
    ghost predicate Short(c: Path, t: Tree, temp: Node, h: int)
      reads this`root, this`nodes, nodes, sentinel
    {
      Shown(c.Plug(t)) && temp == Ptr(t, sentinel) && DeleteOk(c, t, h) && (t.Nil? && c.In? ==> sentinel.parent == c.n)
    }

    // What the fields around the short subtree hold.
    lemma {:induction false} SiblingView(c: Path, t: Tree, temp: Node, h: int)
      requires Short(c, t, temp, h) && c.In? && !t.Red()
      ensures temp.parent == c.n && c.n in nodes && c.n.red == c.red && c.n != sentinel
      ensures c.sib.Fork? && c.sib.n in nodes && c.sib.n.red == c.sib.red
      ensures c.n.left == Ptr(if c.d.L? then t else c.sib, sentinel) && c.n.right == Ptr(if c.d.L? then c.sib else t, sentinel)
      ensures c.sib.n.left == Ptr(c.sib.l, sentinel) && c.sib.n.right == Ptr(c.sib.r, sentinel)
      ensures c.sib.n != temp
      ensures c.sib.n.left.red == c.sib.l.Red() && c.sib.n.right.red == c.sib.r.Red()
    {
      DeleteHasSibling(c, t, h);
      View(c, t);
      assert c.sib.n in c.sib.Nodes() && (t.Fork? ==> t.n in t.Nodes());
      var cw := In(c.d.Other(), c.n, c.red, t, c.up);
      View(cw, c.sib);
      View(In(L, c.sib.n, c.sib.red, c.sib.r, cw), c.sib.l);
      View(In(R, c.sib.n, c.sib.red, c.sib.l, cw), c.sib.r);
    }

    lemma {:induction false} SameOrder(c: Path, t: Tree, c': Path, t': Tree, up: Path, a: Tree, b: Tree)
      requires c.Plug(t) == up.Plug(a) && c'.Plug(t') == up.Plug(b) && a.InOrder() == b.InOrder()
      ensures c.Plug(t).InOrder() == c'.Plug(t').InOrder()
    {
      PlugOrder(up, a);
      PlugOrder(up, b);
    }

    // The sibling is black and so are its children: the sibling turns red and the shortage moves up.
    method BlackNephews(temp0: Node, w: Node, ghost c: Path, ghost t: Tree, ghost h: int) returns (temp: Node)
      requires Short(c, t, temp0, h) && c.In? && !t.Red()
      requires c.sib.Fork? && w == c.sib.n && !c.sib.red && !c.sib.l.Red() && !c.sib.r.Red()
      modifies nodes`red
      ensures var t' := Join(c.d, t, c.n, c.red, c.sib.(red := true));
              Short(c.up, t', temp, h + Own(c.red)) && c.up.Plug(t').InOrder() == c.Plug(t).InOrder()
    {
      SiblingView(c, t, temp0, h);
      Colour(w, true, In(c.d.Other(), c.n, c.red, t, c.up), c.sib);
      temp := temp0.parent;
      DeleteBlackNephews(c, t, h);
      ghost var t' := Join(c.d, t, c.n, c.red, c.sib.(red := true));
      SameOrder(c, t, c.up, t', c.up, Join(c.d, t, c.n, c.red, c.sib), t');
    }

    // The sibling is red: a rotation gives the short subtree a black one.
    method RedSiblingLeft(temp: Node, w0: Node, ghost c0: Path, ghost t: Tree, ghost h: int) returns (w: Node, ghost c: Path)
      requires Short(c0, t, temp, h) && c0.In? && c0.d == L && !t.Red() && c0.sib.Red() && w0 == c0.sib.n
      modifies this`root, nodes`left, nodes`right, nodes`parent, nodes`red
      ensures Short(c, t, temp, h) && c.In? && c.d == L && c.red && c.sib.Fork? && !c.sib.red && w == c.sib.n
      ensures c.Plug(t).InOrder() == c0.Plug(t).InOrder()
    {
      w := w0;
      SiblingView(c0, t, temp, h);
      Colour(w, false, In(R, c0.n, c0.red, t, c0.up), c0.sib);
      ghost var black := c0.sib.(red := false);
      Colour(temp.parent, true, c0.up, Join(L, t, c0.n, c0.red, black));
      ghost var s := Join(L, t, c0.n, true, black);
      DeleteRedSibling(c0, t, h);
      LeftRotateAt(temp.parent, c0.up, s);
      c := In(L, c0.n, true, c0.sib.l, In(L, c0.sib.n, false, c0.sib.r, c0.up));
      RotateSame(s, L);
      SameOrder(c0, t, c, t, c0.up, Join(L, t, c0.n, c0.red, c0.sib), Rotate(s, L));
      SiblingView(c, t, temp, h);
      w := temp.parent.right;
    }

    // The near nephew is red, the far one black: a rotation at the sibling makes the far one red.
    method NearNephewLeft(temp: Node, w0: Node, ghost c0: Path, ghost t: Tree, ghost h: int) returns (w: Node, ghost c: Path)
      requires Short(c0, t, temp, h) && c0.In? && c0.d == L && !t.Red() && c0.sib.Fork? && !c0.sib.red && w0 == c0.sib.n
      requires c0.sib.l.Red() && !c0.sib.r.Red()
      modifies this`root, nodes`left, nodes`right, nodes`parent, nodes`red
      ensures Short(c, t, temp, h) && c.In? && c.d == L && c.sib.Fork? && !c.sib.red && w == c.sib.n && c.sib.r.Red()
      ensures c.up == c0.up && c.Plug(t).InOrder() == c0.Plug(t).InOrder()
    {
      w := w0;
      SiblingView(c0, t, temp, h);
      ghost var cw, v := In(R, c0.n, c0.red, t, c0.up), c0.sib.l;
      ghost var wn := c0.sib.n;
      View(In(L, wn, c0.sib.red, c0.sib.r, cw), v);
      Colour(w.left, false, In(L, wn, c0.sib.red, c0.sib.r, cw), v);
      Colour(w, true, cw, Join(L, v.(red := false), wn, c0.sib.red, c0.sib.r));
      ghost var s := Join(L, v.(red := false), wn, true, c0.sib.r);
      DeleteNearNephew(c0, t, h);
      RightRotateAt(w, cw, s);
      c := c0.(sib := Rotate(s, R));
      RotateSame(s, R);
      SameOrder(c0, t, c, t, cw, c0.sib, Rotate(s, R));
      SiblingView(c, t, temp, h);
      w := temp.parent.right;
    }

    // The far nephew is red: three repaintings ...
    method PaintFarLeft(temp: Node, w: Node, ghost c: Path, ghost t: Tree, ghost h: int)
      requires Short(c, t, temp, h) && c.In? && c.d == L && !t.Red() && c.sib.Fork? && !c.sib.red && w == c.sib.n
      requires c.sib.r.Red()
      modifies nodes`red
      ensures Shown(c.up.Plug(Join(L, t, c.n, false, Join(R, c.sib.r.(red := false), c.sib.n, c.red, c.sib.l))))
      ensures temp.parent == c.n
    {
      SiblingView(c, t, temp, h);
      ghost var cw := In(R, c.n, c.red, t, c.up);
      Colour(w, temp.parent.red, cw, c.sib);
      Colour(temp.parent, false, c.up, Join(L, t, c.n, c.red, c.sib.(red := c.red)));
      ghost var cv, cw' := In(R, c.sib.n, c.red, c.sib.l, In(R, c.n, false, t, c.up)), In(R, c.n, false, t, c.up);
      assert cv.Plug(c.sib.r) == cw'.Plug(c.sib.(red := c.red));
      View(cv, c.sib.r);
      Colour(w.right, false, cv, c.sib.r);
      assert cv.Plug(c.sib.r.(red := false)) == cw'.Plug(Join(R, c.sib.r.(red := false), c.sib.n, c.red, c.sib.l));
    }

    // ... and one rotation end the repair.
    method FarNephewLeft(temp0: Node, w: Node, ghost c: Path, ghost t: Tree, ghost h: int) returns (temp: Node, ghost s': Tree, ghost h': int)
      requires Short(c, t, temp0, h) && c.In? && c.d == L && !t.Red() && c.sib.Fork? && !c.sib.red && w == c.sib.n
      requires c.sib.r.Red()
      modifies this`root, nodes`left, nodes`right, nodes`parent, nodes`red
      ensures Short(Top, s', temp, h') && s'.InOrder() == c.Plug(t).InOrder()
    {
      PaintFarLeft(temp0, w, c, t, h);
      ghost var far := Join(R, c.sib.r.(red := false), c.sib.n, c.red, c.sib.l);
      ghost var s := Join(L, t, c.n, false, far);
      DeleteFarNephew(c, t, h);
      LeftRotateAt(temp0.parent, c.up, s);
      s' := c.up.Plug(Rotate(s, L));
      h' := RedBlackHeight(s');
      RotateSame(s, L);
      assert far.InOrder() == c.sib.InOrder();
      SameOrder(c, t, Top, s', c.up, Join(L, t, c.n, c.red, c.sib), Rotate(s, L));
      View(Top, s');
      temp := root;
    }

    // One turn of the loop of rbtree_delete, for a left child.
    method FixDeleteTurnLeft(temp0: Node, ghost c0: Path, ghost t0: Tree, ghost h0: int)
      returns (temp: Node, ghost c: Path, ghost t: Tree, ghost h: int)
      requires Short(c0, t0, temp0, h0) && c0.In? && c0.d == L && !t0.Red()
      modifies this`root, nodes`left, nodes`right, nodes`parent, nodes`red
      ensures Short(c, t, temp, h) && c.Plug(t).InOrder() == c0.Plug(t0).InOrder()
      ensures c.In? && !t.Red() ==> c.Depth() < c0.Depth()
    {
      temp, c, t, h := temp0, c0, t0, h0;
      SiblingView(c, t, temp, h);
      var w := temp.parent.right;
      if w.red {
        w, c := RedSiblingLeft(temp, w, c, t, h);
      }
      SiblingView(c, t, temp, h);
      if !w.left.red && !w.right.red {
        temp := BlackNephews(temp, w, c, t, h);
        h := h + Own(c.red);
        c, t := c.up, Join(c.d, t, c.n, c.red, c.sib.(red := true));
      } else {
        if !w.right.red {
          w, c := NearNephewLeft(temp, w, c, t, h);
        }
        temp, t, h := FarNephewLeft(temp, w, c, t, h);
        c := Top;
      }
    }

    // The sibling is red: a rotation gives the short subtree a black one.
    method RedSiblingRight(temp: Node, w0: Node, ghost c0: Path, ghost t: Tree, ghost h: int) returns (w: Node, ghost c: Path)
      requires Short(c0, t, temp, h) && c0.In? && c0.d == R && !t.Red() && c0.sib.Red() && w0 == c0.sib.n
      modifies this`root, nodes`right, nodes`left, nodes`parent, nodes`red
      ensures Short(c, t, temp, h) && c.In? && c.d == R && c.red && c.sib.Fork? && !c.sib.red && w == c.sib.n
      ensures c.Plug(t).InOrder() == c0.Plug(t).InOrder()
    {
      w := w0;
      SiblingView(c0, t, temp, h);
      Colour(w, false, In(L, c0.n, c0.red, t, c0.up), c0.sib);
      ghost var black := c0.sib.(red := false);
      Colour(temp.parent, true, c0.up, Join(R, t, c0.n, c0.red, black));
      ghost var s := Join(R, t, c0.n, true, black);
      DeleteRedSibling(c0, t, h);
      RightRotateAt(temp.parent, c0.up, s);
      c := In(R, c0.n, true, c0.sib.r, In(R, c0.sib.n, false, c0.sib.l, c0.up));
      RotateSame(s, R);
      SameOrder(c0, t, c, t, c0.up, Join(R, t, c0.n, c0.red, c0.sib), Rotate(s, R));
      SiblingView(c, t, temp, h);
      w := temp.parent.left;
    }

    // The near nephew is red, the far one black: a rotation at the sibling makes the far one red.
    method NearNephewRight(temp: Node, w0: Node, ghost c0: Path, ghost t: Tree, ghost h: int) returns (w: Node, ghost c: Path)
      requires Short(c0, t, temp, h) && c0.In? && c0.d == R && !t.Red() && c0.sib.Fork? && !c0.sib.red && w0 == c0.sib.n
      requires c0.sib.r.Red() && !c0.sib.l.Red()
      modifies this`root, nodes`right, nodes`left, nodes`parent, nodes`red
      ensures Short(c, t, temp, h) && c.In? && c.d == R && c.sib.Fork? && !c.sib.red && w == c.sib.n && c.sib.l.Red()
      ensures c.up == c0.up && c.Plug(t).InOrder() == c0.Plug(t).InOrder()
    {
      w := w0;
      SiblingView(c0, t, temp, h);
      ghost var cw, v := In(L, c0.n, c0.red, t, c0.up), c0.sib.r;
      ghost var wn := c0.sib.n;
      View(In(R, wn, c0.sib.red, c0.sib.l, cw), v);
      Colour(w.right, false, In(R, wn, c0.sib.red, c0.sib.l, cw), v);
      Colour(w, true, cw, Join(R, v.(red := false), wn, c0.sib.red, c0.sib.l));
      ghost var s := Join(R, v.(red := false), wn, true, c0.sib.l);
      DeleteNearNephew(c0, t, h);
      LeftRotateAt(w, cw, s);
      c := c0.(sib := Rotate(s, L));
      RotateSame(s, L);
      SameOrder(c0, t, c, t, cw, c0.sib, Rotate(s, L));
      SiblingView(c, t, temp, h);
      w := temp.parent.left;
    }

    // The far nephew is red: three repaintings ...
    method PaintFarRight(temp: Node, w: Node, ghost c: Path, ghost t: Tree, ghost h: int)
      requires Short(c, t, temp, h) && c.In? && c.d == R && !t.Red() && c.sib.Fork? && !c.sib.red && w == c.sib.n
      requires c.sib.l.Red()
      modifies nodes`red
      ensures Shown(c.up.Plug(Join(R, t, c.n, false, Join(L, c.sib.l.(red := false), c.sib.n, c.red, c.sib.r))))
      ensures temp.parent == c.n
    {
      SiblingView(c, t, temp, h);
      ghost var cw := In(L, c.n, c.red, t, c.up);
      Colour(w, temp.parent.red, cw, c.sib);
      Colour(temp.parent, false, c.up, Join(R, t, c.n, c.red, c.sib.(red := c.red)));
      ghost var cv, cw' := In(L, c.sib.n, c.red, c.sib.r, In(L, c.n, false, t, c.up)), In(L, c.n, false, t, c.up);
      assert cv.Plug(c.sib.l) == cw'.Plug(c.sib.(red := c.red));
      View(cv, c.sib.l);
      Colour(w.left, false, cv, c.sib.l);
      assert cv.Plug(c.sib.l.(red := false)) == cw'.Plug(Join(L, c.sib.l.(red := false), c.sib.n, c.red, c.sib.r));
    }

    // ... and one rotation end the repair.
    method FarNephewRight(temp0: Node, w: Node, ghost c: Path, ghost t: Tree, ghost h: int) returns (temp: Node, ghost s': Tree, ghost h': int)
      requires Short(c, t, temp0, h) && c.In? && c.d == R && !t.Red() && c.sib.Fork? && !c.sib.red && w == c.sib.n
      requires c.sib.l.Red()
      modifies this`root, nodes`right, nodes`left, nodes`parent, nodes`red
      ensures Short(Top, s', temp, h') && s'.InOrder() == c.Plug(t).InOrder()
    {
      PaintFarRight(temp0, w, c, t, h);
      ghost var far := Join(L, c.sib.l.(red := false), c.sib.n, c.red, c.sib.r);
      ghost var s := Join(R, t, c.n, false, far);
      DeleteFarNephew(c, t, h);
      RightRotateAt(temp0.parent, c.up, s);
      s' := c.up.Plug(Rotate(s, R));
      h' := RedBlackHeight(s');
      RotateSame(s, R);
      assert far.InOrder() == c.sib.InOrder();
      SameOrder(c, t, Top, s', c.up, Join(R, t, c.n, c.red, c.sib), Rotate(s, R));
      View(Top, s');
      temp := root;
    }

    // One turn of the loop of rbtree_delete, for a right child.
    method FixDeleteTurnRight(temp0: Node, ghost c0: Path, ghost t0: Tree, ghost h0: int)
      returns (temp: Node, ghost c: Path, ghost t: Tree, ghost h: int)
      requires Short(c0, t0, temp0, h0) && c0.In? && c0.d == R && !t0.Red()
      modifies this`root, nodes`right, nodes`left, nodes`parent, nodes`red
      ensures Short(c, t, temp, h) && c.Plug(t).InOrder() == c0.Plug(t0).InOrder()
      ensures c.In? && !t.Red() ==> c.Depth() < c0.Depth()
    {
      temp, c, t, h := temp0, c0, t0, h0;
      SiblingView(c, t, temp, h);
      var w := temp.parent.left;
      if w.red {
        w, c := RedSiblingRight(temp, w, c, t, h);
      }
      SiblingView(c, t, temp, h);
      if !w.right.red && !w.left.red {
        temp := BlackNephews(temp, w, c, t, h);
        h := h + Own(c.red);
        c, t := c.up, Join(c.d, t, c.n, c.red, c.sib.(red := true));
      } else {
        if !w.left.red {
          w, c := NearNephewRight(temp, w, c, t, h);
        }
        temp, t, h := FarNephewRight(temp, w, c, t, h);
        c := Top;
      }
    }

    // The loop of rbtree_delete and the final repainting.
    method FixDelete(temp0: Node, ghost c0: Path, ghost t0: Tree, ghost h0: int)
      requires Short(c0, t0, temp0, h0)
      modifies this`root, this`shape, nodes`left, nodes`right, nodes`parent, nodes`red, sentinel`red
      ensures Valid() && Order() == c0.Plug(t0).InOrder()
    {
      var temp := temp0;
      ghost var c, t, h := c0, t0, h0;
      View(c, t);
      while temp != root && !temp.red
        invariant unchanged(`nodes) && Short(c, t, temp, h) && c.Plug(t).InOrder() == c0.Plug(t0).InOrder()
        invariant (temp == root <==> c.Top?) && temp.red == t.Red()
        decreases if c.In? && !t.Red() then 1 + c.Depth() else 0
      {
        SiblingView(c, t, temp, h);
        if temp == temp.parent.left {
          temp, c, t, h := FixDeleteTurnLeft(temp, c, t, h);
        } else {
          temp, c, t, h := FixDeleteTurnRight(temp, c, t, h);
        }
        View(c, t);
      }
      DeleteDone(c, t, h);
      BlackenTemp(temp, c, t);
    }

    method BlackenTemp(temp: Node, ghost c: Path, ghost t: Tree)
      requires Shown(c.Plug(t)) && temp == Ptr(t, sentinel)
      requires RedBlack(c.Plug(if t.Fork? then t.(red := false) else t))
      modifies this`shape, nodes`red, sentinel`red
      ensures Valid() && Order() == c.Plug(t).InOrder()
    {
      hide RedBlack;
      View(c, t);
      if temp == sentinel {
        temp.red := false;
        shape := c.Plug(t);
      } else {
        Colour(temp, false, c, t);
        shape := c.Plug(t.(red := false));
        PlugOrder(c, t);
        PlugOrder(c, t.(red := false));
      }
    }

    method LiftRoot(node: Node, temp: Node, ghost k: Tree)
      requires Shown(shape) && shape.Fork? && shape.n == node && node == root
      requires ((shape.l == Nil && k == shape.r) || (shape.r == Nil && k == shape.l)) && temp == Ptr(k, sentinel)
      modifies this`root, this`nodes, node`left, node`right, node`parent, node`key
      ensures Shown(k) && nodes == old(nodes) - {node}
      ensures node.left == node.right == node.parent == null && node.key == 0
    {
      ghost var t, g := shape, G();
      View(Top, t);
      assert k.Fork? ==> k.n in k.Nodes();
      assert t.Sep();
      root := temp;
      SpliceFits(Top, t, k, g, G());
      Forget(node, k);
    }

    // A node with at most one child that is the root: the child becomes the root.
    method DeleteRoot(node: Node, temp: Node, ghost k: Tree)
      requires Valid() && shape.Fork? && shape.n == node && node == root
      requires ((shape.l == Nil && k == shape.r) || (shape.r == Nil && k == shape.l)) && temp == Ptr(k, sentinel)
      modifies this`root, this`nodes, this`shape, nodes`red, sentinel`red
      modifies node`left, node`right, node`parent, node`key
      ensures Valid() && nodes == old(nodes) - {node} && Order() == k.InOrder()
      ensures node.left == node.right == node.parent == null && node.key == 0
    {
      ghost var t := shape;
      ghost var h := SplitRb(Top, t);
      LiftRoot(node, temp, k);
      DeleteDone(Top, k, h - 1);
      BlackenTemp(temp, Top, k);
    }

    // A node with at most one child, below another node: where the fix-up starts.
    method DeleteInner(node: Node, temp: Node, ghost c: Path, ghost t: Tree, ghost k: Tree)
      requires Shown(c.Plug(t)) && c.In? && t.Fork? && t.n == node && ((t.l == Nil && k == t.r) || (t.r == Nil && k == t.l))
      requires temp == Ptr(k, sentinel)
      modifies this`nodes, nodes`left, nodes`right, nodes`parent, sentinel`parent, node`key
      ensures Shown(c.Plug(k)) && nodes == old(nodes) - {node} && (k.Nil? ==> sentinel.parent == c.n)
      ensures node.left == node.right == node.parent == null && node.key == 0
    {
      hide Fits, RedBlack, Shown;
      View(c, t);
      PlugNodes(c, k);
      RootApart(c, t, node, G());
      UnhookAt(node, node, temp, c, t, k);
      assert Patch(G(), k, c.n) == G();
      Forget(node, c.Plug(k));
    }

    // A node with two children: where the fix-up starts.
    method DeleteBetween(node: Node, subst: Node, temp: Node, ghost c: Path, ghost t: Tree, ghost x: Path, ghost ts: Tree)
      requires Shown(c.Plug(t)) && t.Fork? && t.n == node && t.l.Fork?
      requires x.Plug(ts) == t.r && ts.Fork? && ts.l.Nil? && ts.n == subst && temp == Ptr(ts.r, sentinel)
      modifies this`root, this`nodes, nodes`left, nodes`right, nodes`parent, nodes`red, sentinel`parent, node`key
      ensures Shown(x.Then(In(R, subst, t.red, t.l, c)).Plug(ts.r)) && nodes == old(nodes) - {node}
      ensures ts.r.Nil? ==> sentinel.parent == x.Then(In(R, subst, t.red, t.l, c)).n
      ensures node.left == node.right == node.parent == null && node.key == 0
    {
      View(c, t);
      SuccessorNodes(c, t, x, ts, G());
      Substitute(node, subst, temp, c, t, x, ts);
      Forget(node, c.Plug(Fork(t.l, subst, t.red, x.Plug(ts.r))));
      PlugThen(x, In(R, subst, t.red, t.l, c), ts.r);
    }

    // The node that is unlinked in place of node, and its only child.
    method Choose(node: Node, ghost c: Path, ghost t: Tree)
      returns (subst: Node, temp: Node, ghost x: Path, ghost ts: Tree, ghost k: Tree)
      requires Shown(c.Plug(t)) && t.Fork? && t.n == node
      ensures temp == Ptr(k, sentinel) && ts.Fork? && ts.n == subst && ((ts.l == Nil && k == ts.r) || (ts.r == Nil && k == ts.l))
      ensures subst == node ==> x == Top && ts == t && (subst == root <==> c.Top?)
      ensures subst != node ==> t.l.Fork? && x.Plug(ts) == t.r && Lefty(x) && ts.l.Nil? && subst != root
      ensures subst in nodes && subst.red == ts.red
    {
      View(c, t);
      if node.left == sentinel {
        temp, subst := node.right, node;
        x, ts, k := Top, t, t.r;
      } else if node.right == sentinel {
        temp, subst := node.left, node;
        x, ts, k := Top, t, t.l;
      } else {
        ghost var cx := In(R, node, t.red, t.l, c);
        View(cx, t.r);
        subst, x, ts := Min(node.right, cx, t.r);
        PlugThen(x, cx, ts);
        View(x.Then(cx), ts);
        SuccessorNodes(c, t, x, ts, G());
        var left, right := subst.left, subst.right;
        var child: Node? := if left != sentinel then left else right;
        temp := child;
        k := ts.r;
      }
    }

    lemma InShape()
      requires Valid()
      ensures nodes == shape.Nodes() && sentinel !in nodes
    {}

    method Delete(node: Node) returns (ghost at: nat)
      requires Valid() && node in nodes
      modifies this`root, this`nodes, this`shape, nodes`left, nodes`right, nodes`parent, nodes`red, node`key
      modifies sentinel`parent, sentinel`red
      ensures Valid() && nodes == old(nodes) - {node}
      ensures at < |old(Order())| && old(Order())[at] == node
      ensures Order() == old(Order())[..at] + old(Order())[at + 1..]
      ensures node.left == node.right == node.parent == null && node.key == 0
    {
      hide RedBlack, Lefty, Shown;
      InShape();
      ghost var c, t := Locate(Top, shape, node);
      at := |c.Before()| + |t.l.InOrder()|;
      var subst, temp;
      ghost var x, ts, k;
      subst, temp, x, ts, k := Choose(node, c, t);
      if subst == node { ChildOrder(c, t, k); } else { SuccessorOrder(c, t, x, ts); }
      if subst == root {
        DeleteRoot(node, temp, k);
        return;
      }
      DeleteBelowRoot(node, subst, temp, c, t, x, ts, k);
    }

    // Everything of rbtree_delete after the test for the root.
    method DeleteBelowRoot(node: Node, subst: Node, temp: Node, ghost c: Path, ghost t: Tree, ghost x: Path, ghost ts: Tree, ghost k: Tree)
      requires Valid() && shape == c.Plug(t) && t.Fork? && t.n == node
      requires temp == Ptr(k, sentinel) && ts.Fork? && ts.n == subst && subst.red == ts.red && ((ts.l == Nil && k == ts.r) || (ts.r == Nil && k == ts.l))
      requires subst == node ==> x == Top && ts == t && c.In?
      requires subst != node ==> t.l.Fork? && x.Plug(ts) == t.r && Lefty(x) && ts.l.Nil?
      modifies this`root, this`nodes, this`shape, nodes`left, nodes`right, nodes`parent, nodes`red, node`key
      modifies sentinel`parent, sentinel`red
      ensures Valid() && nodes == old(nodes) - {node}
      ensures Order() == (if subst == node then c else x.Then(In(R, subst, t.red, t.l, c))).Plug(k).InOrder()
      ensures node.left == node.right == node.parent == null && node.key == 0
    {
      var red := subst.red;
      ghost var cs, h := Unlink(node, subst, temp, c, t, x, ts, k);
      UnhookColours(cs, ts, k, h);
      if red {
        shape := cs.Plug(k);
        return;
      }
      FixDelete(temp, cs, k, h - 1);
    }

    // The relinking of rbtree_delete below the root; cs is where the child of subst now hangs.
    method Unlink(node: Node, subst: Node, temp: Node, ghost c: Path, ghost t: Tree, ghost x: Path, ghost ts: Tree, ghost k: Tree)
      returns (ghost cs: Path, ghost h: int)
      requires Valid() && shape == c.Plug(t) && t.Fork? && t.n == node
      requires temp == Ptr(k, sentinel) && ts.Fork? && ts.n == subst && ((ts.l == Nil && k == ts.r) || (ts.r == Nil && k == ts.l))
      requires subst == node ==> x == Top && ts == t && c.In?
      requires subst != node ==> t.l.Fork? && x.Plug(ts) == t.r && Lefty(x) && ts.l.Nil?
      modifies this`root, this`nodes, nodes`left, nodes`right, nodes`parent, nodes`red, sentinel`parent, node`key
      ensures cs == if subst == node then c else x.Then(In(R, subst, t.red, t.l, c))
      ensures Shown(cs.Plug(k)) && nodes == old(nodes) - {node} && (k.Nil? ==> sentinel.parent == cs.n)
      ensures Rb(ts, h) && RbPath(cs, h, ts.Red())
      ensures node.left == node.right == node.parent == null && node.key == 0
    {
      if subst == node {
        cs := c;
        h := SplitRb(c, t);
        DeleteInner(node, temp, c, t, k);
      } else {
        ghost var cx := In(R, node, t.red, t.l, c);
        PlugThen(x, cx, ts);
        h := SplitRb(x.Then(cx), ts);
        DeleteBetween(node, subst, temp, c, t, x, ts);
        RbPathRename(x, R, node, subst, t.red, t.l, c, h, ts.Red());
        cs := x.Then(In(R, subst, t.red, t.l, c));
      }
    }

    // rbtree_next
    method Next(node: Node) returns (next: Node?)
      requires Valid() && node in nodes
      ensures Follows(Order(), node, next)
    {
      hide Draws, RedBlack, Follows, Fits;
      ghost var c, t := Locate(Top, shape, node);
      View(c, t);
      PlugOrder(c, t);
      FollowsIn(c.Before() + t.l.InOrder(), node, t.r.InOrder() + c.After());
      assert Order() == c.Before() + t.l.InOrder() + [node] + (t.r.InOrder() + c.After());
      if node.right != sentinel {
        ghost var cx := In(R, node, t.red, t.l, c);
        View(cx, t.r);
        ghost var x, s;
        next, x, s := Min(node.right, cx, t.r);
        return;
      }
      next := Climb(node, c, t);
    }

    // The loop of rbtree_next: up to the first ancestor reached from its left side.
    method Climb(node0: Node, ghost c0: Path, ghost t0: Tree) returns (next: Node?)
      requires Valid() && c0.Plug(t0) == shape && t0.Fork? && t0.n == node0
      ensures next == if c0.After() == [] then null else c0.After()[0]
    {
      var node := node0;
      ghost var c, t := c0, t0;
      while true
        invariant t.Fork? && t.n == node && c.Plug(t) == shape && c.After() == c0.After()
        decreases c
      {
        View(c, t);
        var parent := node.parent;
        if node == root {
          return null;
        }
        assert c.sib.Fork? ==> c.sib.n in c.sib.Nodes();
        if node == parent.left {
          return parent;
        }
        node := parent;
        c, t := c.up, Join(c.d, t, c.n, c.red, c.sib);
      }
    }

    // rbtree_min at the root
    method First() returns (node: Node?)
      requires Valid()
      ensures node == if Order() == [] then null else Order()[0]
    {
      View(Top, shape);
      if root == sentinel {
        return null;
      }
      ghost var x, s;
      node, x, s := Min(root, Top, shape);
    }

    // From the least node, rbtree_next visits every node once, in order.
    method Walk() returns (visited: seq<Node>)
      requires Valid()
      ensures visited == Order()
    {
      visited := [];
      ghost var order := Order();
      Listing();
      var node := First();
      while node != null
        invariant visited <= order
        invariant if node == null then visited == order else |visited| < |order| && node == order[|visited|]
        decreases |order| - |visited|
      {
        ghost var k := |visited|;
        assert order[k] in nodes;
        visited := visited + [node];
        var next := Next(node);
        ghost var i :| 0 <= i < |order| && order[i] == node && next == if i + 1 < |order| then order[i + 1] else null;
        node := next;
      }
    }
  }
}
