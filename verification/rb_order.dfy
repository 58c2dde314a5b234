/** The two key orders of tserver/rb_tree.c, and where an insertion descent ends. */
module RbOrder {
  import opened RbShape
  import opened MachineWord

  // Which comparison the insertion descent uses (the function pointer in the source's tree).
  datatype InsertBy = ByValue | ByTimer

  // The test that sends the descent to the left: a plain unsigned comparison, or the sign of the wrapped difference.
  predicate Less(how: InsertBy, a: int, b: int) {
    match how
    case ByValue => a < b
    case ByTimer => (a - b) % WORD >= WORD / 2
  }

  // A ranking of the nodes that explains the test. The plain test always has one, the keys themselves.
  ghost predicate Ranks(how: InsertBy, rank: map<Node, int>, s: set<Node>)
    reads s`key
  {
    && (forall a :: a in s ==> a in rank)
    && (forall a, b :: a in s && b in s ==> (Less(how, a.key, b.key) <==> rank[a] < rank[b]))
  }

  lemma PlainRanks(s: set<Node>) returns (rank: map<Node, int>)
    ensures Ranks(ByValue, rank, s) && forall a :: a in s ==> rank[a] == a.key
  {
    rank := map a | a in s :: a.key;
  }

  function Offset(base: int, k: int): int { (k - base) % WORD }

  // No two keys are half a circle apart, counted from base.
  ghost predicate Window(base: int, s: set<Node>)
    reads s`key
  {
    forall a, b :: a in s && b in s ==> Offset(base, a.key) - Offset(base, b.key) < WORD / 2
  }

  lemma OffsetLess(base: int, a: int, b: int)
    requires -(WORD / 2) < Offset(base, a) - Offset(base, b) < WORD / 2
    ensures Less(ByTimer, a, b) <==> Offset(base, a) < Offset(base, b)
  {
    var x, y := (a - base) / WORD, (b - base) / WORD;
    assert a - b == (Offset(base, a) - Offset(base, b)) + WORD * (x - y);
    ModShift(Offset(base, a) - Offset(base, b), x - y);
  }

  lemma {:induction false} ModShift(d: int, k: int)
    ensures (d + WORD * k) % WORD == d % WORD
    decreases if k < 0 then -k else k
  {
    if k > 0 {
      ModShift(d, k - 1);
      assert (d + WORD * k) == (d + WORD * (k - 1)) + WORD;
    } else if k < 0 {
      ModShift(d, k + 1);
      assert (d + WORD * k) == (d + WORD * (k + 1)) - WORD;
    }
  }

  // Within a window the wrapped comparison is explained by the offsets ...
  lemma WindowRanks(base: int, s: set<Node>) returns (rank: map<Node, int>)
    requires Window(base, s)
    ensures Ranks(ByTimer, rank, s)
    ensures rank.Keys == s && forall a :: a in s ==> rank[a] == Offset(base, a.key)
  {
    rank := map a | a in s :: Offset(base, a.key);
    forall a, b | a in s && b in s
      ensures Less(ByTimer, a.key, b.key) <==> rank[a] < rank[b]
    {
      assert -(WORD / 2) < Offset(base, a.key) - Offset(base, b.key) < WORD / 2;
      OffsetLess(base, a.key, b.key);
    }
  }

  // ... and beyond one it is not: three keys a third of the circle apart form a cycle.
  lemma NoWindowCycle()
    ensures var a, b, c := 0, 0x5555_5556, 0xAAAA_AAAC;
            Less(ByTimer, a, b) && Less(ByTimer, b, c) && Less(ByTimer, c, a)
  {}

  ghost predicate Sorted(rank: map<Node, int>, s: seq<Node>) {
    && (forall i :: 0 <= i < |s| ==> s[i] in rank)
    && (forall i, j :: 0 <= i < j < |s| ==> rank[s[i]] <= rank[s[j]])
  }

  // Everything before the hole of c ranks at most as x, everything after it ranks above x.
  ghost predicate Bounds(rank: map<Node, int>, x: Node, c: Path) {
    && x in rank
    && (forall y :: y in c.Before() ==> y in rank && rank[y] <= rank[x])
    && (forall y :: y in c.After() ==> y in rank && rank[x] < rank[y])
  }

  lemma SortedEnds(rank: map<Node, int>, a: seq<Node>, b: seq<Node>)
    requires Sorted(rank, a + b)
    ensures forall y :: y in a ==> y in rank && a[|a| - 1] in rank && rank[y] <= rank[a[|a| - 1]]
    ensures forall y :: y in b ==> y in rank && b[0] in rank && rank[b[0]] <= rank[y]
  {
    var s := a + b;
    forall y | y in a ensures y in rank && a[|a| - 1] in rank && rank[y] <= rank[a[|a| - 1]] {
      var i :| 0 <= i < |a| && a[i] == y;
      assert s[i] == y && s[|a| - 1] == a[|a| - 1];
    }
    forall y | y in b ensures y in rank && b[0] in rank && rank[b[0]] <= rank[y] {
      var i :| 0 <= i < |b| && b[i] == y;
      assert s[|a| + i] == y && s[|a|] == b[0];
    }
  }

  // In a sorted list the neighbours decide.
  lemma NeighboursBound(how: InsertBy, rank: map<Node, int>, x: Node, c: Path, nodes: set<Node>)
    requires Ranks(how, rank, nodes + {x}) && Sorted(rank, c.Plug(Nil).InOrder())
    requires c.Prev() != null ==> c.Prev() in nodes && !Less(how, x.key, c.Prev().key)
    requires c.Next() != null ==> c.Next() in nodes && Less(how, x.key, c.Next().key)
    ensures Bounds(rank, x, c)
  {
    hide Less, Sorted;
    PlugOrder(c, Nil);
    assert c.Plug(Nil).InOrder() == c.Before() + c.After();
    HoleNeighbours(c);
    SortedEnds(rank, c.Before(), c.After());
    assert x in nodes + {x};
  }

  // A stable insertion: x comes after everything that does not rank above it.
  ghost predicate StablyInserted(rank: map<Node, int>, s: seq<Node>, x: Node, at: nat) {
    && at <= |s| && x in rank
    && (forall i :: 0 <= i < at ==> s[i] in rank && rank[s[i]] <= rank[x])
    && (forall i :: at <= i < |s| ==> s[i] in rank && rank[x] < rank[s[i]])
  }

  lemma StableKeepsSorted(rank: map<Node, int>, s: seq<Node>, x: Node, at: nat)
    requires Sorted(rank, s) && StablyInserted(rank, s, x, at)
    ensures Sorted(rank, s[..at] + [x] + s[at..])
  {}

  lemma FirstPlace(how: InsertBy, rank: map<Node, int>, x: Node, nodes: set<Node>)
    requires Ranks(how, rank, nodes) && x in nodes
    ensures StablyInserted(rank, [], x, 0)
  {}

  lemma {:induction false} HolePlace(x: Node, c: Path)
    ensures var s, at := c.Plug(Nil).InOrder(), |c.Before()|;
            && s == c.Before() + c.After()
            && c.Plug(Fork(Nil, x, true, Nil)).InOrder() == s[..at] + [x] + s[at..]
  {
    PlugOrder(c, Nil);
    PlugOrder(c, Fork(Nil, x, true, Nil));
    assert Fork(Nil, x, true, Nil).InOrder() == [x];
    assert c.Plug(Nil).InOrder() == c.Before() + c.After();
  }

  // A descent that ends at the hole of c has found the stable place.
  lemma {:induction false} BoundsPlace(rank: map<Node, int>, x: Node, c: Path)
    requires Bounds(rank, x, c)
    ensures StablyInserted(rank, c.Plug(Nil).InOrder(), x, |c.Before()|)
  {
    HolePlace(x, c);
    var s := c.Plug(Nil).InOrder();
    forall i | 0 <= i < |c.Before()| ensures s[i] in c.Before() {}
    forall i | |c.Before()| <= i < |s| ensures s[i] in c.After() { assert s[i] == c.After()[i - |c.Before()|]; }
  }
}
