/** The circular list of ltm/list.h. */
module ListRing {
  class ListHead {
    var next: ListHead?
    var prev: ListHead?

    constructor ()
      ensures next == null && prev == null
    {
      next, prev := null, null;
    }
  }

  ghost predicate Distinct(c: seq<ListHead>) { forall i, j :: 0 <= i < j < |c| ==> c[i] != c[j] }

  // Both links between two neighbours.
  ghost predicate Linked(a: ListHead, b: ListHead)
    reads a`next, b`prev
  {
    a.next == b && b.prev == a
  }

  ghost predicate Chain(c: seq<ListHead>)
    reads c
  {
    forall i :: 0 <= i < |c| - 1 ==> Linked(c[i], c[i + 1])
  }

  // A closed ring, read from any of its nodes: next and prev are inverse to each other all the way round.
  ghost predicate Closed(c: seq<ListHead>)
    reads c
  {
    c != [] && Distinct(c) && Chain(c) && Linked(c[|c| - 1], c[0])
  }

  // A list: its head and its entries.
  ghost predicate Ring(head: ListHead, s: seq<ListHead>)
    reads head, s
  {
    Closed([head] + s)
  }

  // A ring of two chains.
  lemma Open(a: seq<ListHead>, b: seq<ListHead>)
    requires Closed(a + b) && a != []
    ensures Distinct(a) && Distinct(b) && Chain(a) && Chain(b) && forall n :: n in b ==> n !in a
    ensures b == [] ==> Closed(a)
    ensures b != [] ==> Linked(a[|a| - 1], b[0]) && Linked(b[|b| - 1], a[0])
  {
    var c := a + b;
    assert forall i :: 0 <= i < |a| ==> c[i] == a[i];
    assert forall i :: 0 <= i < |b| ==> c[|a| + i] == b[i];
    forall i | 0 <= i < |a| - 1
      ensures Linked(a[i], a[i + 1])
    {
      assert Linked(c[i], c[i + 1]);
    }
    forall i | 0 <= i < |b| - 1
      ensures Linked(b[i], b[i + 1])
    {
      assert Linked(c[|a| + i], c[|a| + i + 1]);
    }
    if b == [] {
      assert c == a;
    } else {
      assert Linked(c[|a| - 1], c[|a|]);
    }
  }

  lemma Close(a: seq<ListHead>, b: seq<ListHead>)
    requires a != [] && Distinct(a) && Distinct(b) && Chain(a) && Chain(b) && forall n :: n in b ==> n !in a
    requires if b == [] then Linked(a[|a| - 1], a[0]) else Linked(a[|a| - 1], b[0]) && Linked(b[|b| - 1], a[0])
    ensures Closed(a + b)
  {
    var c := a + b;
    assert forall i :: 0 <= i < |a| ==> c[i] == a[i];
    assert forall i :: |a| <= i < |c| ==> c[i] == b[i - |a|];
    forall i, j | 0 <= i < j < |c|
      ensures c[i] != c[j]
    {
      if i < |a| <= j {
        assert c[j] in b;
      }
    }
  }

  lemma Turn(a: seq<ListHead>, b: seq<ListHead>)
    requires Closed(a + b)
    ensures Closed(b + a)
  {
    if a == [] || b == [] {
      assert a + b == b + a;
    } else {
      Open(a, b);
      Close(b, a);
    }
  }

  method InitListHead(list: ListHead)
    modifies list
    ensures Ring(list, [])
  {
    list.next := list;
    list.prev := list;
  }

  // Between the last node of a ring and the first.
  method AddBetween(added: ListHead, prev: ListHead, next: ListHead, ghost c: seq<ListHead>)
    requires Closed(c) && added !in c && prev == c[|c| - 1] && next == c[0]
    modifies added, prev`next, next`prev
    ensures Closed(c + [added])
  {
    next.prev := added;
    added.next := next;
    added.prev := prev;
    prev.next := added;
    Close(c, [added]);
  }

  method DelBetween(prev: ListHead, next: ListHead, ghost entry: ListHead, ghost t: seq<ListHead>)
    requires Closed([entry] + t) && t != [] && prev == t[|t| - 1] && next == t[0]
    modifies prev`next, next`prev
    ensures Closed(t)
  {
    Open([entry], t);
    next.prev := prev;
    prev.next := next;
  }

  // A ring without its head goes in after the last node of another.
  method SpliceBetween(list: ListHead, prev: ListHead, next: ListHead, ghost x: seq<ListHead>, ghost c: seq<ListHead>)
    requires Closed([list] + x) && x != [] && Closed(c) && prev == c[|c| - 1] && next == c[0]
    requires forall i :: 0 <= i < |x| ==> x[i] !in c
    modifies x, prev`next, next`prev
    ensures Closed(c + x)
  {
    Open([list], x);
    assert prev in c && next in c && forall i :: 0 <= i < |x| ==> x[i] in x && x[i] !in c;
    var first, last := list.next, list.prev;
    first.prev := prev;
    prev.next := first;
    last.next := next;
    next.prev := last;
    Close(c, x);
  }

  // The entries x, up to entry, leave the ring for the head list.
  method CutBetween(list: ListHead, head: ListHead, entry: ListHead, ghost x: seq<ListHead>, ghost y: seq<ListHead>)
    requires Closed([head] + x + y) && x != [] && entry == x[|x| - 1] && list !in [head] + x + y
    modifies list, head, x, y
    ensures Closed([list] + x) && Closed([head] + y)
  {
    OpenTwice(head, x, y, list);
    var newFirst := entry.next;
    list.next := head.next;
    list.next.prev := list;
    list.prev := entry;
    entry.next := list;
    head.next := newFirst;
    newFirst.prev := head;
    Close([list], x);
    Close([head], y);
  }

  lemma OpenTwice(head: ListHead, x: seq<ListHead>, y: seq<ListHead>, list: ListHead)
    requires Closed([head] + x + y) && x != [] && list !in [head] + x + y
    ensures Chain(x) && Distinct(x) && Linked(head, x[0]) && Chain(y) && Distinct(y)
    ensures if y == [] then Linked(x[|x| - 1], head) else Linked(x[|x| - 1], y[0]) && Linked(y[|y| - 1], head)
    ensures list != head && forall i :: 0 <= i < |x| ==> x[i] != list && x[i] != head
    ensures forall i :: 0 <= i < |y| ==> y[i] != list && y[i] != head && y[i] !in x
  {
    hide Closed, Chain, Linked;
    var front := [head] + x;
    Open(front, y);
    Unlink(head, x);
    assert front[0] == head && front[|x|] == x[|x| - 1];
    assert forall i :: 0 <= i < |x| ==> (front + y)[1 + i] == x[i];
    assert forall i :: 0 <= i < |y| ==> (front + y)[1 + |x| + i] == y[i];
    assert forall i :: 0 <= i < |y| ==> y[i] in y;
    assert head in front && forall n :: n in x ==> n in front;
  }

  lemma Unlink(head: ListHead, x: seq<ListHead>)
    requires Chain([head] + x) && Distinct([head] + x) && x != []
    ensures Chain(x) && Linked(head, x[0]) && Distinct(x) && head !in x
  {
    var c := [head] + x;
    assert forall i :: 0 <= i < |x| ==> c[i + 1] == x[i];
    assert Linked(c[0], c[1]);
    forall i | 0 <= i < |x| - 1
      ensures Linked(x[i], x[i + 1])
    {
      assert Linked(c[i + 1], c[i + 2]);
    }
  }

  // A node takes the place of another; alone, it closes on itself.
  method Replace(old_: ListHead, new_: ListHead, ghost t: seq<ListHead>)
    requires Closed([old_] + t) && new_ !in [old_] + t
    modifies new_, old_, t
    ensures Closed([new_] + t)
  {
    Open([old_], t);
    new_.next := old_.next;
    new_.next.prev := new_;
    new_.prev := old_.prev;
    new_.prev.next := new_;
    Close([new_], t);
  }

  // The same ring read from the entry at k.
  function Others(head: ListHead, s: seq<ListHead>, k: nat): seq<ListHead>
    requires k < |s|
  {
    s[k + 1..] + ([head] + s[..k])
  }

  lemma FromEntry(head: ListHead, s: seq<ListHead>, k: nat)
    requires Ring(head, s) && k < |s|
    ensures Closed([s[k]] + Others(head, s, k))
  {
    var a, b := [head] + s[..k], [s[k]] + s[k + 1..];
    assert [head] + s == a + b;
    Turn(a, b);
    assert b + a == [s[k]] + Others(head, s, k);
  }

  lemma WithoutEntry(head: ListHead, s: seq<ListHead>, k: nat)
    requires k < |s| && Closed(Others(head, s, k))
    ensures Ring(head, s[..k] + s[k + 1..])
  {
    Turn(s[k + 1..], [head] + s[..k]);
    assert [head] + s[..k] + s[k + 1..] == [head] + (s[..k] + s[k + 1..]);
  }

  method ListAdd(added: ListHead, head: ListHead, ghost s: seq<ListHead>)
    requires Ring(head, s) && added !in [head] + s
    modifies added, head, s
    ensures Ring(head, [added] + s)
  {
    Turn([head], s);
    ghost var c := s + [head];
    AddBetween(added, head, head.next, c);
    assert c + [added] == s + [head, added];
    Turn(s, [head, added]);
    assert [head, added] + s == [head] + ([added] + s);
  }

  method ListAddTail(added: ListHead, head: ListHead, ghost s: seq<ListHead>)
    requires Ring(head, s) && added !in [head] + s
    modifies added, head, s
    ensures Ring(head, s + [added])
  {
    AddBetween(added, head.prev, head, [head] + s);
    assert [head] + s + [added] == [head] + (s + [added]);
  }

  method ListDelEntry(entry: ListHead, ghost head: ListHead, ghost s: seq<ListHead>, ghost k: nat)
    requires Ring(head, s) && k < |s| && entry == s[k]
    modifies head, s
    ensures Ring(head, s[..k] + s[k + 1..])
    ensures entry.next == old(entry.next) && entry.prev == old(entry.prev)
  {
    FromEntry(head, s, k);
    ghost var t := Others(head, s, k);
    Open([entry], t);
    assert entry !in t;
    DelBetween(entry.prev, entry.next, entry, t);
    WithoutEntry(head, s, k);
  }

  // The entry is left pointing nowhere.
  method ListDel(entry: ListHead, ghost head: ListHead, ghost s: seq<ListHead>, ghost k: nat)
    requires Ring(head, s) && k < |s| && entry == s[k]
    modifies head, s
    ensures Ring(head, s[..k] + s[k + 1..])
    ensures entry.next == null && entry.prev == null
  {
    NotAmongOthers(head, s, k);
    ListDelEntry(entry, head, s, k);
    entry.next := null;
    entry.prev := null;
  }

  lemma NotAmongOthers(head: ListHead, s: seq<ListHead>, k: nat)
    requires Distinct([head] + s) && k < |s|
    ensures s[k] !in [head] + (s[..k] + s[k + 1..])
  {
    var c, r := [head] + s, [head] + (s[..k] + s[k + 1..]);
    assert c[k + 1] == s[k];
    forall j | 0 <= j < |r|
      ensures r[j] != s[k]
    {
      assert r[j] == c[if j <= k then j else j + 1];
    }
  }

  // The entry is left as an empty list.
  method ListDelInit(entry: ListHead, ghost head: ListHead, ghost s: seq<ListHead>, ghost k: nat)
    requires Ring(head, s) && k < |s| && entry == s[k]
    modifies head, s
    ensures Ring(head, s[..k] + s[k + 1..]) && Ring(entry, [])
  {
    NotAmongOthers(head, s, k);
    ListDelEntry(entry, head, s, k);
    InitListHead(entry);
  }

  // Replacing the entry at k, in terms of the list.
  lemma ReplacedEntry(head: ListHead, s: seq<ListHead>, k: nat, added: ListHead)
    requires k < |s| && Closed([added] + Others(head, s, k))
    ensures Ring(head, s[k := added])
  {
    assert [added] + s[k + 1..] + ([head] + s[..k]) == [added] + Others(head, s, k);
    Turn([added] + s[k + 1..], [head] + s[..k]);
    assert [head] + s[..k] + ([added] + s[k + 1..]) == [head] + s[k := added];
  }

  method ReplaceInit(old_: ListHead, new_: ListHead, ghost t: seq<ListHead>)
    requires Closed([old_] + t) && new_ !in [old_] + t
    modifies new_, old_, t
    ensures Closed([new_] + t) && Ring(old_, [])
  {
    Open([old_], t);
    assert old_ !in [new_] + t;
    Replace(old_, new_, t);
    InitListHead(old_);
  }

  // An entry moves to the front of a list, its own or another one.
  method ListMove(entry: ListHead, head: ListHead, ghost from: ListHead, ghost s: seq<ListHead>, ghost k: nat,
    ghost u: seq<ListHead>)
    requires Ring(from, s) && k < |s| && entry == s[k]
    requires if head == from then u == s[..k] + s[k + 1..]
             else Ring(head, u) && Apart(head, u, from, s)
    modifies from, s, head, u
    ensures Ring(head, [entry] + u)
    ensures head != from ==> Ring(from, s[..k] + s[k + 1..])
  {
    NotAmongOthers(from, s, k);
    hide Closed;
    ghost var rest := s[..k] + s[k + 1..];
    assert entry in s && entry !in rest && entry != from && forall n :: n in rest ==> n in s;
    ListDelEntry(entry, from, s, k);
    assert head != from ==> Ring(head, u);
    ListAdd(entry, head, u);
  }

  method ListMoveTail(entry: ListHead, head: ListHead, ghost from: ListHead, ghost s: seq<ListHead>, ghost k: nat,
    ghost u: seq<ListHead>)
    requires Ring(from, s) && k < |s| && entry == s[k]
    requires if head == from then u == s[..k] + s[k + 1..]
             else Ring(head, u) && Apart(head, u, from, s)
    modifies from, s, head, u
    ensures Ring(head, u + [entry])
    ensures head != from ==> Ring(from, s[..k] + s[k + 1..])
  {
    NotAmongOthers(from, s, k);
    hide Closed;
    ghost var rest := s[..k] + s[k + 1..];
    assert entry in s && entry !in rest && entry != from && forall n :: n in rest ==> n in s;
    ListDelEntry(entry, from, s, k);
    assert head != from ==> Ring(head, u);
    ListAddTail(entry, head, u);
  }

  // Two lists with no node in common.
  predicate Apart(head: ListHead, u: seq<ListHead>, from: ListHead, s: seq<ListHead>) {
    head != from && head !in s && from !in u && forall i :: 0 <= i < |u| ==> u[i] !in s
  }

  predicate ListEmpty(head: ListHead)
    reads head
  {
    head.next == head
  }

  predicate ListIsSingular(head: ListHead)
    reads head
  {
    !ListEmpty(head) && head.next == head.prev
  }

  lemma EmptyAndSingular(head: ListHead, s: seq<ListHead>)
    requires Ring(head, s)
    ensures ListEmpty(head) <==> s == []
    ensures ListIsSingular(head) <==> |s| == 1
    ensures s != [] ==> head.next == s[0] && head.prev == s[|s| - 1]
  {
    if s != [] {
      Open([head], s);
      assert s[0] in s;
    }
  }

  // The first entry goes to the end.
  method ListRotateLeft(head: ListHead, ghost s: seq<ListHead>)
    requires Ring(head, s)
    modifies head, s
    ensures Ring(head, if s == [] then [] else s[1..] + [s[0]])
  {
    EmptyAndSingular(head, s);
    if !ListEmpty(head) {
      var first := head.next;
      assert s[..0] + s[0 + 1..] == s[1..];
      ListMoveTail(first, head, head, s, 0, s[1..]);
    }
  }

  // The entries up to entry go over to list. Nothing happens, to list either, if there are none,
  // or if there is just one and entry is some other node.
  method ListCutPosition(list: ListHead, head: ListHead, entry: ListHead, ghost s: seq<ListHead>, ghost k: nat)
    requires Ring(head, s) && list !in [head] + s
    requires entry == head || (k < |s| && entry == s[k]) || (|s| <= 1 && entry !in s)
    modifies list, head, s
    ensures s == [] || (entry != head && entry !in s) ==>
              Ring(head, s) && list.next == old(list.next) && list.prev == old(list.prev)
    ensures s != [] && entry == head ==> Ring(list, []) && Ring(head, s)
    ensures entry != head && entry in s ==> Ring(list, s[..k + 1]) && Ring(head, s[k + 1..])
  {
    EmptyAndSingular(head, s);
    if ListEmpty(head) {
      return;
    }
    if ListIsSingular(head) && head.next != entry && head != entry {
      return;
    }
    if entry == head {
      InitListHead(list);
    } else {
      assert [head] + s == [head] + s[..k + 1] + s[k + 1..];
      CutBetween(list, head, entry, s[..k + 1], s[k + 1..]);
    }
  }

  // The entries of list go in front of those of head; list keeps its old links.
  method ListSplice(list: ListHead, head: ListHead, ghost x: seq<ListHead>, ghost s: seq<ListHead>)
    requires Ring(list, x) && Ring(head, s) && Apart(list, x, head, s)
    modifies x, head, s
    ensures Ring(head, x + s)
  {
    EmptyAndSingular(list, x);
    if !ListEmpty(list) {
      Turn([head], s);
      SpliceBetween(list, head, head.next, x, s + [head]);
      assert s + [head] + x == s + ([head] + x);
      Turn(s, [head] + x);
      assert [head] + x + s == [head] + (x + s);
    } else {
      assert x + s == s;
    }
  }

  method ListSpliceTail(list: ListHead, head: ListHead, ghost x: seq<ListHead>, ghost s: seq<ListHead>)
    requires Ring(list, x) && Ring(head, s) && Apart(list, x, head, s)
    modifies x, head, s
    ensures Ring(head, s + x)
  {
    EmptyAndSingular(list, x);
    if !ListEmpty(list) {
      SpliceBetween(list, head.prev, head, x, [head] + s);
      assert [head] + s + x == [head] + (s + x);
    } else {
      assert s + x == s;
    }
  }

  method ListSpliceInit(list: ListHead, head: ListHead, ghost x: seq<ListHead>, ghost s: seq<ListHead>)
    requires Ring(list, x) && Ring(head, s) && Apart(list, x, head, s)
    modifies list, x, head, s
    ensures Ring(head, x + s) && Ring(list, [])
  {
    HeadElsewhere(list, x);
    if !ListEmpty(list) {
      ListSplice(list, head, x, s);
      InitListHead(list);
    } else {
      EmptyAndSingular(list, x);
      assert x + s == s;
    }
  }

  method ListSpliceTailInit(list: ListHead, head: ListHead, ghost x: seq<ListHead>, ghost s: seq<ListHead>)
    requires Ring(list, x) && Ring(head, s) && Apart(list, x, head, s)
    modifies list, x, head, s
    ensures Ring(head, s + x) && Ring(list, [])
  {
    HeadElsewhere(list, x);
    if !ListEmpty(list) {
      ListSpliceTail(list, head, x, s);
      InitListHead(list);
    } else {
      EmptyAndSingular(list, x);
      assert s + x == s;
    }
  }

  lemma HeadElsewhere(list: ListHead, x: seq<ListHead>)
    requires Distinct([list] + x)
    ensures list !in x
  {
    var c := [list] + x;
    assert c[0] == list && forall i :: 0 <= i < |x| ==> c[i + 1] == x[i];
  }

  lemma PiecesApart(list: ListHead, head: ListHead, s: seq<ListHead>, k: nat)
    requires Distinct([head] + s) && list !in [head] + s && k <= |s|
    ensures Apart(list, s[..k], head, s[k..])
  {
    var c := [head] + s;
    assert c[0] == head && forall i :: 0 <= i < |s| ==> c[i + 1] == s[i];
    assert forall i :: 0 <= i < k ==> s[..k][i] == c[i + 1];
    assert forall i :: 0 <= i < |s| - k ==> s[k..][i] == c[k + i + 1];
    assert forall n :: n in s[..k] ==> n in s;
    assert forall n :: n in s[k..] ==> n in s;
    assert forall n :: n in s ==> n in c && n != head;
  }

  // Cutting a list anywhere and splicing the piece back restores it.
  method CutThenSplice(list: ListHead, head: ListHead, entry: ListHead, ghost s: seq<ListHead>, ghost k: nat)
    requires Ring(head, s) && list !in [head] + s && (entry == head || (k < |s| && entry == s[k]))
    requires s == [] ==> Ring(list, [])
    modifies list, head, s
    ensures Ring(head, s)
  {
    PiecesApart(list, head, s, if entry == head then 0 else k + 1);
    ListCutPosition(list, head, entry, s, k);
    if entry == head {
      ListSplice(list, head, [], s);
      assert [] + s == s;
    } else {
      assert s[..k + 1] + s[k + 1..] == s;
      ListSplice(list, head, s[..k + 1], s[k + 1..]);
    }
  }
}
