/** The binary heap of spp/spp_struct.c. Slot 0 is not used. */
module SppHeap {
  const HEAP_MAX := 8192

  // The order along the branches, over slots 1 to n - 1.
  ghost predicate InHeapOrder<T>(rank: T -> int, s: seq<T>, n: nat)
    requires n <= |s|
  {
    forall i :: 2 <= i < n ==> rank(s[i / 2]) <= rank(s[i])
  }

  // The comparison is explained by a rank, on the elements given.
  ghost predicate Agrees<T>(cmp: (T, T) -> int, rank: T -> int, s: multiset<T>) {
    forall a, b :: a in s && b in s ==> (cmp(a, b) < 0 <==> rank(a) < rank(b))
  }

  lemma {:induction false} RootIsLeast<T>(rank: T -> int, s: seq<T>, n: nat, i: nat)
    requires 1 <= i < n <= |s| && InHeapOrder(rank, s, n)
    ensures rank(s[1]) <= rank(s[i])
  {
    if i > 1 {
      RootIsLeast(rank, s, n, i / 2);
    }
  }

  // Moving the value at j up or down to i, and v to j.
  function Moved<T>(s: seq<T>, i: nat, j: nat, v: T): (r: seq<T>)
    requires i < |s| && j < |s|
    ensures |r| == |s|
  {
    s[i := s[j]][j := v]
  }

  lemma MovedKeeps<T>(s: seq<T>, lo: nat, n: nat, i: nat, j: nat)
    requires lo <= i < n <= |s| && lo <= j < n && i != j
    ensures multiset(Moved(s, i, j, s[i])[lo..n]) == multiset(s[lo..n])
  {
    var t := s[lo..n];
    assert Moved(s, i, j, s[i])[lo..n] == t[i - lo := t[j - lo]][j - lo := t[i - lo]];
  }

  // While v rises from the end, the branches below and beside its place are in order.
  ghost predicate Rising<T>(rank: T -> int, s: seq<T>, n: nat, p: nat) {
    1 <= p < n <= |s|
    && (forall i :: 2 <= i < n && i != p ==> rank(s[i / 2]) <= rank(s[i]))
    && (p > 1 ==> forall i :: 2 <= i < n && i / 2 == p ==> rank(s[p / 2]) <= rank(s[i]))
  }

  lemma RiseStep<T>(rank: T -> int, s: seq<T>, n: nat, p: nat)
    requires Rising(rank, s, n, p) && p > 1 && rank(s[p]) <= rank(s[p / 2])
    ensures p < |s| && Rising(rank, Moved(s, p, p / 2, s[p]), n, p / 2)
  {
    var q, t := p / 2, Moved(s, p, p / 2, s[p]);
    forall i | 2 <= i < n && i != q
      ensures rank(t[i / 2]) <= rank(t[i])
    {
      if i == p {
      } else if i / 2 == p {
      } else if i / 2 == q {
        assert rank(s[q]) <= rank(s[i]);
      }
    }
  }

  // While v sinks from the top, every branch is in order except those below its place.
  ghost predicate Sinking<T>(rank: T -> int, s: seq<T>, n: nat, p: nat) {
    1 <= p <= n <= |s|
    && (forall i :: 2 <= i < n && i / 2 != p ==> rank(s[i / 2]) <= rank(s[i]))
    && (p > 1 ==> forall i :: 2 <= i < n && i / 2 == p ==> rank(s[p / 2]) <= rank(s[i]))
  }

  // m is the smaller child of p, among the slots below n, or slot n.
  ghost predicate LeastChild<T>(rank: T -> int, s: seq<T>, n: nat, p: nat, m: nat)
    requires n < |s|
  {
    (m == 2 * p || m == 2 * p + 1) && m <= n
    && forall i :: 2 <= i < n && i / 2 == p ==> rank(s[m]) <= rank(s[i])
  }

  lemma SinkStep<T>(rank: T -> int, s: seq<T>, n: nat, p: nat, m: nat)
    requires n < |s| && Sinking(rank, s, n, p) && m < n && LeastChild(rank, s, n, p, m)
    requires rank(s[m]) <= rank(s[p])
    ensures Sinking(rank, Moved(s, p, m, s[p]), n, m)
  {
    var t := Moved(s, p, m, s[p]);
    forall i | 2 <= i < n && i / 2 != m
      ensures rank(t[i / 2]) <= rank(t[i])
    {
      if i / 2 == p {
      } else if i == p {
        assert m / 2 == p;
      }
    }
  }

  class Heap<T(0)> {
    const cmp: (T, T) -> int
    var heap: array<T>
    var size: nat
    var pos: nat

    // For a legal size; otherwise the source returns nothing. The allocations are taken to succeed.
    constructor (size0: nat, cmp0: (T, T) -> int)
      requires 0 < size0 <= HEAP_MAX
      ensures fresh(heap) && heap.Length == size == size0 && pos == 1 && cmp == cmp0
    {
      heap, size, pos, cmp := new T[size0], size0, 1, cmp0;
    }

    ghost function Contents(): multiset<T>
      requires 1 <= pos <= heap.Length
      reads this, heap
    {
      multiset(heap[..][1..pos])
    }

    ghost predicate Valid(rank: T -> int)
      reads this, heap
    {
      heap.Length == size && 1 <= pos <= size < 2 * HEAP_MAX && InHeapOrder(rank, heap[..], pos)
    }

    predicate Empty()
      reads this
    {
      pos == 1
    }

    // The array doubles when it is full, up to the maximum; the new one may not be had.
    method Grow(got: bool, ghost rank: T -> int) returns (room: bool)
      requires Valid(rank)
      modifies this`heap, this`size
      ensures Valid(rank) && Contents() == old(Contents())
      ensures fresh(heap) || heap == old(heap)
      ensures room == (old(pos < size) || (old(size) < HEAP_MAX && got))
      ensures room ==> pos < size
    {
      ghost var was := heap[..];
      if pos >= size {
        if size >= HEAP_MAX {
          return false;
        }
        if !got {
          return false;
        }
        var bigger := new T[2 * size];
        forall i | 0 <= i < size {
          bigger[i] := heap[i];
        }
        heap, size := bigger, 2 * size;
        SameLive(rank, was, heap[..], pos);
      }
      return true;
    }

    method Put(i: nat, v: T)
      requires i < heap.Length
      modifies heap
      ensures heap[..] == old(heap[..])[i := v]
    {
      heap[i] := v;
    }

    // A new element rises from the first free slot past every parent that is not strictly smaller.
    method Rise(v: T, ghost rank: T -> int, ghost all: multiset<T>)
      requires 1 <= pos < heap.Length && Awaits(rank, heap[..], pos, v, all) && Agrees(cmp, rank, all)
      modifies heap
      ensures Holds(rank, heap[..], pos + 1, all)
    {
      hide Awaits, Holds, Agrees, Risen, InHeapOrder, Rising;
      ghost var n := pos + 1;
      RiseStart(rank, heap[..], pos, v, all);
      var p := pos;
      while p > 1
        invariant 1 <= p < n && Risen(rank, heap[..], n, p, v, all)
      {
        var parent := p / 2;
        RisenComparable(cmp, rank, heap[..], n, p, v, all, parent);
        var ret := cmp(heap[parent], v);
        if ret < 0 {
          break;
        }
        RiseOn(rank, heap[..], n, p, v, all, parent);
        Put(p, heap[parent]);
        p := parent;
      }
      RiseEnd(rank, heap[..], n, p, v, all);
      Put(p, v);
    }

    method Add(v: T, got: bool, ghost rank: T -> int) returns (ok: bool)
      requires Valid(rank) && Agrees(cmp, rank, Contents() + multiset{v})
      modifies this, heap
      ensures Valid(rank) && (fresh(heap) || heap == old(heap))
      ensures ok == (old(pos < size) || (old(size) < HEAP_MAX && got))
      ensures Contents() == if ok then old(Contents()) + multiset{v} else old(Contents())
    {
      hide InHeapOrder, Agrees;
      ok := Grow(got, rank);
      if !ok {
        return;
      }
      Rise(v, rank, Contents() + multiset{v});
      pos := pos + 1;
    }

    // The last element sinks from the top past every smaller child. Of two equal children the right one moves up;
    // when only a left child is live, the right one compared is the slot that still holds the last element.
    method Sink(last: T, ghost rank: T -> int, ghost all: multiset<T>)
      requires 1 <= pos < heap.Length && Beheaded(rank, heap[..], pos, last, all) && Agrees(cmp, rank, all)
      modifies heap
      ensures Holds(rank, heap[..], pos, all)
    {
      hide Beheaded, Holds, Agrees, Sunk, LeastChild;
      SinkStart(rank, heap[..], pos, last, all);
      var p := 1;
      while 2 * p < pos
        invariant 1 <= p <= pos && Sunk(rank, heap[..], pos, p, last, all)
        decreases pos - p
      {
        var left := 2 * p;
        var right := left + 1;
        var ret := cmp(heap[left], heap[right]);
        var min := if ret < 0 then left else right;
        SinkChoice(cmp, rank, heap[..], pos, p, last, all, min);
        if cmp(last, heap[min]) < 0 {
          break;
        }
        SinkOn(rank, heap[..], pos, p, last, all, min);
        Put(p, heap[min]);
        p := min;
      }
      SinkEnd(rank, heap[..], pos, p, last, all);
      Put(p, last);
    }

    method Del(ghost rank: T -> int) returns (res: T)
      requires Valid(rank) && !Empty() && Agrees(cmp, rank, Contents())
      modifies this`pos, heap
      ensures Valid(rank) && pos == old(pos) - 1
      ensures res in old(Contents()) && forall x :: x in old(Contents()) ==> rank(res) <= rank(x)
      ensures Contents() == old(Contents()) - multiset{res}
    {
      res := heap[1];
      TopIsLeast(rank, heap[..], pos);
      assert heap[1..pos] == heap[..][1..pos];
      var last := heap[pos - 1];
      pos := pos - 1;
      Sink(last, rank, multiset(heap[..][1..pos + 1]) - multiset{res});
    }

    function Top(): T
      requires 1 < heap.Length
      reads this, heap
    {
      heap[1]
    }

    // The elements in the order of their slots.
    method Visit() returns (visited: seq<T>)
      requires 1 <= pos <= heap.Length
      ensures multiset(visited) == Contents() && |visited| == pos - 1
    {
      visited := [];
      var i := 1;
      while i < pos
        invariant 1 <= i <= pos && visited == heap[1..i]
      {
        visited := visited + [heap[i]];
        i := i + 1;
      }
    }
  }

  lemma TopIsLeast<T>(rank: T -> int, s: seq<T>, n: nat)
    requires 1 < n <= |s| && InHeapOrder(rank, s, n)
    ensures s[1] in multiset(s[1..n]) && forall x :: x in multiset(s[1..n]) ==> rank(s[1]) <= rank(x)
  {
    assert s[1] == s[1..n][0];
    forall x | x in multiset(s[1..n])
      ensures rank(s[1]) <= rank(x)
    {
      var i: nat :| i < n - 1 && s[1..n][i] == x;
      RootIsLeast(rank, s, n, i + 1);
    }
  }

  // The state of the sinking loop over slots 1 to n - 1: last will stand at p, and is still in slot n.
  ghost predicate Sunk<T>(rank: T -> int, h: seq<T>, n: nat, p: nat, last: T, all: multiset<T>) {
    p <= n < |h| && Sinking(rank, h[p := last], n, p) && (p < n ==> h[n] == last)
    && multiset(h[p := last][1..n]) == all
  }

  lemma SinkStart<T>(rank: T -> int, h: seq<T>, n: nat, last: T, all: multiset<T>)
    requires Beheaded(rank, h, n, last, all)
    ensures Sunk(rank, h, n, 1, last, all)
  {
    var s := h[1 := last];
    assert h[1..n + 1] == h[1..n] + [last];
    if n > 1 {
      assert h[1..n] == [h[1]] + h[2..n];
      assert s[1..n] == [last] + h[2..n];
    }
  }

  lemma SunkFacts<T>(rank: T -> int, h: seq<T>, n: nat, p: nat, last: T, all: multiset<T>)
    requires Sunk(rank, h, n, p, last, all)
    ensures 1 <= p <= n < |h| && (p < n ==> h[n] == last)
    ensures Sinking(rank, h[p := last], n, p) && multiset(h[p := last][1..n]) == all
  {}

  lemma SinkChoice<T>(cmp: (T, T) -> int, rank: T -> int, h: seq<T>, n: nat, p: nat, last: T, all: multiset<T>, m: nat)
    requires Sunk(rank, h, n, p, last, all) && 2 * p < n < |h| && Agrees(cmp, rank, all)
    requires m == if cmp(h[2 * p], h[2 * p + 1]) < 0 then 2 * p else 2 * p + 1
    ensures LeastChild(rank, h[p := last], n, p, m) && (cmp(last, h[m]) < 0 <==> rank(last) < rank(h[m]))
  {
    hide Sunk, Sinking, Agrees;
    SunkFacts(rank, h, n, p, last, all);
    var s := h[p := last];
    var right := if 2 * p + 1 < n then 2 * p + 1 else p;
    Comparable(cmp, rank, s, n, 2 * p, right);
    Comparable(cmp, rank, s, n, p, if m < n then m else p);
  }

  lemma SinkOn<T>(rank: T -> int, h: seq<T>, n: nat, p: nat, last: T, all: multiset<T>, m: nat)
    requires Sunk(rank, h, n, p, last, all) && p < m <= n < |h| && LeastChild(rank, h[p := last], n, p, m)
    requires rank(h[m]) <= rank(last)
    ensures Sunk(rank, h[p := h[m]], n, m, last, all)
  {
    hide Sinking, LeastChild;
    SunkFacts(rank, h, n, p, last, all);
    var s := h[p := last];
    Handover(h, p, m, last);
    if m < n {
      SinkStep(rank, s, n, p, m);
      MovedKeeps(s, 1, n, p, m);
    } else {
      SinkOut(rank, s, n, p);
    }
  }

  // The value at m moves to p, and last takes its place.
  lemma Handover<T>(h: seq<T>, p: nat, m: nat, last: T)
    requires p < |h| && m < |h| && p != m
    ensures h[p := h[m]][m := last] == Moved(h[p := last], p, m, last)
    ensures h[m] == last ==> h[p := h[m]][m := last] == h[p := last]
  {}

  // With only a left child, last has ended up above it.
  lemma SinkOut<T>(rank: T -> int, s: seq<T>, n: nat, p: nat)
    requires n < |s| && Sinking(rank, s, n, p) && LeastChild(rank, s, n, p, n) && s[n] == s[p] && p < n
    ensures Sinking(rank, s, n, n)
  {}

  lemma SinkEnd<T>(rank: T -> int, h: seq<T>, n: nat, p: nat, last: T, all: multiset<T>)
    requires Sunk(rank, h, n, p, last, all)
    requires 2 * p >= n || exists m: nat :: LeastChild(rank, h[p := last], n, p, m) && rank(last) < rank(h[m])
    ensures p <= n && p < |h| && Holds(rank, h[p := last], n, all)
  {}

  lemma SameLive<T>(rank: T -> int, s: seq<T>, t: seq<T>, n: nat)
    requires 1 <= n <= |s| <= |t| && t[..n] == s[..n]
    ensures t[1..n] == s[1..n] && (InHeapOrder(rank, s, n) ==> InHeapOrder(rank, t, n))
  {
    assert forall k :: 0 <= k < n ==> t[k] == t[..n][k] == s[k];
  }

  lemma Comparable<T>(cmp: (T, T) -> int, rank: T -> int, s: seq<T>, n: nat, i: nat, j: nat)
    requires 1 <= i < n <= |s| && 1 <= j < n && Agrees(cmp, rank, multiset(s[1..n]))
    ensures cmp(s[i], s[j]) < 0 <==> rank(s[i]) < rank(s[j])
  {
    assert s[i] == s[1..n][i - 1] && s[j] == s[1..n][j - 1];
  }

  // A heap in the slots below n, with these elements.
  ghost predicate Holds<T>(rank: T -> int, h: seq<T>, n: nat, all: multiset<T>) {
    1 <= n <= |h| && InHeapOrder(rank, h, n) && multiset(h[1..n]) == all
  }

  // A heap below slot n, about to get v.
  ghost predicate Awaits<T>(rank: T -> int, h: seq<T>, n: nat, v: T, all: multiset<T>) {
    1 <= n < |h| && InHeapOrder(rank, h, n) && all == multiset(h[1..n]) + multiset{v}
  }

  // A heap up to slot n, about to lose its first element.
  ghost predicate Beheaded<T>(rank: T -> int, h: seq<T>, n: nat, last: T, all: multiset<T>) {
    1 <= n < |h| && InHeapOrder(rank, h, n + 1) && h[n] == last && all == multiset(h[1..n + 1]) - multiset{h[1]}
  }

  // The state of the rising loop: v will stand at p.
  ghost predicate Risen<T>(rank: T -> int, h: seq<T>, n: nat, p: nat, v: T, all: multiset<T>) {
    p < |h| && Rising(rank, h[p := v], n, p) && multiset(h[p := v][1..n]) == all
  }

  lemma RiseStart<T>(rank: T -> int, h: seq<T>, p: nat, v: T, all: multiset<T>)
    requires Awaits(rank, h, p, v, all)
    ensures Risen(rank, h, p + 1, p, v, all)
  {
    assert h[p := v][1..p + 1] == h[1..p] + [v];
  }

  lemma RisenComparable<T>(cmp: (T, T) -> int, rank: T -> int, h: seq<T>, n: nat, p: nat, v: T, all: multiset<T>,
    q: nat)
    requires Risen(rank, h, n, p, v, all) && p > 1 && Agrees(cmp, rank, all) && q == p / 2
    ensures p < |h| && (cmp(h[q], v) < 0 <==> rank(h[q]) < rank(v))
  {
    Comparable(cmp, rank, h[p := v], n, q, p);
  }

  lemma RiseOn<T>(rank: T -> int, h: seq<T>, n: nat, p: nat, v: T, all: multiset<T>, q: nat)
    requires Risen(rank, h, n, p, v, all) && p > 1 && q == p / 2 && rank(v) <= rank(h[q])
    ensures p < |h| && Risen(rank, h[p := h[q]], n, q, v, all)
  {
    hide Rising;
    var s := h[p := v];
    Handover(h, p, q, v);
    RisingBounds(rank, s, n, p);
    RiseStep(rank, s, n, p);
    MovedKeeps(s, 1, n, p, q);
  }

  lemma RisingBounds<T>(rank: T -> int, s: seq<T>, n: nat, p: nat)
    requires Rising(rank, s, n, p)
    ensures 1 <= p < n <= |s|
  {}

  lemma RiseEnd<T>(rank: T -> int, h: seq<T>, n: nat, p: nat, v: T, all: multiset<T>)
    requires Risen(rank, h, n, p, v, all) && p > 0 && (p == 1 || exists q: nat :: q == p / 2 && rank(h[q]) < rank(v))
    ensures p < n <= |h| && Holds(rank, h[p := v], n, all)
  {}
}
