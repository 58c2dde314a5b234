/** spp/spp_timer.c: delayed calls kept in the heap by expiry time, on an unbounded clock. */
module SppTimer {
  import Timers
  import opened SppHeap

  datatype Timer<P> = Timer(expire: nat, data: P)

  // The difference of two times, cast to int.
  function Compare<P>(t1: Timer<P>, t2: Timer<P>): int { Timers.Signed(t1.expire - t2.expire) }

  function Expiry<P>(t: Timer<P>): int { t.expire }

  // Times so close that the cast loses nothing.
  ghost predicate Window<P>(s: multiset<Timer<P>>) {
    forall a, b :: a in s && b in s ==> a.expire - b.expire < Timers.HALF
  }

  lemma WindowAgrees<P>(s: multiset<Timer<P>>)
    requires Window(s)
    ensures Agrees(Compare<P>, Expiry<P>, s)
  {
    forall a, b | a in s && b in s
      ensures Compare(a, b) < 0 <==> Expiry(a) < Expiry(b)
    {
      assert a.expire - b.expire < Timers.HALF && b.expire - a.expire < Timers.HALF;
    }
  }

  // What one run of the callback has fired, and what is still pending.
  ghost predicate Fired<P>(all: multiset<Timer<P>>, fired: seq<Timer<P>>, pending: multiset<Timer<P>>, clock: nat -> nat) {
    && multiset(fired) + pending == all
    && (forall i :: 0 <= i < |fired| ==> fired[i].expire <= clock(i))
    && (forall i, j :: 0 <= i < j < |fired| ==> fired[i].expire <= fired[j].expire)
    && (forall i, x :: 0 <= i < |fired| && x in pending ==> fired[i].expire <= x.expire)
  }

  lemma FiredNext<P>(all: multiset<Timer<P>>, fired: seq<Timer<P>>, pending: multiset<Timer<P>>, clock: nat -> nat, t: Timer<P>)
    requires Fired(all, fired, pending, clock) && t in pending && t.expire <= clock(|fired|)
    requires forall x :: x in pending ==> t.expire <= x.expire
    ensures Fired(all, fired + [t], pending - multiset{t}, clock)
  {
    assert multiset(fired + [t]) == multiset(fired) + multiset{t};
    assert pending == multiset{t} + (pending - multiset{t});
    assert forall x :: x in pending - multiset{t} ==> x in pending;
  }

  class TimerQueue<P(0)> {
    const heap: Heap<Timer<P>>

    constructor ()
      ensures Valid() && heap.Contents() == multiset{}
      ensures fresh(heap) && fresh(heap.heap)
    {
      heap := new Heap(512, Compare<P>);
    }

    ghost predicate Valid()
      reads this, heap, heap.heap
    {
      heap.cmp == Compare<P> && heap.Valid(Expiry<P>) && Window(heap.Contents())
    }

    // The allocation of the timer and the growth of the heap may fail.
    method New(data: P, delay: nat, jiffies: nat, hasTimer: bool, got: bool) returns (ok: bool)
      requires Valid() && Window(heap.Contents() + multiset{Timer(jiffies + delay, data)})
      modifies heap, heap.heap
      ensures Valid()
      ensures heap.Contents() == if ok then old(heap.Contents()) + multiset{Timer(jiffies + delay, data)}
                                 else old(heap.Contents())
      ensures ok == (hasTimer && (old(heap.pos < heap.size) || (old(heap.size) < HEAP_MAX && got)))
    {
      if !hasTimer {
        return false;
      }
      hide Window, Agrees;
      var tm := Timer(jiffies + delay, data);
      WindowAgrees(heap.Contents() + multiset{tm});
      ok := heap.Add(tm, got, Expiry<P>);
    }

    // The first timer, if it has expired.
    method Next(now: nat) returns (due: bool, tm: Timer<P>)
      requires Valid() && !heap.Empty()
      modifies heap`pos, heap.heap
      ensures Valid() && heap.pos <= old(heap.pos)
      ensures tm in old(heap.Contents()) && forall x :: x in old(heap.Contents()) ==> tm.expire <= x.expire
      ensures due == (tm.expire <= now) && (due ==> heap.pos < old(heap.pos))
      ensures heap.Contents() == if due then old(heap.Contents()) - multiset{tm} else old(heap.Contents())
    {
      hide Agrees, Window;
      tm := heap.Top();
      TopIsLeast(Expiry<P>, heap.heap[..], heap.pos);
      if tm.expire > now {
        return false, tm;
      }
      ghost var before := heap.Contents();
      WindowAgrees(before);
      tm := heap.Del(Expiry<P>);
      WindowShrinks(before, heap.Contents());
      return true, tm;
    }

    // The clock is read anew for every timer. Handlers do not come back to the queue.
    method Callback(clock: nat -> nat) returns (fired: seq<Timer<P>>)
      requires Valid()
      modifies heap`pos, heap.heap
      ensures Valid()
      ensures Fired(old(heap.Contents()), fired, heap.Contents(), clock)
      ensures forall x :: x in heap.Contents() ==> clock(|fired|) < x.expire
    {
      hide Fired, Window;
      ghost var all := heap.Contents();
      fired := [];
      NothingFired(all, clock);
      while !heap.Empty()
        invariant Valid() && Fired(all, fired, heap.Contents(), clock)
        decreases heap.pos
      {
        ghost var before := heap.Contents();
        var due, tm := Next(clock(|fired|));
        if !due {
          break;
        }
        FiredNext(all, fired, before, clock, tm);
        fired := fired + [tm];
      }
    }
  }

  lemma NothingFired<P>(all: multiset<Timer<P>>, clock: nat -> nat)
    ensures Fired(all, [], all, clock)
  {}

  lemma WindowShrinks<P>(s: multiset<Timer<P>>, t: multiset<Timer<P>>)
    requires Window(s) && t <= s
    ensures Window(t)
  {}
}
