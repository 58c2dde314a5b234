/** Whole runs of the timers of tserver/timers.c: starts, a clock that goes on, and expiries, against timers on an
    unbounded clock. As long as nothing lies half a circle behind or ahead, the wrapped wheel does the same. */
module TimerRuns {
  import opened MachineWord
  import opened RbOrder
  import opened RbShape
  import opened RbTree
  import opened Timers

  // A timer with its deadline on the unbounded clock; timers are numbered as they are started.
  datatype Tagged<P> = Tagged(deadline: int, data: P, id: nat)

  // The clock, what is pending, and how many calls of handlers and starts of timers there have been.
  datatype Clockwork<P> = Clockwork(time: int, list: seq<Tagged<P>>, calls: nat, next: nat)

  datatype Event<P> = Start(data: P, delay: int) | Advance(t: nat) | Expire

  // After every deadline that is not later.
  function Put<P>(s: seq<Tagged<P>>, e: Tagged<P>): seq<Tagged<P>> {
    if s == [] then [e] else if e.deadline < s[0].deadline then [e] + s else [s[0]] + Put(s[1..], e)
  }

  function PutAll<P>(s: seq<Tagged<P>>, es: seq<Tagged<P>>): seq<Tagged<P>> {
    if es == [] then s else Put(PutAll(s, es[..|es| - 1]), es[|es| - 1])
  }

  // How many timers at the front are due.
  function DueCount<P>(time: int, s: seq<Tagged<P>>): (n: nat)
    ensures n <= |s| && (forall i :: 0 <= i < n ==> s[i].deadline <= time) && (n < |s| ==> s[n].deadline > time)
  {
    if s == [] || s[0].deadline > time then 0 else 1 + DueCount(time, s[1..])
  }

  // The timers that requests made at this time ask for, numbered from id on.
  function Asked<P>(time: int, reqs: seq<(P, int)>, id: nat): (s: seq<Tagged<P>>)
    ensures |s| == |reqs|
  {
    seq(|reqs|, i requires 0 <= i < |reqs| => Tagged(time + reqs[i].1, reqs[i].0, id + i))
  }

  // What the handlers of these timers start, the first with the k-th call.
  function Begun<P>(handler: (P, nat) -> seq<(P, int)>, time: int, fired: seq<Tagged<P>>, k: nat, id: nat): seq<Tagged<P>> {
    if fired == [] then []
    else
      var n := |fired| - 1;
      var b := Begun(handler, time, fired[..n], k, id);
      b + Asked(time, handler(fired[n].data, k + n), id + |b|)
  }

  // What an event fires, and what it starts.
  function FiredBy<P>(c: Clockwork<P>, e: Event<P>): seq<Tagged<P>> {
    if e.Expire? then c.list[..DueCount(c.time, c.list)] else []
  }

  function StartedBy<P>(handler: (P, nat) -> seq<(P, int)>, c: Clockwork<P>, e: Event<P>): seq<Tagged<P>> {
    match e
    case Start(q, d) => [Tagged(c.time + d, q, c.next)]
    case Advance(_) => []
    case Expire => Begun(handler, c.time, FiredBy(c, e), c.calls, c.next)
  }

  function After<P>(handler: (P, nat) -> seq<(P, int)>, c: Clockwork<P>, e: Event<P>): Clockwork<P> {
    var fired, started := FiredBy(c, e), StartedBy(handler, c, e);
    Clockwork(if e.Advance? then c.time + e.t else c.time, PutAll(c.list[|fired|..], started),
      c.calls + |fired|, c.next + |started|)
  }

  // What a caller has to see to. A timer is started for less than half a circle after the first one pending; the
  // clock goes no further than half a circle past that one before the next expiry; and handlers are polite, and
  // patient towards the next timer that is due.
  ghost predicate Allowed<P>(handler: (P, nat) -> seq<(P, int)>, c: Clockwork<P>, e: Event<P>) {
    match e
    case Start(_, d) => TIMER_LAZY_DELAY <= d < HALF && (c.list == [] || c.time + d - c.list[0].deadline < HALF)
    case Advance(t) => c.list == [] || c.time + t - c.list[0].deadline <= HALF
    case Expire =>
      && (forall i, k: nat :: 0 <= i < |c.list| && c.list[i].deadline <= c.time ==> Polite(handler(c.list[i].data, k)))
      && (forall i :: 0 <= i < |c.list| - 1 && c.list[i + 1].deadline <= c.time ==>
            Spares(c.time, c.list[i + 1], handler(c.list[i].data, c.calls + i)))
  }

  ghost predicate Spares<P>(time: int, following: Tagged<P>, reqs: seq<(P, int)>) {
    forall i :: 0 <= i < |reqs| ==> time + reqs[i].1 - following.deadline < HALF
  }

  // The state after the first events of a run.
  function At<P>(handler: (P, nat) -> seq<(P, int)>, t0: int, run: seq<Event<P>>): Clockwork<P> {
    if run == [] then Clockwork(t0, [], 0, 0)
    else After(handler, At(handler, t0, run[..|run| - 1]), run[|run| - 1])
  }

  ghost predicate AllowedRun<P>(handler: (P, nat) -> seq<(P, int)>, t0: int, run: seq<Event<P>>) {
    forall i :: 0 <= i < |run| ==> Allowed(handler, At(handler, t0, run[..i]), run[i])
  }

  function FiredAt<P>(handler: (P, nat) -> seq<(P, int)>, t0: int, run: seq<Event<P>>, i: nat): seq<Tagged<P>>
    requires i < |run|
  {
    FiredBy(At(handler, t0, run[..i]), run[i])
  }

  function StartedAt<P>(handler: (P, nat) -> seq<(P, int)>, t0: int, run: seq<Event<P>>, i: nat): seq<Tagged<P>>
    requires i < |run|
  {
    StartedBy(handler, At(handler, t0, run[..i]), run[i])
  }

  function TimeAt<P>(handler: (P, nat) -> seq<(P, int)>, t0: int, run: seq<Event<P>>, i: nat): int
    requires i < |run|
  {
    At(handler, t0, run[..i]).time
  }

  // In order of deadlines, and of starts where these are equal.
  predicate Before<P>(a: Tagged<P>, b: Tagged<P>) { a.deadline < b.deadline || (a.deadline == b.deadline && a.id < b.id) }

  ghost predicate Ascending<P>(s: seq<Tagged<P>>) { forall i, j :: 0 <= i < j < |s| ==> Before(s[i], s[j]) }

  ghost predicate Near<P>(time: int, s: seq<Tagged<P>>) {
    forall i :: 0 <= i < |s| ==> time - HALF <= s[i].deadline < time + HALF
  }

  ghost predicate Numbered<P>(s: seq<Tagged<P>>, lo: nat, hi: nat) { forall i :: 0 <= i < |s| ==> lo <= s[i].id < hi }

  ghost predicate Inv<P>(c: Clockwork<P>) { Ascending(c.list) && Near(c.time, c.list) && Numbered(c.list, 0, c.next) }

  // Putting keeps the order, if the new timer has a later number, and adds just that timer.
  lemma {:induction false} PutMembers<P>(s: seq<Tagged<P>>, e: Tagged<P>, x: Tagged<P>)
    ensures x in Put(s, e) <==> x == e || x in s
  {
    if s != [] && e.deadline >= s[0].deadline {
      PutMembers(s[1..], e, x);
      assert s == [s[0]] + s[1..];
    }
  }

  lemma {:induction false} PutAllMembers<P>(s: seq<Tagged<P>>, es: seq<Tagged<P>>, x: Tagged<P>)
    ensures x in PutAll(s, es) <==> x in es || x in s
  {
    if es != [] {
      var init, last := es[..|es| - 1], es[|es| - 1];
      PutAllMembers(s, init, x);
      PutMembers(PutAll(s, init), last, x);
      assert es == init + [last];
    }
  }

  lemma {:induction false} PutAscends<P>(s: seq<Tagged<P>>, e: Tagged<P>)
    requires Ascending(s) && Numbered(s, 0, e.id)
    ensures Ascending(Put(s, e))
  {
    if s != [] && e.deadline >= s[0].deadline {
      PutAscends(s[1..], e);
      forall j | 0 <= j < |Put(s[1..], e)| ensures Before(s[0], Put(s[1..], e)[j]) {
        PutMembers(s[1..], e, Put(s[1..], e)[j]);
      }
    }
  }

  // Timers with ascending numbers from lo on.
  ghost predicate InTurn<P>(es: seq<Tagged<P>>, lo: nat) { forall i :: 0 <= i < |es| ==> es[i].id == lo + i }

  lemma {:induction false} PutAllAscends<P>(s: seq<Tagged<P>>, es: seq<Tagged<P>>, lo: nat)
    requires Ascending(s) && Numbered(s, 0, lo) && InTurn(es, lo)
    ensures Ascending(PutAll(s, es))
  {
    if es != [] {
      var init, last := es[..|es| - 1], es[|es| - 1];
      PutAllAscends(s, init, lo);
      forall i | 0 <= i < |PutAll(s, init)| ensures 0 <= PutAll(s, init)[i].id < last.id {
        PutAllMembers(s, init, PutAll(s, init)[i]);
      }
      PutAscends(PutAll(s, init), last);
    }
  }

  lemma {:induction false} BegunInTurn<P>(handler: (P, nat) -> seq<(P, int)>, time: int, fired: seq<Tagged<P>>, k: nat, id: nat)
    ensures InTurn(Begun(handler, time, fired, k, id), id)
  {
    if fired != [] {
      BegunInTurn(handler, time, fired[..|fired| - 1], k, id);
    }
  }

  lemma {:induction false} BegunNear<P>(handler: (P, nat) -> seq<(P, int)>, time: int, fired: seq<Tagged<P>>, k: nat, id: nat)
    requires forall i :: 0 <= i < |fired| ==> Polite(handler(fired[i].data, k + i))
    ensures forall x :: x in Begun(handler, time, fired, k, id) ==> time < x.deadline < time + HALF
  {
    if fired != [] {
      BegunNear(handler, time, fired[..|fired| - 1], k, id);
    }
  }

  lemma StartedInTurn<P>(handler: (P, nat) -> seq<(P, int)>, c: Clockwork<P>, e: Event<P>)
    ensures InTurn(StartedBy(handler, c, e), c.next)
  {
    if e.Expire? { BegunInTurn(handler, c.time, FiredBy(c, e), c.calls, c.next); }
  }

  lemma StartedNear<P>(handler: (P, nat) -> seq<(P, int)>, c: Clockwork<P>, e: Event<P>)
    requires Allowed(handler, c, e)
    ensures forall x :: x in StartedBy(handler, c, e) ==> c.time < x.deadline < c.time + HALF
  {
    hide Polite;
    if e.Expire? { BegunNear(handler, c.time, FiredBy(c, e), c.calls, c.next); }
  }

  // What is pending after an event: what was pending and has not fired, and what was started.
  lemma AfterMembers<P>(handler: (P, nat) -> seq<(P, int)>, c: Clockwork<P>, e: Event<P>, x: Tagged<P>)
    requires Inv(c)
    ensures x in After(handler, c, e).list <==>
            x in StartedBy(handler, c, e) || (x in c.list && (e.Expire? ==> x.deadline > c.time))
  {
    hide StartedBy, Near, Numbered;
    var n := |FiredBy(c, e)|;
    PutAllMembers(c.list[n..], StartedBy(handler, c, e), x);
    RestMembers(c, e, x);
  }

  lemma RestMembers<P>(c: Clockwork<P>, e: Event<P>, x: Tagged<P>)
    requires Ascending(c.list)
    ensures x in FiredBy(c, e) <==> e.Expire? && x in c.list && x.deadline <= c.time
    ensures x in c.list[|FiredBy(c, e)|..] <==> x in c.list && (e.Expire? ==> x.deadline > c.time)
  {
    hide DueCount;
    var n, s := |FiredBy(c, e)|, c.list;
    assert e.Expire? ==> forall i :: n <= i < |s| ==> s[i].deadline > c.time;
    if x in s {
      var i: nat :| i < |s| && s[i] == x;
      if i < n {
        assert s[..n][i] == x;
      } else {
        assert s[n..][i - n] == x;
      }
    }
  }

  lemma {:induction false} AfterInv<P>(handler: (P, nat) -> seq<(P, int)>, c: Clockwork<P>, e: Event<P>)
    requires Inv(c) && Allowed(handler, c, e)
    ensures Inv(After(handler, c, e))
  {
    var n, started, d := |FiredBy(c, e)|, StartedBy(handler, c, e), After(handler, c, e);
    StartedInTurn(handler, c, e);
    StartedNear(handler, c, e);
    PutAllAscends(c.list[n..], started, c.next);
    forall i | 0 <= i < |d.list|
      ensures d.time - HALF <= d.list[i].deadline < d.time + HALF && 0 <= d.list[i].id < d.next
    {
      AfterMembers(handler, c, e, d.list[i]);
      KeepsNear(handler, c, e, d.list[i]);
    }
  }

  lemma KeepsNear<P>(handler: (P, nat) -> seq<(P, int)>, c: Clockwork<P>, e: Event<P>, x: Tagged<P>)
    requires Inv(c) && Allowed(handler, c, e) && (x in StartedBy(handler, c, e) || x in c.list)
    ensures var d := After(handler, c, e); d.time - HALF <= x.deadline < d.time + HALF && 0 <= x.id < d.next
  {
    StartedInTurn(handler, c, e);
    StartedNear(handler, c, e);
  }

  lemma AtStart<P>(handler: (P, nat) -> seq<(P, int)>, t0: int, run: seq<Event<P>>)
    ensures At(handler, t0, run[..0]) == Clockwork(t0, [], 0, 0)
  {}

  lemma AtNext<P>(handler: (P, nat) -> seq<(P, int)>, t0: int, run: seq<Event<P>>, i: nat)
    requires i < |run|
    ensures At(handler, t0, run[..i + 1]) == After(handler, At(handler, t0, run[..i]), run[i])
  {
    hide After;
    assert run[..i + 1][..i] == run[..i];
  }

  lemma StartInv<P>(t0: int)
    ensures Inv<P>(Clockwork(t0, [], 0, 0))
  {}

  lemma {:induction false} AtInv<P>(handler: (P, nat) -> seq<(P, int)>, t0: int, run: seq<Event<P>>, i: nat)
    requires AllowedRun(handler, t0, run) && i <= |run|
    ensures Inv(At(handler, t0, run[..i]))
  {
    hide At, After, Allowed, Inv;
    if i == 0 {
      AtStart(handler, t0, run);
      StartInv<P>(t0);
    } else {
      AtInv(handler, t0, run, i - 1);
      AtNext(handler, t0, run, i - 1);
      AfterInv(handler, At(handler, t0, run[..i - 1]), run[i - 1]);
    }
  }

  // Started at event j, and not met by an expiry at or after its deadline before event i.
  ghost predicate Survives<P>(handler: (P, nat) -> seq<(P, int)>, t0: int, run: seq<Event<P>>, j: nat, i: nat, x: Tagged<P>) {
    && j < i <= |run| && x in StartedAt(handler, t0, run, j)
    && forall k :: j < k < i && run[k].Expire? ==> TimeAt(handler, t0, run, k) < x.deadline
  }

  // What is pending before event i is just what has been started and has so survived.
  lemma {:induction false} PendingIff<P(!new)>(handler: (P, nat) -> seq<(P, int)>, t0: int, run: seq<Event<P>>, i: nat, x: Tagged<P>)
    requires AllowedRun(handler, t0, run) && i <= |run|
    ensures x in At(handler, t0, run[..i]).list <==> exists j :: 0 <= j < i && Survives(handler, t0, run, j, i, x)
  {
    hide At, After, Inv, Allowed, AllowedRun, StartedBy;
    if i == 0 {
      AtStart(handler, t0, run);
    } else {
      var c := At(handler, t0, run[..i - 1]);
      AtNext(handler, t0, run, i - 1);
      AtInv(handler, t0, run, i - 1);
      PendingIff(handler, t0, run, i - 1, x);
      AfterMembers(handler, c, run[i - 1], x);
      if x in At(handler, t0, run[..i]).list {
        if x in StartedAt(handler, t0, run, i - 1) {
          assert Survives(handler, t0, run, i - 1, i, x);
        } else {
          var j :| 0 <= j < i - 1 && Survives(handler, t0, run, j, i - 1, x);
          assert Survives(handler, t0, run, j, i, x);
        }
      }
      forall j | 0 <= j < i && Survives(handler, t0, run, j, i, x) ensures x in At(handler, t0, run[..i]).list {
        if j < i - 1 {
          assert Survives(handler, t0, run, j, i - 1, x);
        }
      }
    }
  }

  // A timer fires at an event exactly if that is the first expiry, since the timer was started, at or after its deadline.
  lemma FiresIff<P(!new)>(handler: (P, nat) -> seq<(P, int)>, t0: int, run: seq<Event<P>>, i: nat, x: Tagged<P>)
    requires AllowedRun(handler, t0, run) && i < |run|
    ensures x in FiredAt(handler, t0, run, i) <==>
              && run[i].Expire? && x.deadline <= TimeAt(handler, t0, run, i)
              && exists j :: 0 <= j < i && Survives(handler, t0, run, j, i, x)
  {
    hide Survives, AllowedRun, Near, Numbered;
    AtInv(handler, t0, run, i);
    RestMembers(At(handler, t0, run[..i]), run[i], x);
    PendingIff(handler, t0, run, i, x);
  }

  // Numbers and time only grow.
  lemma {:induction false} AtGrows<P>(handler: (P, nat) -> seq<(P, int)>, t0: int, run: seq<Event<P>>, i: nat, j: nat)
    requires i <= j <= |run|
    ensures At(handler, t0, run[..i]).next <= At(handler, t0, run[..j]).next
    ensures At(handler, t0, run[..i]).time <= At(handler, t0, run[..j]).time
  {
    hide At, After;
    if i < j {
      AtGrows(handler, t0, run, i, j - 1);
      AtNext(handler, t0, run, j - 1);
      AfterGrows(handler, At(handler, t0, run[..j - 1]), run[j - 1]);
    }
  }

  lemma AfterGrows<P>(handler: (P, nat) -> seq<(P, int)>, c: Clockwork<P>, e: Event<P>)
    ensures c.next <= After(handler, c, e).next && c.time <= After(handler, c, e).time
  {}

  // A timer that was pending before event i was not started at event i or later.
  lemma StartedBefore<P>(handler: (P, nat) -> seq<(P, int)>, t0: int, run: seq<Event<P>>, i: nat, j: nat, x: Tagged<P>)
    requires AllowedRun(handler, t0, run) && i <= |run| && j < |run|
    requires x in At(handler, t0, run[..i]).list && x in StartedAt(handler, t0, run, j)
    ensures j < i
  {
    hide AllowedRun, StartedBy, At, Ascending, Near;
    AtInv(handler, t0, run, i);
    StartedInTurn(handler, At(handler, t0, run[..j]), run[j]);
    if i <= j {
      AtGrows(handler, t0, run, i, j);
    }
  }

  // So no timer fires twice ...
  lemma FiresOnce<P(!new)>(handler: (P, nat) -> seq<(P, int)>, t0: int, run: seq<Event<P>>, i: nat, k: nat, x: Tagged<P>)
    requires AllowedRun(handler, t0, run) && i < k < |run| && x in FiredAt(handler, t0, run, i)
    ensures x !in FiredAt(handler, t0, run, k)
  {
    hide AllowedRun, StartedAt, At;
    FiresIff(handler, t0, run, i, x);
    FiresIff(handler, t0, run, k, x);
    PendingIff(handler, t0, run, i, x);
    forall j | 0 <= j < k && Survives(handler, t0, run, j, k, x) ensures false {
      StartedBefore(handler, t0, run, i, j, x);
    }
  }

  // ... every one fires by the first expiry at or after its deadline ...
  lemma {:induction false} FiresInTime<P(!new)>(handler: (P, nat) -> seq<(P, int)>, t0: int, run: seq<Event<P>>, j: nat, i: nat, x: Tagged<P>)
      returns (k: nat)
    requires AllowedRun(handler, t0, run) && j < i < |run| && x in StartedAt(handler, t0, run, j)
    requires run[i].Expire? && x.deadline <= TimeAt(handler, t0, run, i)
    ensures j < k <= i && x in FiredAt(handler, t0, run, k)
    decreases i
  {
    hide AllowedRun, StartedAt, At;
    if m: nat :| j < m < i && run[m].Expire? && TimeAt(handler, t0, run, m) >= x.deadline {
      k := FiresInTime(handler, t0, run, j, m, x);
    } else {
      assert Survives(handler, t0, run, j, i, x);
      FiresIff(handler, t0, run, i, x);
      k := i;
    }
  }

  // ... and over the whole run they fire in the order of their deadlines, equal ones in the order of their starts.
  lemma FiresInOrder<P(!new)>(handler: (P, nat) -> seq<(P, int)>, t0: int, run: seq<Event<P>>, i: nat, k: nat)
    requires AllowedRun(handler, t0, run) && i <= k < |run|
    ensures i == k ==> Ascending(FiredAt(handler, t0, run, i))
    ensures i < k ==> forall x, y :: x in FiredAt(handler, t0, run, i) && y in FiredAt(handler, t0, run, k) ==> x.deadline < y.deadline
  {
    hide AllowedRun, At, StartedAt, Before;
    AtInv(handler, t0, run, i);
    if i < k {
      forall x, y | x in FiredAt(handler, t0, run, i) && y in FiredAt(handler, t0, run, k) ensures x.deadline < y.deadline {
        FiresIff(handler, t0, run, i, x);
        FiresIff(handler, t0, run, k, y);
        var j :| 0 <= j < k && Survives(handler, t0, run, j, k, y);
        if j >= i {
          AtGrows(handler, t0, run, i, j);
          StartedLate(handler, t0, run, j, y);
        }
      }
    }
  }

  lemma StartedLate<P>(handler: (P, nat) -> seq<(P, int)>, t0: int, run: seq<Event<P>>, j: nat, x: Tagged<P>)
    requires AllowedRun(handler, t0, run) && j < |run| && x in StartedAt(handler, t0, run, j)
    ensures TimeAt(handler, t0, run, j) < x.deadline
  {
    hide Allowed, At, StartedBy;
    StartedNear(handler, At(handler, t0, run[..j]), run[j]);
  }

  // The same list as the wheel keeps it, with deadlines that have wrapped.
  function Wrapped<P>(e: Tagged<P>): Timer<P> { Timer(e.deadline % WORD, e.data) }

  function Wrap<P>(s: seq<Tagged<P>>): (r: seq<Timer<P>>)
    ensures |r| == |s|
  {
    seq(|s|, i requires 0 <= i < |s| => Wrapped(s[i]))
  }

  lemma SignedIs(time: int, d: int)
    requires -HALF <= d - time < HALF
    ensures Signed(d % WORD - time % WORD) == d - time
    ensures Offset(time % WORD - HALF, d % WORD) == d - time + HALF
  {
    var x, y := d / WORD, time / WORD;
    assert d % WORD - time % WORD == (d - time) + WORD * (y - x);
    ModShift(d - time, y - x);
    HalfBefore(time % WORD, d % WORD);
  }

  lemma DueIs<P>(time: int, e: Tagged<P>)
    requires Near(time, [e])
    ensures Due(time % WORD, Wrapped(e)) <==> e.deadline <= time
  {
    assert [e][0] == e;
    SignedIs(time, e.deadline);
  }

  lemma WrapReady<P>(time: int, s: seq<Tagged<P>>)
    requires Ascending(s) && Near(time, s)
    ensures Ready(time % WORD, Wrap(s))
    ensures InOrder(time % WORD - HALF, Wrap(s))
  {
    hide Signed, Offset;
    forall i | 0 <= i < |s|
      ensures Signed(Wrap(s)[i].key - time % WORD) == s[i].deadline - time
      ensures Offset(time % WORD - HALF, Wrap(s)[i].key) == s[i].deadline - time + HALF
    {
      SignedIs(time, s[i].deadline);
    }
    forall i, j | 0 <= i < j < |s| ensures s[i].deadline <= s[j].deadline {
      assert Before(s[i], s[j]);
    }
  }

  lemma {:induction false} ArmWraps<P>(time: int, s: seq<Tagged<P>>, e: Tagged<P>)
    requires Near(time, s) && Near(time, [e])
    ensures Arm(time % WORD - HALF, Wrap(s), Wrapped(e)) == Wrap(Put(s, e))
  {
    hide Offset;
    assert [e][0] == e;
    SignedIs(time, e.deadline);
    if s != [] {
      SignedIs(time, s[0].deadline);
      ArmWraps(time, s[1..], e);
      assert Wrap(s)[1..] == Wrap(s[1..]);
      assert Wrap([s[0]] + Put(s[1..], e)) == [Wrapped(s[0])] + Wrap(Put(s[1..], e));
      assert Wrap([e] + s) == [Wrapped(e)] + Wrap(s);
    } else {
      assert Wrap([e]) == [Wrapped(e)];
    }
  }

  lemma {:induction false} ArmAllWraps<P>(time: int, s: seq<Tagged<P>>, es: seq<Tagged<P>>)
    requires Near(time, s) && Near(time, es)
    ensures ArmAll(time % WORD - HALF, Wrap(s), Wrap(es)) == Wrap(PutAll(s, es))
  {
    hide Arm, Put, Offset;
    if es != [] {
      var init, last := es[..|es| - 1], es[|es| - 1];
      ArmAllWraps(time, s, init);
      assert Wrap(es)[..|es| - 1] == Wrap(init);
      forall i | 0 <= i < |PutAll(s, init)|
        ensures time - HALF <= PutAll(s, init)[i].deadline < time + HALF
      {
        PutAllMembers(s, init, PutAll(s, init)[i]);
      }
      ArmWraps(time, PutAll(s, init), last);
    }
  }

  lemma {:induction false} RequestedWraps<P>(time: int, reqs: seq<(P, int)>, id: nat)
    ensures Requested(time % WORD, reqs) == Wrap(Asked(time, reqs, id))
  {
    if reqs != [] {
      var n := |reqs| - 1;
      RequestedWraps(time, reqs[..n], id);
      assert Asked(time, reqs, id) == Asked(time, reqs[..n], id) + [Tagged(time + reqs[n].1, reqs[n].0, id + n)];
    }
  }

  lemma WrapJoin<P>(a: seq<Tagged<P>>, b: seq<Tagged<P>>)
    ensures Wrap(a + b) == Wrap(a) + Wrap(b)
  {}

  lemma {:induction false} StartedWraps<P>(handler: (P, nat) -> seq<(P, int)>, time: int, fired: seq<Tagged<P>>, k: nat, id: nat)
    ensures Started(handler, time % WORD, Wrap(fired), k) == Wrap(Begun(handler, time, fired, k, id))
  {
    hide Requested, Asked;
    if fired != [] {
      var n := |fired| - 1;
      var b, reqs := Begun(handler, time, fired[..n], k, id), handler(fired[n].data, k + n);
      StartedWraps(handler, time, fired[..n], k, id);
      assert Wrap(fired)[..n] == Wrap(fired[..n]) && Wrap(fired)[n] == Wrapped(fired[n]);
      RequestedWraps(time, reqs, id + |b|);
      WrapJoin(b, Asked(time, reqs, id + |b|));
    }
  }

  // Starting a timer: the wheel's join is the unbounded put.
  lemma StartWraps<P>(handler: (P, nat) -> seq<(P, int)>, c: Clockwork<P>, q: P, d: int, at: nat, s: seq<Timer<P>>)
    requires Inv(c) && Allowed(handler, c, Start(q, d))
    requires Joined(Wrap(c.list), Timer((c.time % WORD + d) % WORD, q), at, s)
    ensures s == Wrap(After(handler, c, Start(q, d)).list)
  {
    hide Joined, Offset, Arm, Put;
    var e := Tagged(c.time + d, q, c.next);
    assert Wrapped(e) == Timer((c.time % WORD + d) % WORD, q);
    WrapReady(c.time, c.list);
    SignedIs(c.time, e.deadline);
    forall i | 0 <= i < |c.list|
      ensures -HALF < Offset(c.time % WORD - HALF, Wrapped(e).key) - Offset(c.time % WORD - HALF, Wrap(c.list)[i].key) < HALF
    {
      SignedIs(c.time, c.list[i].deadline);
      assert i > 0 ==> Before(c.list[0], c.list[i]);
    }
    JoinedIsArm(c.time % WORD - HALF, Wrap(c.list), Wrapped(e), at, s);
    assert [e][0] == e;
    ArmWraps(c.time, c.list, e);
    PutOne(c.list, e);
    assert c.list[0..] == c.list;
  }

  lemma PutOne<P>(s: seq<Tagged<P>>, e: Tagged<P>)
    ensures PutAll(s, [e]) == Put(s, e)
  {
    assert [e][..0] == [] && PutAll(s, [e][..0]) == s;
  }

  // An expiry: what the wheel requires, and what it does.
  lemma WrapDue<P>(time: int, s: seq<Tagged<P>>)
    requires Near(time, s)
    ensures forall i :: 0 <= i < |s| ==> (Due(time % WORD, Wrap(s)[i]) <==> s[i].deadline <= time)
  {
    hide Due;
    forall i | 0 <= i < |s| ensures Due(time % WORD, Wrap(s)[i]) <==> s[i].deadline <= time {
      assert [s[i]][0] == s[i];
      DueIs(time, s[i]);
    }
  }

  lemma WrapCourteous<P>(handler: (P, nat) -> seq<(P, int)>, c: Clockwork<P>)
    requires Inv(c) && Allowed(handler, c, Expire)
    ensures Courteous(c.time % WORD, handler, Wrap(c.list))
  {
    hide Due, Polite, Spares;
    WrapDue(c.time, c.list);
  }

  lemma WrapExpirable<P>(handler: (P, nat) -> seq<(P, int)>, c: Clockwork<P>)
    requires Inv(c) && Allowed(handler, c, Expire)
    ensures Expirable(c.time % WORD, handler, c.calls, Wrap(c.list))
  {
    hide Due, Ready, Polite, Patient, Spares, Ascending;
    var now, p := c.time % WORD, Wrap(c.list);
    WrapReady(c.time, c.list);
    WrapDue(c.time, c.list);
    forall i | 0 <= i < |p| - 1 && Due(now, p[i + 1]) ensures Patient(now, p[i + 1], handler(p[i].data, c.calls + i)) {
      SparesPatient(c.time, c.list[i + 1], handler(c.list[i].data, c.calls + i));
    }
  }

  lemma SparesPatient<P>(time: int, e: Tagged<P>, reqs: seq<(P, int)>)
    requires Spares(time, e, reqs) && time - HALF <= e.deadline < time + HALF
    ensures Patient(time % WORD, Wrapped(e), reqs)
  {
    hide Signed;
    SignedIs(time, e.deadline);
  }

  lemma CutsAgree(due: seq<bool>, m: nat, n: nat)
    requires m <= |due| && n <= |due| && (m < |due| ==> !due[m]) && (n < |due| ==> !due[n])
    requires (forall i :: 0 <= i < m ==> due[i]) && forall i :: 0 <= i < n ==> due[i]
    ensures m == n
  {}

  lemma ExpiredIs<P>(now: int, handler: (P, nat) -> seq<(P, int)>, k: nat, p: seq<Timer<P>>, fired: seq<Timer<P>>, left: seq<Timer<P>>)
    requires Expired(now, handler, k, p, fired, left)
    ensures |fired| <= |p| && fired == p[..|fired|] && (forall i :: 0 <= i < |fired| ==> Due(now, p[i]))
    ensures |fired| < |p| ==> !Due(now, p[|fired|])
    ensures left == ArmAll(now - HALF, p[|fired|..], Started(handler, now, fired, k))
  {
    hide Due, ArmAll, Started;
    forall i | 0 <= i < |fired| ensures Due(now, p[i]) {
      assert p[i] == fired[i];
    }
  }

  lemma ExpiredCount<P>(handler: (P, nat) -> seq<(P, int)>, c: Clockwork<P>, fired: seq<Timer<P>>, left: seq<Timer<P>>)
    requires Inv(c) && Expired(c.time % WORD, handler, c.calls, Wrap(c.list), fired, left)
    ensures |fired| == DueCount(c.time, c.list) && fired == Wrap(c.list)[..|fired|]
    ensures left == ArmAll(c.time % WORD - HALF, Wrap(c.list)[|fired|..], Started(handler, c.time % WORD, fired, c.calls))
  {
    hide Due, ArmAll, Started, Expired, DueCount, Wrap;
    var now, p := c.time % WORD, Wrap(c.list);
    WrapDue(c.time, c.list);
    ExpiredIs(now, handler, c.calls, p, fired, left);
    var due := seq(|p|, i requires 0 <= i < |p| => Due(now, p[i]));
    CutsAgree(due, |fired|, DueCount(c.time, c.list));
  }

  lemma ExpireWraps<P>(handler: (P, nat) -> seq<(P, int)>, c: Clockwork<P>, fired: seq<Timer<P>>, left: seq<Timer<P>>)
    requires Inv(c) && Allowed(handler, c, Expire)
    requires Expired(c.time % WORD, handler, c.calls, Wrap(c.list), fired, left)
    ensures fired == Wrap(FiredBy(c, Expire)) && left == Wrap(After(handler, c, Expire).list)
  {
    hide ArmAll, PutAll, Begun, Started, Polite, Spares, Expired, Ascending, Numbered;
    ExpiredCount(handler, c, fired, left);
    var p, n := Wrap(c.list), DueCount(c.time, c.list);
    assert p[..n] == Wrap(c.list[..n]) && p[n..] == Wrap(c.list[n..]);
    StartedWraps(handler, c.time, c.list[..n], c.calls, c.next);
    StartedNear(handler, c, Expire);
    ArmAllWraps(c.time, c.list[n..], Begun(handler, c.time, c.list[..n], c.calls, c.next));
  }

  // At every moment of a run the wheel's list is ready for an expiry.
  lemma AlwaysReady<P>(handler: (P, nat) -> seq<(P, int)>, t0: int, run: seq<Event<P>>, i: nat)
    requires AllowedRun(handler, t0, run) && i <= |run|
    ensures var c := At(handler, t0, run[..i]); Ready(c.time % WORD, Wrap(c.list))
  {
    hide AllowedRun, At, Ready;
    AtInv(handler, t0, run, i);
    var c := At(handler, t0, run[..i]);
    WrapReady(c.time, c.list);
  }

  // The wheel, driven through a run.
  method Drive<P(!new)>(handler: (P, nat) -> seq<(P, int)>, t0: int, run: seq<Event<P>>) returns (log: seq<seq<Timer<P>>>)
    requires 0 <= t0 < WORD && AllowedRun(handler, t0, run)
    ensures |log| == |run| && forall i :: 0 <= i < |run| ==> log[i] == Wrap(FiredAt(handler, t0, run, i))
  {
    hide AllowedRun, Rbt.Valid, At, FiredBy, StartedBy;
    var sentinel := new Node();
    var w := new Wheel(sentinel, t0, handler);
    log := [];
    AtStart(handler, t0, run);
    for i := 0 to |run|
      invariant fresh(w) && fresh(w.tree) && fresh(w.tree.sentinel) && fresh(w.tree.nodes)
      invariant w.Valid() && w.handler == handler && Shows(w.now, w.wall, w.calls, w.Pending(), At(handler, t0, run[..i]))
      invariant |log| == i && forall k :: 0 <= k < i ==> log[k] == Wrap(FiredAt(handler, t0, run, k))
    {
      ghost var c := At(handler, t0, run[..i]);
      AtInv(handler, t0, run, i);
      AllowedAt(handler, t0, run, i);
      var fired := DriveOne(w, run[i], c);
      AtNext(handler, t0, run, i);
      log := log + [fired];
    }
  }

  // The wheel shows the state c.
  ghost predicate Shows<P>(now: int, wall: int, calls: nat, pending: seq<Timer<P>>, c: Clockwork<P>) {
    now == wall == c.time % WORD && calls == c.calls && pending == Wrap(c.list)
  }

  method DriveStart<P(!new)>(w: Wheel<P>, q: P, d: int, ghost c: Clockwork<P>)
    requires w.Valid() && Shows(w.now, w.wall, w.calls, w.Pending(), c) && Inv(c) && Allowed(w.handler, c, Start(q, d))
    modifies w`events, w`now, w`wall, w`calls, w.tree`root, w.tree`nodes, w.tree`shape
    modifies w.tree.nodes`left, w.tree.nodes`right, w.tree.nodes`parent, w.tree.nodes`red, w.tree.nodes`key
    modifies w.tree.sentinel`parent, w.tree.sentinel`red
    ensures w.Valid() && fresh(w.tree.nodes - old(w.tree.nodes))
    ensures Shows(w.now, w.wall, w.calls, w.Pending(), After(w.handler, c, Start(q, d)))
  {
    hide Rbt.Valid, Inv, Joined, Listed, FiredBy;
    StartDelay(w.handler, c, q, d);
    var armed; ghost var at;
    armed, at := w.TimerNew(q, d);
    StartWraps(w.handler, c, q, d, at, w.Pending());
    Uncalled(w.handler, c, Start(q, d));
  }

  method DriveAdvance<P(!new)>(w: Wheel<P>, t: nat, ghost c: Clockwork<P>)
    requires w.Valid() && Shows(w.now, w.wall, w.calls, w.Pending(), c) && Inv(c) && Allowed(w.handler, c, Advance(t))
    modifies w`events, w`now, w`wall, w`calls, w.tree`root, w.tree`nodes, w.tree`shape
    modifies w.tree.nodes`left, w.tree.nodes`right, w.tree.nodes`parent, w.tree.nodes`red, w.tree.nodes`key
    modifies w.tree.sentinel`parent, w.tree.sentinel`red
    ensures w.Valid() && fresh(w.tree.nodes - old(w.tree.nodes))
    ensures Shows(w.now, w.wall, w.calls, w.Pending(), After(w.handler, c, Advance(t)))
  {
    hide Rbt.Valid, Inv, Listed, FiredBy;
    w.Strike((w.now + t) % WORD);
    AdvanceList(w.handler, c, t);
    Uncalled(w.handler, c, Advance(t));
  }

  method DriveExpire<P(!new)>(w: Wheel<P>, ghost c: Clockwork<P>) returns (fired: seq<Timer<P>>)
    requires w.Valid() && Shows(w.now, w.wall, w.calls, w.Pending(), c) && Inv(c) && Allowed(w.handler, c, Expire)
    modifies w`events, w`now, w`wall, w`calls, w.tree`root, w.tree`nodes, w.tree`shape
    modifies w.tree.nodes`left, w.tree.nodes`right, w.tree.nodes`parent, w.tree.nodes`red, w.tree.nodes`key
    modifies w.tree.sentinel`parent, w.tree.sentinel`red
    ensures w.Valid() && fresh(w.tree.nodes - old(w.tree.nodes))
    ensures Shows(w.now, w.wall, w.calls, w.Pending(), After(w.handler, c, Expire)) && fired == Wrap(FiredBy(c, Expire))
  {
    hide Rbt.Valid, Inv, Allowed, Expired, Expirable, Courteous, Listed, FromEntry, Trace, After, FiredBy;
    WrapCourteous(w.handler, c);
    WrapExpirable(w.handler, c);
    Called(w.handler, c);
    ghost var lists;
    fired, lists := w.ExpireTimers();
    ExpireWraps(w.handler, c, fired, w.Pending());
  }

  method DriveOne<P(!new)>(w: Wheel<P>, e: Event<P>, ghost c: Clockwork<P>) returns (fired: seq<Timer<P>>)
    requires w.Valid() && Shows(w.now, w.wall, w.calls, w.Pending(), c) && Inv(c) && Allowed(w.handler, c, e)
    modifies w`events, w`now, w`wall, w`calls, w.tree`root, w.tree`nodes, w.tree`shape
    modifies w.tree.nodes`left, w.tree.nodes`right, w.tree.nodes`parent, w.tree.nodes`red, w.tree.nodes`key
    modifies w.tree.sentinel`parent, w.tree.sentinel`red
    ensures w.Valid() && fresh(w.tree.nodes - old(w.tree.nodes))
    ensures Shows(w.now, w.wall, w.calls, w.Pending(), After(w.handler, c, e)) && fired == Wrap(FiredBy(c, e))
  {
    hide Rbt.Valid, Inv, Allowed, After, Shows, Wheel.Valid, Wheel.Pending;
    fired := [];
    match e
    case Start(q, d) => DriveStart(w, q, d, c);
    case Advance(t) => DriveAdvance(w, t, c);
    case Expire => fired := DriveExpire(w, c);
  }

  lemma Called<P>(handler: (P, nat) -> seq<(P, int)>, c: Clockwork<P>)
    ensures var d := After(handler, c, Expire); d.time == c.time && d.calls == c.calls + |FiredBy(c, Expire)|
  {}

  lemma Uncalled<P>(handler: (P, nat) -> seq<(P, int)>, c: Clockwork<P>, e: Event<P>)
    requires !e.Expire?
    ensures FiredBy(c, e) == [] && After(handler, c, e).calls == c.calls
  {}

  lemma StartDelay<P>(handler: (P, nat) -> seq<(P, int)>, c: Clockwork<P>, q: P, d: int)
    requires Allowed(handler, c, Start(q, d))
    ensures TIMER_LAZY_DELAY <= d < HALF
  {}

  lemma AdvanceList<P>(handler: (P, nat) -> seq<(P, int)>, c: Clockwork<P>, t: nat)
    ensures After(handler, c, Advance(t)).list == c.list
  {}

  lemma AllowedAt<P>(handler: (P, nat) -> seq<(P, int)>, t0: int, run: seq<Event<P>>, i: nat)
    requires AllowedRun(handler, t0, run) && i < |run|
    ensures Allowed(handler, At(handler, t0, run[..i]), run[i])
  {
    hide Allowed, At;
  }
}
