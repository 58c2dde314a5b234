/** tserver/timers.c: timers kept in the red-black tree, ordered by a wrapped 32-bit deadline. */
module Timers {
  import opened RbShape
  import opened RbOrder
  import opened RbTree
  import opened MachineWord

  const HALF := WORD / 2
  const TIMER_LAZY_DELAY := 2
  const TIMER_INFINITE := WORD - 1

  // The (int) cast of an unsigned 32-bit difference.
  function Signed(d: int): int { if d % WORD < HALF then d % WORD else d % WORD - WORD }

  // A pending timer: its deadline and what its handler is given.
  datatype Timer<P> = Timer(key: int, data: P)

  // A new timer has come in somewhere between two neighbours that compare so. This holds whatever the deadlines
  // are, even where the wrapped comparison is no order.
  ghost predicate Joined<P>(s: seq<Timer<P>>, e: Timer<P>, at: nat, s': seq<Timer<P>>) {
    && at <= |s| && s' == s[..at] + [e] + s[at..]
    && (at > 0 ==> !Less(ByTimer, e.key, s[at - 1].key))
    && (at < |s| ==> Less(ByTimer, e.key, s[at].key))
  }

  // Several timers, one after the other.
  ghost predicate Joins<P(!new)>(s: seq<Timer<P>>, es: seq<Timer<P>>, s': seq<Timer<P>>)
    decreases |es|
  {
    if es == [] then s' == s
    else
      var init, last := es[..|es| - 1], es[|es| - 1];
      exists mid, at :: Joins(s, init, mid) && Joined(mid, last, at, s')
  }

  ghost predicate Due<P>(now: int, e: Timer<P>) { Signed(e.key - now) <= 0 }

  // The timers that requests (data, delay) made at time now ask for.
  ghost function Requested<P>(now: int, reqs: seq<(P, int)>): seq<Timer<P>> {
    if reqs == [] then []
    else Requested(now, reqs[..|reqs| - 1]) + [Timer((now + reqs[|reqs| - 1].1) % WORD, reqs[|reqs| - 1].0)]
  }

  // One turn of expire_timers: the first timer is due and fires, and what its handler starts joins the others.
  ghost predicate Fires<P(!new)>(now: int, reqs: seq<(P, int)>, s: seq<Timer<P>>, e: Timer<P>, s': seq<Timer<P>>) {
    s != [] && e == s[0] && Due(now, e) && Joins(s[1..], Requested(now, reqs), s')
  }

  // A whole run: the lists it goes through, and the timers it fires, the first with the k-th call of a handler.
  ghost predicate Trace<P(!new)>(now: int, handler: (P, nat) -> seq<(P, int)>, k: nat,
                                 fired: seq<Timer<P>>, lists: seq<seq<Timer<P>>>)
  {
    && |lists| == |fired| + 1
    && forall i :: 0 <= i < |fired| ==> Fires(now, handler(fired[i].data, k + i), lists[i], fired[i], lists[i + 1])
  }

  // Everything the handlers of these timers start.
  ghost function Started<P>(handler: (P, nat) -> seq<(P, int)>, now: int, fired: seq<Timer<P>>, k: nat): seq<Timer<P>> {
    if fired == [] then []
    else Started(handler, now, fired[..|fired| - 1], k) + Requested(now, handler(fired[|fired| - 1].data, k + |fired| - 1))
  }

  // Handlers ask for delays from 2 up to 2^31 - 1.
  ghost predicate Polite<P>(reqs: seq<(P, int)>) { forall i :: 0 <= i < |reqs| ==> TIMER_LAZY_DELAY <= reqs[i].1 < HALF }

  ghost predicate Courteous<P>(now: int, handler: (P, nat) -> seq<(P, int)>, p: seq<Timer<P>>) {
    forall i, c: nat :: 0 <= i < |p| && Due(now, p[i]) ==> Polite(handler(p[i].data, c))
  }

  // Runs, whatever the deadlines: nothing is lost or doubled ...
  lemma LastCounts<T>(s: seq<T>)
    requires s != []
    ensures multiset(s) == multiset(s[..|s| - 1]) + multiset{s[|s| - 1]}
  {
    assert s == s[..|s| - 1] + [s[|s| - 1]];
  }

  lemma JoinedConserves<P>(s: seq<Timer<P>>, e: Timer<P>, at: nat, s': seq<Timer<P>>)
    requires Joined(s, e, at, s')
    ensures multiset(s') == multiset(s) + multiset{e}
  {
    assert s == s[..at] + s[at..];
  }

  lemma {:induction false} JoinsConserves<P(!new)>(s: seq<Timer<P>>, es: seq<Timer<P>>, s': seq<Timer<P>>)
    requires Joins(s, es, s')
    ensures multiset(s') == multiset(s) + multiset(es)
    decreases |es|
  {
    hide Joined;
    if es != [] {
      var init, last := es[..|es| - 1], es[|es| - 1];
      var mid, at :| Joins(s, init, mid) && Joined(mid, last, at, s');
      JoinsConserves(s, init, mid);
      JoinedConserves(mid, last, at, s');
      LastCounts(es);
    }
  }

  lemma TraceShorter<P(!new)>(now: int, handler: (P, nat) -> seq<(P, int)>, k: nat,
                              fired: seq<Timer<P>>, lists: seq<seq<Timer<P>>>)
    requires Trace(now, handler, k, fired, lists) && fired != []
    ensures var n := |fired| - 1;
            && Trace(now, handler, k, fired[..n], lists[..n + 1]) && lists[..n + 1][0] == lists[0]
            && Fires(now, handler(fired[n].data, k + n), lists[n], fired[n], lists[n + 1])
  {
    hide Fires;
  }

  lemma TraceLonger<P(!new)>(now: int, handler: (P, nat) -> seq<(P, int)>, k: nat,
                             fired: seq<Timer<P>>, lists: seq<seq<Timer<P>>>, e: Timer<P>, s: seq<Timer<P>>)
    requires Trace(now, handler, k, fired, lists)
    requires Fires(now, handler(e.data, k + |fired|), lists[|fired|], e, s)
    ensures Trace(now, handler, k, fired + [e], lists + [s])
  {
    hide Fires;
  }

  lemma {:induction false} TraceConserves<P(!new)>(now: int, handler: (P, nat) -> seq<(P, int)>, k: nat,
                                                   fired: seq<Timer<P>>, lists: seq<seq<Timer<P>>>)
    requires Trace(now, handler, k, fired, lists)
    ensures |lists| == |fired| + 1
    ensures multiset(lists[|fired|]) + multiset(fired) == multiset(lists[0]) + multiset(Started(handler, now, fired, k))
  {
    if fired != [] {
      var n := |fired| - 1;
      TraceShorter(now, handler, k, fired, lists);
      hide Trace, Fires, Requested;
      TraceConserves(now, handler, k, fired[..n], lists[..n + 1]);
      TurnCounts(now, handler(fired[n].data, k + n), lists[n], fired[n], lists[n + 1], fired[..n], lists[0],
        Started(handler, now, fired[..n], k));
      assert fired[..n] + [fired[n]] == fired;
    }
  }

  lemma TurnCounts<P(!new)>(now: int, data: seq<(P, int)>, s: seq<Timer<P>>, e: Timer<P>, s': seq<Timer<P>>,
                            fired: seq<Timer<P>>, p: seq<Timer<P>>, started: seq<Timer<P>>)
    requires Fires(now, data, s, e, s') && multiset(s) + multiset(fired) == multiset(p) + multiset(started)
    ensures multiset(s') + multiset(fired + [e]) == multiset(p) + multiset(started + Requested(now, data))
  {
    hide Joins, Requested, Due;
    var reqs, tail := Requested(now, data), s[1..];
    JoinsConserves(tail, reqs, s');
    assert s == [e] + tail;
    Counts(multiset(tail), multiset(reqs), multiset(fired), multiset{e}, multiset(p), multiset(started));
    assert multiset(fired + [e]) == multiset(fired) + multiset{e};
  }

  lemma Counts<T>(t: multiset<T>, r: multiset<T>, f: multiset<T>, e: multiset<T>, p: multiset<T>, s: multiset<T>)
    requires (e + t) + f == p + s
    ensures (t + r) + (f + e) == p + (s + r)
  {
    assert (t + r) + (f + e) == ((e + t) + f) + r;
  }

  lemma TraceDue<P(!new)>(now: int, handler: (P, nat) -> seq<(P, int)>, k: nat,
                          fired: seq<Timer<P>>, lists: seq<seq<Timer<P>>>, i: nat)
    requires Trace(now, handler, k, fired, lists) && i < |fired|
    ensures lists[i] != [] && fired[i] == lists[i][0] && Due(now, lists[i][0])
  {
    hide Joins, Due;
    assert Fires(now, handler(fired[i].data, k + i), lists[i], fired[i], lists[i + 1]);
  }

  // ... and only timers that were due at entry fire, each at most once: what handlers start is not due.
  lemma SignedShift(now: int, s: int)
    requires -HALF < s < HALF && 0 <= now < WORD
    ensures (now + s % WORD) % WORD == (now + s) % WORD
    ensures Signed((now + s) % WORD - now) == s
  {}

  lemma {:induction false} RequestedNotDue<P>(now: int, reqs: seq<(P, int)>)
    requires Polite(reqs) && 0 <= now < WORD
    ensures forall e :: e in Requested(now, reqs) ==> !Due(now, e)
  {
    if reqs != [] {
      RequestedNotDue(now, reqs[..|reqs| - 1]);
      SignedShift(now, reqs[|reqs| - 1].1);
    }
  }

  ghost predicate FromEntry<P(!new)>(now: int, p: seq<Timer<P>>, fired: seq<Timer<P>>, left: seq<Timer<P>>) {
    && multiset(fired) <= multiset(p) && (forall e :: e in fired ==> Due(now, e))
    && forall e :: e in left && Due(now, e) ==> e in p
  }

  lemma {:induction false} FiredFromEntry<P(!new)>(now: int, handler: (P, nat) -> seq<(P, int)>, k: nat,
                                                   fired: seq<Timer<P>>, lists: seq<seq<Timer<P>>>)
    requires Trace(now, handler, k, fired, lists) && Courteous(now, handler, lists[0]) && 0 <= now < WORD
    ensures forall e :: e in Started(handler, now, fired, k) ==> !Due(now, e)
    ensures FromEntry(now, lists[0], fired, lists[|fired|]) && |fired| <= |lists[0]|
  {
    hide Joins, Requested, Due;
    TraceConserves(now, handler, k, fired, lists);
    if fired != [] {
      hide Trace;
      var n := |fired| - 1;
      TraceShorter(now, handler, k, fired, lists);
      FiredFromEntry(now, handler, k, fired[..n], lists[..n + 1]);
      assert fired[n] in lists[n];
      RequestedNotDue(now, handler(fired[n].data, k + n));
      LastCounts(fired);
    }
    EntryCounts(now, lists[|fired|], fired, lists[0], Started(handler, now, fired, k));
  }

  lemma TraceGoesOn<P(!new)>(now: int, handler: (P, nat) -> seq<(P, int)>, k: nat,
                             fired: seq<Timer<P>>, lists: seq<seq<Timer<P>>>, e: Timer<P>, s: seq<Timer<P>>)
    requires Trace(now, handler, k, fired, lists) && Courteous(now, handler, lists[0]) && 0 <= now < WORD
    requires Fires(now, handler(e.data, k + |fired|), lists[|fired|], e, s)
    ensures Trace(now, handler, k, fired + [e], lists + [s])
    ensures |fired| < |lists[0]| && FromEntry(now, lists[0], fired + [e], s)
  {
    hide Fires, Courteous;
    TraceLonger(now, handler, k, fired, lists, e, s);
    assert (lists + [s])[0] == lists[0];
    FiredFromEntry(now, handler, k, fired + [e], lists + [s]);
  }

  lemma EntryCounts<P(!new)>(now: int, left: seq<Timer<P>>, fired: seq<Timer<P>>, p: seq<Timer<P>>, started: seq<Timer<P>>)
    requires multiset(left) + multiset(fired) == multiset(p) + multiset(started)
    requires (forall e :: e in started ==> !Due(now, e)) && forall e :: e in fired ==> Due(now, e)
    ensures FromEntry(now, p, fired, left) && |fired| <= |p|
  {
    hide Due;
    forall e | e in left && Due(now, e) ensures e in p {
      assert e in multiset(left) + multiset(fired) && e !in multiset(started);
    }
    forall e ensures multiset(fired)[e] <= multiset(p)[e] {
      if e in fired {
        assert e !in multiset(started);
        assert (multiset(left) + multiset(fired))[e] == (multiset(p) + multiset(started))[e];
      } else {
        assert e !in multiset(fired);
      }
    }
    MultisetSize(multiset(fired), multiset(p));
    assert |multiset(fired)| == |fired| && |multiset(p)| == |p|;
  }

  lemma MultisetSize<T>(a: multiset<T>, b: multiset<T>)
    requires a <= b
    ensures |a| <= |b|
  {
    assert b == a + (b - a);
  }

  // The list a timer joins when the deadlines are in order: after every one that is not later, so equal deadlines
  // keep their order of arrival.
  ghost function Arm<P>(base: int, s: seq<Timer<P>>, e: Timer<P>): seq<Timer<P>> {
    if s == [] then [e]
    else if Offset(base, e.key) < Offset(base, s[0].key) then [e] + s
    else [s[0]] + Arm(base, s[1..], e)
  }

  ghost function ArmAll<P>(base: int, s: seq<Timer<P>>, es: seq<Timer<P>>): seq<Timer<P>> {
    if es == [] then s else Arm(base, ArmAll(base, s, es[..|es| - 1]), es[|es| - 1])
  }

  ghost predicate InOrder<P>(base: int, s: seq<Timer<P>>) {
    forall i, j :: 0 <= i < j < |s| ==> Offset(base, s[i].key) <= Offset(base, s[j].key)
  }

  ghost predicate Within<P>(base: int, s: seq<Timer<P>>, lo: int, hi: int) {
    forall i :: 0 <= i < |s| ==> lo <= Offset(base, s[i].key) < hi
  }

  // The deadlines, cast to signed distances from now, are in order.
  ghost predicate Ready<P>(now: int, s: seq<Timer<P>>) {
    forall i, j :: 0 <= i < j < |s| ==> Signed(s[i].key - now) <= Signed(s[j].key - now)
  }

  // The same, with distances counted from a base.
  ghost predicate Based<P>(base: int, now: int, s: seq<Timer<P>>) {
    InOrder(base, s) && Offset(base, now) <= HALF && Within(base, s, 0, Offset(base, now) + HALF)
  }

  // The handler of a timer is patient if what it starts lies less than half a circle after the next timer, when
  // that one is due as well. Later ones do not matter.
  ghost predicate Patient<P>(now: int, next: Timer<P>, reqs: seq<(P, int)>) {
    forall i :: 0 <= i < |reqs| ==> reqs[i].1 - Signed(next.key - now) < HALF
  }

  ghost predicate Expirable<P>(now: int, handler: (P, nat) -> seq<(P, int)>, k: nat, p: seq<Timer<P>>) {
    && Ready(now, p)
    && forall i :: 0 <= i < |p| - 1 && Due(now, p[i + 1]) ==> Patient(now, p[i + 1], handler(p[i].data, k + i))
  }

  // The first of p have fired, all of them due, and what their handlers started has been armed.
  ghost predicate PartlyExpired<P>(base: int, now: int, handler: (P, nat) -> seq<(P, int)>, k: nat,
                                   p: seq<Timer<P>>, fired: seq<Timer<P>>, left: seq<Timer<P>>)
  {
    && |fired| <= |p| && fired == p[..|fired|]
    && (forall i :: 0 <= i < |fired| ==> Due(now, fired[i]))
    && left == ArmAll(base, p[|fired|..], Started(handler, now, fired, k))
  }

  // All of the due timers have fired, and nothing that is left is due.
  ghost predicate Expired<P>(now: int, handler: (P, nat) -> seq<(P, int)>, k: nat,
                             p: seq<Timer<P>>, fired: seq<Timer<P>>, left: seq<Timer<P>>)
  {
    && PartlyExpired(now - HALF, now, handler, k, p, fired, left)
    && (forall i :: |fired| <= i < |p| ==> !Due(now, p[i]))
    && (forall i :: 0 <= i < |left| ==> !Due(now, left[i]))
  }

  lemma DueOffset<P>(base: int, now: int, e: Timer<P>)
    requires -HALF <= Offset(base, e.key) - Offset(base, now) < HALF
    ensures Signed(e.key - now) == Offset(base, e.key) - Offset(base, now)
  {
    var x, y := (e.key - base) / WORD, (now - base) / WORD;
    assert e.key - now == (Offset(base, e.key) - Offset(base, now)) + WORD * (x - y);
    ModShift(Offset(base, e.key) - Offset(base, now), x - y);
  }

  lemma OffsetRange(base: int, k: int)
    ensures 0 <= Offset(base, k) < WORD
  {}

  lemma OffsetShift(base: int, now: int, s: int)
    requires 0 <= s && Offset(base, now) + s < WORD
    ensures Offset(base, (now + s) % WORD) == Offset(base, now) + s
  {
    var x, y := (now + s) / WORD, (now - base) / WORD;
    assert (now + s) % WORD - base == (Offset(base, now) + s) + WORD * (y - x);
    ModShift(Offset(base, now) + s, y - x);
  }

  lemma {:induction false} ArmSplit<P>(base: int, s: seq<Timer<P>>, e: Timer<P>, at: nat)
    requires at <= |s|
    requires forall i :: 0 <= i < at ==> Offset(base, s[i].key) <= Offset(base, e.key)
    requires at < |s| ==> Offset(base, e.key) < Offset(base, s[at].key)
    ensures Arm(base, s, e) == s[..at] + [e] + s[at..]
  {
    if at > 0 {
      ArmSplit(base, s[1..], e, at - 1);
      assert s[1..][..at - 1] == s[1..at] && s[1..][at - 1..] == s[at..];
    }
  }

  // Less than half a circle away from all others, a timer joins as it is armed.
  lemma JoinedIsArm<P>(base: int, s: seq<Timer<P>>, e: Timer<P>, at: nat, s': seq<Timer<P>>)
    requires Joined(s, e, at, s') && InOrder(base, s)
    requires forall i :: 0 <= i < |s| ==> -HALF < Offset(base, e.key) - Offset(base, s[i].key) < HALF
    ensures s' == Arm(base, s, e)
  {
    hide Offset, Less, Arm;
    if at > 0 { OffsetLess(base, e.key, s[at - 1].key); }
    if at < |s| { OffsetLess(base, e.key, s[at].key); }
    ArmSplit(base, s, e, at);
  }

  // Arming keeps the list in order, and within bounds.
  lemma {:induction false} ArmOrder<P>(base: int, s: seq<Timer<P>>, e: Timer<P>)
    requires InOrder(base, s)
    ensures InOrder(base, Arm(base, s, e))
    ensures Arm(base, s, e)[0] == e || (s != [] && Arm(base, s, e)[0] == s[0])
  {
    if s != [] && Offset(base, e.key) >= Offset(base, s[0].key) {
      ArmOrder(base, s[1..], e);
    }
  }

  lemma {:induction false} ArmWithin<P>(base: int, s: seq<Timer<P>>, e: Timer<P>, lo: int, hi: int)
    requires Within(base, s, lo, hi) && lo <= Offset(base, e.key) < hi
    ensures Within(base, Arm(base, s, e), lo, hi)
  {
    if s != [] { ArmWithin(base, s[1..], e, lo, hi); }
  }

  lemma {:induction false} ArmAllSame<P>(base: int, s: seq<Timer<P>>, es: seq<Timer<P>>, lo: int, hi: int)
    requires InOrder(base, s) && Within(base, s, lo, hi) && Within(base, es, lo, hi)
    ensures InOrder(base, ArmAll(base, s, es)) && Within(base, ArmAll(base, s, es), lo, hi)
  {
    hide InOrder, Arm;
    if es != [] {
      var init, last := es[..|es| - 1], es[|es| - 1];
      ArmAllSame(base, s, init, lo, hi);
      ArmOrder(base, ArmAll(base, s, init), last);
      ArmWithin(base, ArmAll(base, s, init), last, lo, hi);
    }
  }

  // Timers armed for later never get in front of an earlier one.
  lemma {:induction false} ArmAllKeepsHead<P>(base: int, s: seq<Timer<P>>, es: seq<Timer<P>>)
    requires s != [] && forall i :: 0 <= i < |es| ==> Offset(base, s[0].key) <= Offset(base, es[i].key)
    ensures ArmAll(base, s, es) == [s[0]] + ArmAll(base, s[1..], es)
  {
    if es != [] {
      ArmAllKeepsHead(base, s, es[..|es| - 1]);
    }
  }

  lemma {:induction false} ArmAllApart<P>(base: int, s: seq<Timer<P>>, es: seq<Timer<P>>, es': seq<Timer<P>>)
    ensures ArmAll(base, s, es + es') == ArmAll(base, ArmAll(base, s, es), es')
  {
    if es' == [] {
      assert es + es' == es;
    } else {
      assert (es + es')[..|es + es'| - 1] == es + es'[..|es'| - 1];
      ArmAllApart(base, s, es, es'[..|es'| - 1]);
    }
  }

  // New timers less than half a circle after everything live, and live ones less than that after them.
  ghost predicate Close<P>(base: int, es: seq<Timer<P>>, lo: int, hi: int) {
    forall i :: 0 <= i < |es| ==> lo <= Offset(base, es[i].key) < hi
                                  && Offset(base, es[i].key) - lo < HALF && hi - Offset(base, es[i].key) <= HALF
  }

  lemma {:induction false} JoinsIsArmAll<P(!new)>(base: int, s: seq<Timer<P>>, es: seq<Timer<P>>, s': seq<Timer<P>>, lo: int, hi: int)
    requires Joins(s, es, s') && InOrder(base, s) && Within(base, s, lo, hi) && Close(base, es, lo, hi)
    ensures s' == ArmAll(base, s, es)
    decreases |es|
  {
    if es != [] {
      hide Offset, InOrder, Joined, Arm;
      var init, last := es[..|es| - 1], es[|es| - 1];
      var mid, at :| Joins(s, init, mid) && Joined(mid, last, at, s');
      JoinsIsArmAll(base, s, init, mid, lo, hi);
      ArmAllSame(base, s, init, lo, hi);
      JoinedIsArm(base, mid, last, at, s');
    }
  }

  lemma {:induction false} RequestedClose<P>(base: int, now: int, reqs: seq<(P, int)>, lo: int)
    requires Polite(reqs) && Offset(base, now) <= HALF && lo <= Offset(base, now) + 1
    requires forall i :: 0 <= i < |reqs| ==> Offset(base, now) + reqs[i].1 - lo < HALF
    ensures Close(base, Requested(now, reqs), lo, Offset(base, now) + HALF)
    ensures Within(base, Requested(now, reqs), Offset(base, now) + 1, Offset(base, now) + HALF)
  {
    hide Offset;
    if reqs != [] {
      var k := |reqs| - 1;
      RequestedClose(base, now, reqs[..k], lo);
      OffsetShift(base, now, reqs[k].1);
    }
  }

  // What the handlers of due timers start lies strictly in the future.
  lemma {:induction false} StartedLater<P>(base: int, now: int, handler: (P, nat) -> seq<(P, int)>, fired: seq<Timer<P>>, k: nat)
    requires (forall i :: 0 <= i < |fired| ==> Polite(handler(fired[i].data, k + i))) && Offset(base, now) <= HALF
    ensures Within(base, Started(handler, now, fired, k), Offset(base, now) + 1, Offset(base, now) + HALF)
  {
    hide Offset;
    if fired != [] {
      var n := |fired| - 1;
      StartedLater(base, now, handler, fired[..n], k);
      RequestedClose(base, now, handler(fired[n].data, k + n), Offset(base, now) + 1);
    }
  }

  lemma ReadyBased<P>(now: int, s: seq<Timer<P>>)
    requires Ready(now, s)
    ensures Based(now - HALF, now, s)
  {
    hide Signed;
    assert Offset(now - HALF, now) == HALF;
    forall i | 0 <= i < |s| ensures Offset(now - HALF, s[i].key) == Signed(s[i].key - now) + HALF {
      HalfBefore(now, s[i].key);
    }
    forall i | 0 <= i < |s| ensures 0 <= Offset(now - HALF, s[i].key) < WORD {
      OffsetRange(now - HALF, s[i].key);
    }
  }

  lemma HalfBefore(now: int, k: int)
    ensures Offset(now - HALF, k) == Signed(k - now) + HALF
  {}

  lemma BasedDue<P>(base: int, now: int, s: seq<Timer<P>>, i: nat)
    requires Based(base, now, s) && i < |s|
    ensures Signed(s[i].key - now) == Offset(base, s[i].key) - Offset(base, now)
  {
    DueOffset(base, now, s[i]);
  }

  // A due timer at the head is the next of the due ones of p ...
  lemma {:induction false} DueHead<P>(base: int, now: int, rest: seq<Timer<P>>, started: seq<Timer<P>>, left: seq<Timer<P>>)
    requires Based(base, now, rest) && Within(base, started, Offset(base, now) + 1, Offset(base, now) + HALF)
    requires left == ArmAll(base, rest, started) && left != [] && Due(now, left[0])
    ensures rest != [] && Due(now, rest[0]) && left == [rest[0]] + ArmAll(base, rest[1..], started)
  {
    hide ArmAll, Offset, Signed;
    OffsetRange(base, now);
    ArmAllSame(base, rest, started, 0, Offset(base, now) + HALF);
    BasedDue(base, now, left, 0);
    if rest == [] || !Due(now, rest[0]) {
      if rest != [] { BasedDue(base, now, rest, 0); }
      ArmAllSame(base, rest, started, Offset(base, now) + 1, Offset(base, now) + HALF);
      assert false;
    }
    BasedDue(base, now, rest, 0);
    ArmAllKeepsHead(base, rest, started);
  }

  // ... and if its handler is patient, what that starts joins in order what the earlier ones have started.
  lemma {:induction false} JoinsInOrder<P(!new)>(base: int, now: int, rest: seq<Timer<P>>, started: seq<Timer<P>>,
                                                 reqs: seq<(P, int)>, s': seq<Timer<P>>)
    requires Based(base, now, rest) && Within(base, started, Offset(base, now) + 1, Offset(base, now) + HALF) && Polite(reqs)
    requires rest != [] && Due(now, rest[0]) ==> Patient(now, rest[0], reqs)
    requires Joins(ArmAll(base, rest, started), Requested(now, reqs), s')
    ensures s' == ArmAll(base, rest, started + Requested(now, reqs))
  {
    hide ArmAll, Offset, Signed, Joins, Requested;
    var t := Offset(base, now);
    if rest != [] { BasedDue(base, now, rest, 0); }
    var lo := if rest != [] && Due(now, rest[0]) then Offset(base, rest[0].key) else t + 1;
    RequestedClose(base, now, reqs, lo);
    ArmAllSame(base, rest, started, lo, t + HALF);
    JoinsIsArmAll(base, ArmAll(base, rest, started), Requested(now, reqs), s', lo, t + HALF);
    ArmAllApart(base, rest, started, Requested(now, reqs));
  }

  lemma FiredPolite<P>(now: int, handler: (P, nat) -> seq<(P, int)>, k: nat, p: seq<Timer<P>>, n: nat)
    requires Courteous(now, handler, p) && n <= |p| && forall i :: 0 <= i < n ==> Due(now, p[i])
    ensures forall i :: 0 <= i < n ==> Polite(handler(p[i].data, k + i))
  {
    hide Due, Polite;
  }

  lemma {:induction false} TurnDue<P(!new)>(base: int, now: int, handler: (P, nat) -> seq<(P, int)>, k: nat,
                                            p: seq<Timer<P>>, fired: seq<Timer<P>>, left: seq<Timer<P>>,
                                            e: Timer<P>, left': seq<Timer<P>>)
    requires Based(base, now, p) && Expirable(now, handler, k, p) && Courteous(now, handler, p)
    requires PartlyExpired(base, now, handler, k, p, fired, left)
    requires Fires(now, handler(e.data, k + |fired|), left, e, left')
    ensures |fired| < |p| && PartlyExpired(base, now, handler, k, p, fired + [e], left')
  {
    hide ArmAll, Offset, Fires, Based, Due, Courteous;
    var n := |fired|;
    var rest, started := p[n..], Started(handler, now, fired, k);
    FiredPolite(now, handler, k, p, n);
    BasedRest(base, now, p, n);
    StartedLater(base, now, handler, fired, k);
    FiresHead(base, now, rest, started, handler(e.data, k + n), left, e, left');
    CourteousAt(now, handler, p, e, k + n);
    assert n + 1 < |p| ==> rest[1] == p[n + 1];
    FiresInOrder(base, now, rest, started, handler(e.data, k + n), left, e, left');
    assert (fired + [e])[..n] == fired && rest[1..] == p[n + 1..];
  }

  lemma BasedRest<P>(base: int, now: int, p: seq<Timer<P>>, n: nat)
    requires Based(base, now, p) && n <= |p|
    ensures Based(base, now, p[n..]) && Offset(base, now) <= HALF
  {
    hide Offset;
  }

  lemma FiresHead<P(!new)>(base: int, now: int, rest: seq<Timer<P>>, started: seq<Timer<P>>, reqs: seq<(P, int)>,
                           left: seq<Timer<P>>, e: Timer<P>, left': seq<Timer<P>>)
    requires Based(base, now, rest) && Within(base, started, Offset(base, now) + 1, Offset(base, now) + HALF)
    requires left == ArmAll(base, rest, started) && Fires(now, reqs, left, e, left')
    ensures rest != [] && e == rest[0] && Due(now, e)
  {
    hide Offset, Due, Joins, Requested;
    DueHead(base, now, rest, started, left);
  }

  lemma FiresInOrder<P(!new)>(base: int, now: int, rest: seq<Timer<P>>, started: seq<Timer<P>>, reqs: seq<(P, int)>,
                              left: seq<Timer<P>>, e: Timer<P>, left': seq<Timer<P>>)
    requires Based(base, now, rest) && Within(base, started, Offset(base, now) + 1, Offset(base, now) + HALF)
    requires left == ArmAll(base, rest, started) && Fires(now, reqs, left, e, left') && Polite(reqs)
    requires |rest| > 1 && Due(now, rest[1]) ==> Patient(now, rest[1], reqs)
    ensures rest != [] && left' == ArmAll(base, rest[1..], started + Requested(now, reqs))
  {
    hide Offset, Due, Joins, Requested, Based, Patient, Polite, ArmAll;
    DueHead(base, now, rest, started, left);
    assert left[1..] == ArmAll(base, rest[1..], started);
    BasedRest(base, now, rest, 1);
    JoinsInOrder(base, now, rest[1..], started, reqs, left');
  }

  // No due timer at the head: no due timer at all.
  lemma {:induction false} TurnDone<P>(now: int, handler: (P, nat) -> seq<(P, int)>, k: nat,
                                       p: seq<Timer<P>>, fired: seq<Timer<P>>, left: seq<Timer<P>>)
    requires Ready(now, p) && Courteous(now, handler, p)
    requires PartlyExpired(now - HALF, now, handler, k, p, fired, left) && (left == [] || !Due(now, left[0]))
    ensures Expired(now, handler, k, p, fired, left)
  {
    hide ArmAll, Offset, Signed, Ready;
    var base := now - HALF;
    ReadyBased(now, p);
    OffsetRange(base, now);
    var n, t := |fired|, Offset(base, now);
    var rest, started := p[n..], Started(handler, now, fired, k);
    StartedLater(base, now, handler, fired, k);
    ArmAllSame(base, rest, started, 0, t + HALF);
    if rest != [] && Due(now, rest[0]) {
      BasedDue(base, now, rest, 0);
      ArmAllKeepsHead(base, rest, started);
      assert false;
    }
    NoneDue(base, now, left);
    NoneDue(base, now, rest);
    forall i | n <= i < |p| ensures !Due(now, p[i]) {
      assert p[i] == rest[i - n];
    }
  }

  lemma NoneDue<P>(base: int, now: int, s: seq<Timer<P>>)
    requires Based(base, now, s) && (s == [] || !Due(now, s[0]))
    ensures forall i :: 0 <= i < |s| ==> !Due(now, s[i])
  {
    forall i | 0 <= i < |s| ensures !Due(now, s[i]) {
      BasedDue(base, now, s, 0);
      BasedDue(base, now, s, i);
    }
  }

  // So a run over patient handlers that ends with nothing due at the head has fired just the due timers, in order.
  lemma {:induction false} TracePartly<P(!new)>(base: int, now: int, handler: (P, nat) -> seq<(P, int)>, k: nat,
                                                fired: seq<Timer<P>>, lists: seq<seq<Timer<P>>>)
    requires Trace(now, handler, k, fired, lists) && Courteous(now, handler, lists[0])
    requires Based(base, now, lists[0]) && Expirable(now, handler, k, lists[0])
    ensures PartlyExpired(base, now, handler, k, lists[0], fired, lists[|fired|])
  {
    if fired != [] {
      hide Trace, PartlyExpired, Expirable, Courteous, Based;
      var n := |fired| - 1;
      TraceShorter(now, handler, k, fired, lists);
      TracePartly(base, now, handler, k, fired[..n], lists[..n + 1]);
      TurnDue(base, now, handler, k, lists[0], fired[..n], lists[n], fired[n], lists[n + 1]);
      assert fired[..n] + [fired[n]] == fired;
    }
  }

  lemma TraceExpires<P(!new)>(now: int, handler: (P, nat) -> seq<(P, int)>, k: nat,
                              fired: seq<Timer<P>>, lists: seq<seq<Timer<P>>>)
    requires Trace(now, handler, k, fired, lists) && Courteous(now, handler, lists[0])
    requires Expirable(now, handler, k, lists[0])
    requires lists[|fired|] == [] || !Due(now, lists[|fired|][0])
    ensures Expired(now, handler, k, lists[0], fired, lists[|fired|])
  {
    hide PartlyExpired, Expired, Due, Courteous, Ready, Based;
    ReadyBased(now, lists[0]);
    TracePartly(now - HALF, now, handler, k, fired, lists);
    TurnDone(now, handler, k, lists[0], fired, lists[|fired|]);
  }

  // The order of a timer against an overdue one.
  lemma OvertakesIff(now: int, lag: int, d: int)
    requires 0 <= now < WORD && 0 <= lag <= HALF && TIMER_LAZY_DELAY <= d < HALF
    ensures Less(ByTimer, (now + d) % WORD, (now - lag) % WORD) <==> lag + d >= HALF
  {
    var a, b := (now + d) / WORD, (now - lag) / WORD;
    assert (now + d) % WORD - (now - lag) % WORD == (lag + d) + WORD * (b - a);
    ModShift(lag + d, b - a);
  }

  lemma Overtakes<P>(now: int, d: int, b: Timer<P>)
    requires 0 <= now < WORD && 0 <= b.key < WORD && Due(now, b) && TIMER_LAZY_DELAY <= d < HALF
    ensures Less(ByTimer, (now + d) % WORD, b.key) <==> d - Signed(b.key - now) >= HALF
  {
    var lag := -Signed(b.key - now);
    assert (now - lag) % WORD == b.key;
    OvertakesIff(now, lag, d);
  }

  lemma JoinsMore<P(!new)>(p: seq<Timer<P>>, es: seq<Timer<P>>, mid: seq<Timer<P>>, e: Timer<P>, at: nat, s: seq<Timer<P>>)
    requires Joins(p, es, mid) && Joined(mid, e, at, s)
    ensures Joins(p, es + [e], s)
  {
    hide Joined;
    var all := es + [e];
    assert all[..|all| - 1] == es && all[|all| - 1] == e;
    assert Joins(p, all[..|all| - 1], mid) && Joined(mid, all[|all| - 1], at, s);
  }

  lemma JoinsOne<P(!new)>(s: seq<Timer<P>>, e: Timer<P>, s': seq<Timer<P>>) returns (at: nat)
    requires Joins(s, [e], s')
    ensures Joined(s, e, at, s')
  {
    var mid, i :| Joins(s, [e][..0], mid) && Joined(mid, [e][0], i, s');
    at := i;
  }

  // Patience is needed. With two due timers the bound is exact: the second fires if what the first one's handler
  // starts lies less than half a circle after it, and otherwise stays behind that, due and unfired.
  lemma PairExpires<P(!new)>(now: int, handler: (P, nat) -> seq<(P, int)>, k: nat, a: Timer<P>, b: Timer<P>, q: P, d: int,
                             fired: seq<Timer<P>>, lists: seq<seq<Timer<P>>>)
    requires 0 <= now < WORD && 0 <= b.key < WORD && Due(now, a) && Due(now, b)
    requires handler(a.data, k) == [(q, d)] && Courteous(now, handler, [a, b])
    requires Trace(now, handler, k, fired, lists) && lists[0] == [a, b]
    requires lists[|fired|] == [] || !Due(now, lists[|fired|][0])
    ensures if d - Signed(b.key - now) < HALF then fired == [a, b]
            else fired == [a] && lists[1] == [Timer((now + d) % WORD, q), b]
  {
    hide Signed, Less, Joins;
    var x := Timer((now + d) % WORD, q);
    PairStart(now, handler, k, a, b, q, d, fired, lists);
    SignedShift(now, d);
    if d - Signed(b.key - now) < HALF {
      CourteousAt(now, handler, [a, b], b, k + 1);
      PairEnd(now, handler, k, b, x, fired, lists);
      assert fired == [fired[0], fired[1]];
    } else {
      if |fired| > 1 { TraceDue(now, handler, k, fired, lists, 1); }
      assert fired == [fired[0]];
    }
  }

  lemma PairStart<P(!new)>(now: int, handler: (P, nat) -> seq<(P, int)>, k: nat, a: Timer<P>, b: Timer<P>, q: P, d: int,
                           fired: seq<Timer<P>>, lists: seq<seq<Timer<P>>>)
    requires 0 <= now < WORD && 0 <= b.key < WORD && Due(now, a) && Due(now, b)
    requires handler(a.data, k) == [(q, d)] && Courteous(now, handler, [a, b])
    requires Trace(now, handler, k, fired, lists) && lists[0] == [a, b]
    requires lists[|fired|] == [] || !Due(now, lists[|fired|][0])
    ensures TIMER_LAZY_DELAY <= d < HALF && |fired| >= 1 && fired[0] == a
    ensures var x := Timer((now + d) % WORD, q);
            lists[1] == if d - Signed(b.key - now) < HALF then [b, x] else [x, b]
  {
    hide Signed, Less;
    assert [a, b][0] == a;
    assert Fires(now, handler(fired[0].data, k), lists[0], fired[0], lists[1]);
    var x := Timer((now + d) % WORD, q);
    assert Requested(now, [(q, d)][..0]) == [];
    assert Requested(now, [(q, d)]) == [x];
    assert [a, b][1..] == [b];
    assert Polite([(q, d)]) && [(q, d)][0] == (q, d);
    var at := JoinsOne([b], x, lists[1]);
    Overtakes(now, d, b);
  }

  lemma PairEnd<P(!new)>(now: int, handler: (P, nat) -> seq<(P, int)>, k: nat, b: Timer<P>, x: Timer<P>,
                         fired: seq<Timer<P>>, lists: seq<seq<Timer<P>>>)
    requires 0 <= now < WORD && Due(now, b) && !Due(now, x) && Polite(handler(b.data, k + 1))
    requires Trace(now, handler, k, fired, lists) && |fired| >= 1 && lists[1] == [b, x]
    requires lists[|fired|] == [] || !Due(now, lists[|fired|][0])
    ensures |fired| == 2 && fired[1] == b
  {
    hide Signed, Less, Due, Joins;
    assert |fired| >= 2;
    assert Fires(now, handler(fired[1].data, k + 1), lists[1], fired[1], lists[2]);
    var reqs := Requested(now, handler(b.data, k + 1));
    assert [b, x][1..] == [x];
    JoinsConserves([x], reqs, lists[2]);
    RequestedNotDue(now, handler(b.data, k + 1));
    forall e | e in lists[2] ensures !Due(now, e) {
      assert e in multiset(lists[2]);
    }
    if |fired| > 2 { TraceDue(now, handler, k, fired, lists, 2); }
  }

  // The deadlines and data of a list of nodes.
  ghost function Listed<P>(s: seq<Node>, keys: map<Node, int>, ev: map<Node, P>): seq<Timer<P>>
    requires forall i :: 0 <= i < |s| ==> s[i] in ev && s[i] in keys
  {
    seq(|s|, i requires 0 <= i < |s| => Timer(keys[s[i]], ev[s[i]]))
  }

  lemma ListedSame<P>(s: seq<Node>, keys: map<Node, int>, ev: map<Node, P>, keys': map<Node, int>, ev': map<Node, P>)
    requires forall i :: 0 <= i < |s| ==> s[i] in ev && s[i] in keys
    requires forall i :: 0 <= i < |s| ==> s[i] in ev' && s[i] in keys' && ev'[s[i]] == ev[s[i]] && keys'[s[i]] == keys[s[i]]
    ensures Listed(s, keys', ev') == Listed(s, keys, ev)
  {}

  // A node put in between is its timer put in between.
  lemma ListedJoin<P>(s: seq<Node>, x: Node, at: nat, keys: map<Node, int>, ev: map<Node, P>)
    requires forall i :: 0 <= i < |s| ==> s[i] in ev && s[i] in keys
    requires x in ev && x in keys && at <= |s|
    requires at > 0 ==> !Less(ByTimer, keys[x], keys[s[at - 1]])
    requires at < |s| ==> Less(ByTimer, keys[x], keys[s[at]])
    ensures Joined(Listed(s, keys, ev), Timer(keys[x], ev[x]), at, Listed(s[..at] + [x] + s[at..], keys, ev))
  {
    hide Less;
    var l, t := Listed(s, keys, ev), s[..at] + [x] + s[at..];
    assert forall i :: 0 <= i < at ==> t[i] == s[i];
    assert forall i :: at < i < |t| ==> t[i] == s[i - 1];
    assert Listed(t, keys, ev) == l[..at] + [Timer(keys[x], ev[x])] + l[at..];
  }

  lemma HeadOnly(s: seq<Node>, x: Node, at: nat)
    requires at < |s| && s[at] == x == s[0] && forall i, j :: 0 <= i < j < |s| ==> s[i] != s[j]
    ensures s[..at] + s[at + 1..] == s[1..] && x !in s[1..]
  {}

  class Wheel<P(!new)> {
    const tree: Rbt
    // what the containing timer_event_t of a node carries
    var events: map<Node, P>
    // current_msec, and the clock that time_update copies into it
    var now: int
    var wall: int
    // the timers that the handler of an event starts, on its k-th call ever
    const handler: (P, nat) -> seq<(P, int)>
    var calls: nat

    constructor (sentinel: Node, wall0: int, handler0: (P, nat) -> seq<(P, int)>)
      requires 0 <= wall0 < WORD
      modifies sentinel`red
      ensures Valid() && Pending() == [] && now == wall == wall0 && handler == handler0 && calls == 0
      ensures fresh(tree) && tree.sentinel == sentinel && tree.nodes == {}
    {
      var t := new Rbt(sentinel, ByTimer);
      tree, events, now, wall, handler, calls := t, map[], wall0, wall0, handler0, 0;
    }

    ghost predicate Valid()
      reads this, tree, tree.nodes, tree.sentinel
    {
      && tree.Valid() && tree.insert == ByTimer && events.Keys == tree.nodes
      && 0 <= now < WORD && 0 <= wall < WORD
      && (forall i :: 0 <= i < |tree.Order()| ==> tree.Order()[i] in events)
      && (forall n :: n in tree.nodes ==> 0 <= n.key < WORD)
    }

    ghost function Keys(): map<Node, int>
      reads tree`nodes, tree.nodes`key
    {
      map n | n in tree.nodes :: n.key
    }

    ghost function Pending(): seq<Timer<P>>
      requires Valid()
      reads this, tree, tree.nodes, tree.sentinel
    {
      Listed(tree.Order(), Keys(), events)
    }

    lemma RootTells()
      requires Valid()
      ensures tree.root == tree.sentinel <==> Pending() == []
    {
      tree.View(Top, tree.shape);
    }

    method TimeUpdate() returns (msec: int)
      requires Valid()
      modifies this`now
      ensures now == wall && msec == wall && Valid() && Pending() == old(Pending())
    {
      hide Listed;
      now := wall;
      msec := now;
    }

    // The clock goes on, and is read.
    method Strike(wall0: int)
      requires Valid() && 0 <= wall0 < WORD
      modifies this`now, this`wall
      ensures Valid() && now == wall == wall0 && Pending() == old(Pending())
    {
      hide Listed, Rbt.Valid;
      wall := wall0;
      var msec := TimeUpdate();
    }

    // Setting a key outside the tree changes nothing in it.
    method SetKey(node: Node, key: int)
      requires Valid() && node !in tree.nodes && node != tree.sentinel
      modifies node`key
      ensures Valid() && node.key == key && Pending() == old(Pending())
    {
      node.key := key;
    }

    // rbtree_insert as add_timer uses it
    method InsertNode(node: Node, data: P) returns (ghost at: nat)
      requires Valid() && node !in tree.nodes && node != tree.sentinel && 0 <= node.key < WORD
      modifies this`events, tree`root, tree`nodes, tree`shape, tree.nodes`left, tree.nodes`right, tree.nodes`parent, tree.nodes`red
      modifies node`left, node`right, node`parent, node`red
      ensures Valid() && tree.nodes == old(tree.nodes) + {node}
      ensures at <= |old(tree.Order())| && tree.Order() == old(tree.Order())[..at] + [node] + old(tree.Order())[at..]
      ensures at > 0 ==> !Less(ByTimer, node.key, old(tree.Order())[at - 1].key)
      ensures at < |old(tree.Order())| ==> Less(ByTimer, node.key, old(tree.Order())[at].key)
      ensures events == old(events)[node := data]
    {
      hide Less, Ranks, Sorted, StablyInserted, Rbt.Shown;
      at := tree.Insert(node, map[]);
      events := events[node := data];
      tree.Listing();
    }

    method Place(node: Node, data: P) returns (ghost at: nat)
      requires Valid() && node !in tree.nodes && node != tree.sentinel && 0 <= node.key < WORD
      modifies this`events, tree`root, tree`nodes, tree`shape, tree.nodes`left, tree.nodes`right, tree.nodes`parent, tree.nodes`red
      modifies node`left, node`right, node`parent, node`red
      ensures Valid() && tree.nodes == old(tree.nodes) + {node}
      ensures Joined(old(Pending()), Timer(node.key, data), at, Pending())
    {
      hide Less, Joined, Listed;
      ghost var order, keys, ev := tree.Order(), Keys(), events;
      tree.Listing();
      at := InsertNode(node, data);
      ListedSame(order, keys, ev, Keys(), events);
      ListedJoin(order, node, at, Keys(), events);
    }

    method AddTimer(node: Node, data: P, msec: int) returns (armed: bool, ghost at: nat)
      requires Valid() && node !in tree.nodes && node != tree.sentinel && 0 <= node.key < WORD && 0 <= msec < WORD
      requires Signed((now + msec) % WORD - node.key) != -HALF
      modifies this`events, node`key, tree`root, tree`nodes, tree`shape, tree.nodes`left, tree.nodes`right, tree.nodes`parent, tree.nodes`red
      modifies node`left, node`right, node`parent, node`red
      ensures Valid() && tree.nodes == old(tree.nodes) + (if armed then {node} else {})
      ensures armed <==> Signed((now + msec) % WORD - old(node.key)) >= TIMER_LAZY_DELAY || Signed((now + msec) % WORD - old(node.key)) <= -TIMER_LAZY_DELAY
      ensures if armed then Joined(old(Pending()), Timer((now + msec) % WORD, data), at, Pending()) else Pending() == old(Pending())
    {
      hide Joined, Listed;
      at := 0;
      var key := (now + msec) % WORD;
      var diff := Signed(key - node.key);
      if (if diff < 0 then -diff else diff) < TIMER_LAZY_DELAY {
        return false, at;
      }
      SetKey(node, key);
      at := Place(node, data);
      armed := true;
    }

    // The allocation and stamping of a fresh event.
    method Stamp() returns (node: Node)
      requires Valid()
      modifies this`now
      ensures fresh(node) && node !in tree.nodes && node != tree.sentinel
      ensures Valid() && now == wall && node.key == now && Pending() == old(Pending())
    {
      hide Listed, Rbt.Valid;
      node := new Node();
      var msec := TimeUpdate();
      SetKey(node, now);
    }

    method TimerNew(data: P, s: int) returns (armed: bool, ghost at: nat)
      requires Valid() && -HALF < s < HALF
      modifies this`events, this`now, tree`root, tree`nodes, tree`shape, tree.nodes`left, tree.nodes`right, tree.nodes`parent, tree.nodes`red
      ensures Valid() && now == wall && fresh(tree.nodes - old(tree.nodes))
      ensures armed <==> s <= -TIMER_LAZY_DELAY || TIMER_LAZY_DELAY <= s
      ensures if armed then Joined(old(Pending()), Timer((wall + s) % WORD, data), at, Pending()) else Pending() == old(Pending())
    {
      hide Joined, Listed, Signed, Rbt.Valid;
      var node := Stamp();
      SignedShift(now, s);
      armed, at := AddTimer(node, data, s % WORD);
    }

    method RunOne(ghost p: seq<Timer<P>>, reqs: seq<(P, int)>, i: nat)
      requires Valid() && now == wall && i < |reqs| && Polite(reqs)
      requires Joins(p, Requested(now, reqs[..i]), Pending())
      modifies this`events, this`now, tree`root, tree`nodes, tree`shape, tree.nodes`left, tree.nodes`right, tree.nodes`parent, tree.nodes`red
      ensures Valid() && now == old(now) && fresh(tree.nodes - old(tree.nodes))
      ensures Joins(p, Requested(now, reqs[..i + 1]), Pending())
    {
      hide Joined, Joins, Requested, Listed;
      ghost var mid := Pending();
      var armed; ghost var at;
      armed, at := TimerNew(reqs[i].0, reqs[i].1);
      OneMoreJoins(now, p, reqs, i, mid, at, Pending());
    }

    // The timers a handler starts, one tq_timer_new after the other.
    method Run(data: P)
      requires Valid() && now == wall && Polite(handler(data, calls))
      modifies this`events, this`now, this`calls, tree`root, tree`nodes, tree`shape, tree.nodes`left, tree.nodes`right, tree.nodes`parent, tree.nodes`red
      ensures Valid() && now == old(now) && calls == old(calls) + 1 && fresh(tree.nodes - old(tree.nodes))
      ensures Joins(old(Pending()), Requested(now, handler(data, old(calls))), Pending())
    {
      hide Joins, Requested, Listed;
      var reqs := handler(data, calls);
      ghost var p := Pending();
      var i := 0;
      NoneJoins(now, p);
      assert reqs[..0] == [];
      while i < |reqs|
        invariant 0 <= i <= |reqs| && Valid() && now == wall == old(now) && calls == old(calls)
        invariant fresh(tree.nodes - old(tree.nodes))
        invariant Joins(p, Requested(now, reqs[..i]), Pending())
      {
        RunOne(p, reqs, i);
        i := i + 1;
      }
      assert reqs[..i] == reqs;
      Count();
    }

    method Count()
      requires Valid()
      modifies this`calls
      ensures Valid() && Pending() == old(Pending()) && calls == old(calls) + 1
    {
      hide Listed;
      calls := calls + 1;
    }

    // The least node is taken out of the tree ...
    method DeleteMin(node: Node)
      requires Valid() && tree.Order() != [] && node == tree.Order()[0]
      modifies this`events, tree`root, tree`nodes, tree`shape, tree.nodes`left, tree.nodes`right, tree.nodes`parent, tree.nodes`red, node`key
      modifies tree.sentinel`parent, tree.sentinel`red
      ensures Valid() && tree.nodes == old(tree.nodes) - {node}
      ensures tree.Order() == old(tree.Order())[1..] && node !in tree.Order()
      ensures events == old(events) - {node}
    {
      ghost var order := tree.Order();
      tree.Listing();
      ghost var at := tree.Delete(node);
      HeadOnly(order, node, at);
      tree.Listing();
      events := events - {node};
    }

    // ... and with it the first of the pending timers.
    method PopMin(node: Node)
      requires Valid() && tree.Order() != [] && node == tree.Order()[0]
      modifies this`events, tree`root, tree`nodes, tree`shape, tree.nodes`left, tree.nodes`right, tree.nodes`parent, tree.nodes`red, node`key
      modifies tree.sentinel`parent, tree.sentinel`red
      ensures Valid() && tree.nodes == old(tree.nodes) - {node}
      ensures Pending() == old(Pending())[1..]
    {
      ghost var order, keys, ev := tree.Order(), Keys(), events;
      tree.Listing();
      DeleteMin(node);
      ListedSame(order[1..], keys, ev, Keys(), events);
    }

    // The head of the list is the least node of the tree.
    method Head() returns (node: Node?)
      requires Valid()
      ensures node == null <==> Pending() == []
      ensures node != null ==> node in tree.nodes && node == tree.Order()[0] && node in events
      ensures node != null ==> Pending()[0] == Timer(node.key, events[node])
    {
      tree.Listing();
      node := tree.First();
    }

    // rbtree_delete, the handler, and free, for the timer at the head.
    method Fire(node: Node, ev: P)
      requires Valid() && now == wall && tree.Order() != [] && node == tree.Order()[0] && Polite(handler(ev, calls))
      modifies this`events, this`now, this`calls, tree`root, tree`nodes, tree`shape, tree.nodes`left, tree.nodes`right, tree.nodes`parent, tree.nodes`red
      modifies node`key, tree.sentinel`parent, tree.sentinel`red
      ensures Valid() && now == old(now) && calls == old(calls) + 1 && fresh(tree.nodes - old(tree.nodes))
      ensures Joins(old(Pending())[1..], Requested(now, handler(ev, old(calls))), Pending())
    {
      hide Joins, Requested, Listed, Polite;
      PopMin(node);
      Run(ev);
    }

    // One turn of the loop of expire_timers: the timer that fires, if one does.
    method ExpireTurn(ghost p: seq<Timer<P>>, ghost fired: seq<Timer<P>>) returns (one: seq<Timer<P>>)
      requires Valid() && now == wall && Courteous(now, handler, p) && FromEntry(now, p, fired, Pending())
      modifies this`events, this`now, this`calls, tree`root, tree`nodes, tree`shape, tree.nodes`left, tree.nodes`right, tree.nodes`parent, tree.nodes`red
      modifies tree.nodes`key, tree.sentinel`parent, tree.sentinel`red
      ensures Valid() && now == old(now) && fresh(tree.nodes - old(tree.nodes))
      ensures if one == [] then Pending() == old(Pending()) && calls == old(calls) && (Pending() == [] || !Due(now, Pending()[0]))
              else |one| == 1 && calls == old(calls) + 1 && Fires(now, handler(one[0].data, old(calls)), old(Pending()), one[0], Pending())
    {
      hide Listed, Courteous, Joins, Requested;
      ghost var s := Pending();
      var node := Head();
      if node == null || Signed(node.key - now) > 0 {
        return [];
      }
      var ev := events[node];
      one := [Timer(node.key, ev)];
      assert s[0] in Pending() && Due(now, s[0]);
      CourteousAt(now, handler, p, s[0], calls);
      Fire(node, ev);
    }

    method ExpireTimers() returns (fired: seq<Timer<P>>, ghost lists: seq<seq<Timer<P>>>)
      requires Valid() && now == wall && Courteous(now, handler, Pending())
      modifies this`events, this`now, this`calls, tree`root, tree`nodes, tree`shape, tree.nodes`left, tree.nodes`right, tree.nodes`parent, tree.nodes`red
      modifies tree.nodes`key, tree.sentinel`parent, tree.sentinel`red
      ensures Valid() && now == old(now) && calls == old(calls) + |fired| && fresh(tree.nodes - old(tree.nodes))
      ensures Trace(now, handler, old(calls), fired, lists) && lists[0] == old(Pending()) && lists[|fired|] == Pending()
      ensures Pending() == [] || !Due(now, Pending()[0])
      ensures FromEntry(now, old(Pending()), fired, Pending())
      ensures Expirable(now, handler, old(calls), old(Pending())) ==>
                Expired(now, handler, old(calls), old(Pending()), fired, Pending())
    {
      hide Listed, Courteous, Trace, Fires, Due, Expirable, Expired, FromEntry, Rbt.Valid;
      ghost var p, k := Pending(), calls;
      fired, lists := [], [p];
      TraceNone(now, handler, k, p);
      var done := false;
      while !done
        invariant Valid() && now == wall == old(now) && calls == k + |fired|
        invariant fresh(tree.nodes - old(tree.nodes))
        invariant |lists| == |fired| + 1 && lists[0] == p && lists[|fired|] == Pending()
        invariant Trace(now, handler, k, fired, lists) && |fired| <= |p| && FromEntry(now, p, fired, Pending())
        invariant done ==> Pending() == [] || !Due(now, Pending()[0])
        decreases !done, |p| - |fired|
      {
        var one := ExpireTurn(p, fired);
        done := one == [];
        if !done {
          TraceGoesOn(now, handler, k, fired, lists, one[0], Pending());
          fired, lists := fired + [one[0]], lists + [Pending()];
        }
      }
      if Expirable(now, handler, k, p) { TraceExpires(now, handler, k, fired, lists); }
    }

    // The wait until the next deadline: none if nothing is pending, zero if something is due.
    method FindTimer() returns (wait: int)
      requires Valid()
      ensures Pending() == [] ==> wait == TIMER_INFINITE
      ensures Pending() != [] ==> 0 <= wait < HALF
      ensures Pending() != [] ==> (wait == 0 && Due(now, Pending()[0])) || (wait > 0 && wait == Signed(Pending()[0].key - now))
      ensures Ready(now, Pending()) ==>
                forall i :: 0 <= i < |Pending()| && !Due(now, Pending()[i]) ==> wait <= Signed(Pending()[i].key - now)
    {
      hide Listed;
      RootTells();
      if tree.root == tree.sentinel {
        return TIMER_INFINITE;
      }
      var node := Head();
      var timer := Signed(node.key - now);
      return if timer > 0 then timer else 0;
    }

    method FreeAllTimers()
      requires Valid()
      modifies this`events, tree`root, tree`nodes, tree`shape, tree.nodes`left, tree.nodes`right, tree.nodes`parent, tree.nodes`red
      modifies tree.nodes`key, tree.sentinel`parent, tree.sentinel`red
      ensures Valid() && Pending() == [] && tree.nodes == {}
    {
      while true
        invariant Valid() && tree.nodes <= old(tree.nodes)
        decreases |Pending()|
      {
        var node := Head();
        if node == null {
          tree.View(Top, tree.shape);
          return;
        }
        PopMin(node);
      }
    }
  }

  // A single pending timer always fires: it may be overdue by anything up to half a circle, and its handler may ask
  // for any delay.
  lemma LoneTimerExpires<P(!new)>(now: int, handler: (P, nat) -> seq<(P, int)>, k: nat, t: Timer<P>,
                                  fired: seq<Timer<P>>, lists: seq<seq<Timer<P>>>)
    requires Trace(now, handler, k, fired, lists) && lists[0] == [t] && Due(now, t) && Courteous(now, handler, [t])
    requires lists[|fired|] == [] || !Due(now, lists[|fired|][0])
    ensures fired == [t] && forall e :: e in lists[|fired|] ==> !Due(now, e)
  {
    hide Trace, Due, Courteous;
    TraceExpires(now, handler, k, fired, lists);
    assert [t][0] == t;
  }

  // A wheel on which patience fails: two timers, both due at 2, fire at 7; the first one's handler starts one for
  // 2^31 - 3 later. The second is left behind that, due and unfired.
  method LateDeadlineStarves() returns (fired: seq<Timer<int>>, ghost left: seq<Timer<int>>)
    ensures fired == [Timer(2, 0)] && left == [Timer(HALF + 4, 2), Timer(2, 1)] && Due(7, left[1])
  {
    hide Courteous, Trace, Expirable, Expired, FromEntry, Listed, Rbt.Valid;
    var handler := (p: int, c: nat) => if p == 0 then [(2, HALF - 3)] else [];
    var w := TwoDue(handler);
    PairCourteous(7, handler);
    ghost var lists;
    fired, lists := w.ExpireTimers();
    assert handler(0, 0) == [(2, HALF - 3)];
    PairExpires(7, handler, 0, Timer(2, 0), Timer(2, 1), 2, HALF - 3, fired, lists);
    left := w.Pending();
  }

  method TwoDue(handler: (int, nat) -> seq<(int, int)>) returns (w: Wheel<int>)
    ensures fresh(w) && fresh(w.tree) && fresh(w.tree.sentinel) && fresh(w.tree.nodes)
    ensures w.Valid() && w.handler == handler && w.calls == 0 && w.now == w.wall == 7
    ensures w.Pending() == [Timer(2, 0), Timer(2, 1)]
  {
    hide Listed, Joined, Rbt.Valid;
    var sentinel := new Node();
    w := new Wheel(sentinel, 0, handler);
    var armed; ghost var at;
    armed, at := w.TimerNew(0, 2);
    FirstJoins(Timer(2, 0), at, w.Pending());
    armed, at := w.TimerNew(1, 2);
    EqualJoins(Timer(2, 0), Timer(2, 1), at, w.Pending());
    w.Strike(7);
  }

  lemma FirstJoins<P>(e: Timer<P>, at: nat, s: seq<Timer<P>>)
    requires Joined([], e, at, s)
    ensures s == [e]
  {}

  lemma EqualJoins<P>(a: Timer<P>, b: Timer<P>, at: nat, s: seq<Timer<P>>)
    requires Joined([a], b, at, s) && a.key == b.key
    ensures s == [a, b]
  {}

  lemma PairCourteous(now: int, handler: (int, nat) -> seq<(int, int)>)
    requires forall p, c :: handler(p, c) == if p == 0 then [(2, HALF - 3)] else []
    ensures Courteous(now, handler, [Timer(2, 0), Timer(2, 1)])
  {}

  lemma NoneJoins<P(!new)>(now: int, p: seq<Timer<P>>)
    ensures Joins(p, Requested(now, []), p)
  {}

  lemma OneMoreJoins<P(!new)>(now: int, p: seq<Timer<P>>, reqs: seq<(P, int)>, i: nat, mid: seq<Timer<P>>, at: nat, s: seq<Timer<P>>)
    requires i < |reqs| && Joins(p, Requested(now, reqs[..i]), mid)
    requires Joined(mid, Timer((now + reqs[i].1) % WORD, reqs[i].0), at, s)
    ensures Joins(p, Requested(now, reqs[..i + 1]), s)
  {
    hide Joined;
    assert reqs[..i + 1][..i] == reqs[..i];
    var e, es := Timer((now + reqs[i].1) % WORD, reqs[i].0), Requested(now, reqs[..i]);
    assert Requested(now, reqs[..i + 1]) == es + [e];
    JoinsMore(p, es, mid, e, at, s);
  }

  lemma CourteousAt<P>(now: int, handler: (P, nat) -> seq<(P, int)>, p: seq<Timer<P>>, e: Timer<P>, c: nat)
    requires Courteous(now, handler, p) && e in p && Due(now, e)
    ensures Polite(handler(e.data, c))
  {
    hide Polite, Due;
    var i :| 0 <= i < |p| && p[i] == e;
  }

  lemma TraceNone<P(!new)>(now: int, handler: (P, nat) -> seq<(P, int)>, k: nat, p: seq<Timer<P>>)
    ensures Trace(now, handler, k, [], [p]) && FromEntry(now, p, [], p)
  {}
}
