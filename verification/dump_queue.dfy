/**
 * The delayed duplicates of spp/spp_network.c: any number of senders and one worker, statement by statement.
 * A sender counts itself in under the lock, prepares its duplicate without it, and takes the lock again to
 * append it or to give its place back; the worker sends what has expired from the front.
 */
module DumpQueue {
  const LIMIT := 1024

  datatype Dumper = Dumper(id: nat, expires: nat)

  // Where a sender is in spp_dumper_alloc.
  datatype Pc =
    | Entering            // before the lock
    | Locked              // holds it, not counted yet
    | Counted             // counted in, before the test
    | Reserved            // has a place, lock dropped, before the copy
    | Copied              // before the allocation
    | Failed              // before the lock, to give the place back
    | Ready(d: Dumper)    // before the lock, to append
    | Appending(d: Dumper)
    | GivingBack
    | Leaving             // before the unlock

  // Where the worker is in spp_dump_work_cb.
  datatype Worker =
    | Idle
    | Scanning            // holds the lock, looks at the front
    | Unlinked(d: Dumper) // taken off the list, still counted
    | Sending(d: Dumper)  // counted out

  datatype Owner = Nobody | Sender(t: nat) | TheWorker

  // committed, sent and freed record what has happened so far.
  datatype State = State(ndumper: int, queue: seq<Dumper>, owner: Owner, senders: map<nat, Pc>, worker: Worker,
                         clock: nat, nextId: nat, stopped: bool,
                         committed: seq<Dumper>, sent: seq<Dumper>, sentAt: seq<nat>, freed: seq<Dumper>)

  const INIT := State(0, [], Nobody, map[], Idle, 0, 0, false, [], [], [], [])

  datatype Step =
    | Arrive(t: nat)
    | Take(t: nat)
    | Count(t: nat)
    | Test(t: nat)
    | Copy(t: nat, ok: bool)
    | Allocate(t: nat, ok: bool, delay: nat)
    | Append(t: nat)
    | GiveBack(t: nat)
    | Release(t: nat)
    | WorkerTake
    | WorkerScan
    | WorkerCount
    | WorkerSend
    | Tick
    | Fini

  predicate At(s: State, t: nat, pc: Pc) { t in s.senders && s.senders[t] == pc }

  predicate Enabled(s: State, step: Step) {
    match step
    case Arrive(t) => !s.stopped && t !in s.senders
    case Take(t) =>
      t in s.senders && s.owner == Nobody
      && (s.senders[t].Entering? || s.senders[t].Failed? || s.senders[t].Ready?)
    case Count(t) => At(s, t, Locked)
    case Test(t) => At(s, t, Counted)
    case Copy(t, _) => At(s, t, Reserved)
    case Allocate(t, _, _) => At(s, t, Copied)
    case Append(t) => t in s.senders && s.senders[t].Appending?
    case GiveBack(t) => At(s, t, GivingBack)
    case Release(t) => At(s, t, Leaving)
    case WorkerTake => !s.stopped && s.worker == Idle && s.owner == Nobody
    case WorkerScan => s.worker == Scanning
    case WorkerCount => s.worker.Unlinked?
    case WorkerSend => s.worker.Sending?
    case Tick => true
    case Fini => !s.stopped && s.senders == map[] && s.worker == Idle
  }

  function Go(s: State, t: nat, pc: Pc): State { s.(senders := s.senders[t := pc]) }

  function After(s: State, step: Step): State
    requires Enabled(s, step)
  {
    match step
    case Arrive(t) => Go(s, t, Entering)
    case Take(t) =>
      var next := if s.senders[t].Entering? then Locked
                  else if s.senders[t].Failed? then GivingBack
                  else Appending(s.senders[t].d);
      Go(s, t, next).(owner := Sender(t))
    case Count(t) => Go(s, t, Counted).(ndumper := s.ndumper + 1)
    case Test(t) => if s.ndumper >= LIMIT then Go(s, t, GivingBack) else Go(s, t, Reserved).(owner := Nobody)
    case Copy(t, ok) => Go(s, t, if ok then Copied else Failed)
    case Allocate(t, ok, delay) =>
      if ok then Go(s, t, Ready(Dumper(s.nextId, s.clock + delay))).(nextId := s.nextId + 1) else Go(s, t, Failed)
    case Append(t) =>
      var d := s.senders[t].d;
      Go(s, t, Leaving).(queue := s.queue + [d], committed := s.committed + [d])
    case GiveBack(t) => Go(s, t, Leaving).(ndumper := s.ndumper - 1)
    case Release(t) => s.(senders := s.senders - {t}, owner := Nobody)
    case WorkerTake => s.(worker := Scanning, owner := TheWorker)
    case WorkerScan =>
      if s.queue != [] && s.queue[0].expires <= s.clock
      then s.(worker := Unlinked(s.queue[0]), queue := s.queue[1..])
      else s.(worker := Idle, owner := Nobody)
    case WorkerCount => s.(worker := Sending(s.worker.d), ndumper := s.ndumper - 1)
    case WorkerSend => s.(worker := Scanning, sent := s.sent + [s.worker.d], sentAt := s.sentAt + [s.clock])
    case Tick => s.(clock := s.clock + 1)
    case Fini => s.(stopped := true, freed := s.queue, queue := [])
  }

  predicate HoldsLock(pc: Pc) { pc.Locked? || pc.Counted? || pc.Appending? || pc.GivingBack? || pc.Leaving? }

  predicate HasPlace(pc: Pc) { !pc.Entering? && !pc.Locked? && !pc.Leaving? }

  // The senders that count.
  function Places(m: map<nat, Pc>): set<nat> { set t | t in m && HasPlace(m[t]) }

  // The lock is held by the one that is inside.
  ghost predicate LockInv(s: State) {
    && (forall t :: t in s.senders ==> (HoldsLock(s.senders[t]) <==> s.owner == Sender(t)))
    && (s.owner.Sender? ==> s.owner.t in s.senders)
    && (s.owner == TheWorker <==> s.worker != Idle)
  }

  // The counter, and its limit; only a sender about to be turned away may exceed it.
  ghost predicate CountInv(s: State) {
    && (!s.stopped ==> s.ndumper == |s.queue| + |Places(s.senders)| + if s.worker.Unlinked? then 1 else 0)
    && s.ndumper <= LIMIT
    && (s.ndumper == LIMIT ==> s.owner.Sender? && s.owner.t in s.senders
                               && (s.senders[s.owner.t].Counted? || s.senders[s.owner.t].GivingBack?))
  }

  function InHand(w: Worker): seq<Dumper> { if w.Unlinked? || w.Sending? then [w.d] else [] }

  // What was appended is sent, in hand, queued or freed, in this order, and never sent early.
  ghost predicate OrderInv(s: State) {
    && s.committed == s.sent + InHand(s.worker) + s.queue + s.freed
    && (!s.stopped ==> s.freed == []) && (s.stopped ==> s.queue == [] && s.worker == Idle && s.senders == map[])
    && |s.sentAt| == |s.sent|
    && (forall i :: 0 <= i < |s.sent| ==> s.sent[i].expires <= s.sentAt[i] <= s.clock)
    && (forall d :: d in InHand(s.worker) ==> d.expires <= s.clock)
  }

  // Every duplicate is its own.
  ghost predicate FreshInv(s: State) {
    && (forall d :: d in s.committed ==> d.id < s.nextId)
    && (forall i, j :: 0 <= i < j < |s.committed| ==> s.committed[i].id != s.committed[j].id)
    && (forall t :: t in s.senders && Carries(s.senders[t]) ==>
          s.senders[t].d.id < s.nextId && forall d :: d in s.committed ==> d.id != s.senders[t].d.id)
    && (forall t, u :: t in s.senders && u in s.senders && t != u && Carries(s.senders[t]) && Carries(s.senders[u]) ==>
          s.senders[t].d.id != s.senders[u].d.id)
  }

  predicate Carries(pc: Pc) { pc.Ready? || pc.Appending? }

  lemma LockStep(s: State, step: Step)
    requires LockInv(s) && Enabled(s, step)
    ensures LockInv(After(s, step))
  {}

  lemma PlacesGo(m: map<nat, Pc>, t: nat, pc: Pc)
    ensures Places(m[t := pc]) == if HasPlace(pc) then Places(m) + {t} else Places(m) - {t}
    ensures t in m ==> (t in Places(m) <==> HasPlace(m[t]))
    ensures Places(m - {t}) == Places(m) - {t}
  {}

  // A sender's step changes the set of places at most at its own.
  lemma PlacesCount(m: map<nat, Pc>, t: nat, pc: Pc)
    ensures |Places(m[t := pc])| == |Places(m)| - (if t in m && HasPlace(m[t]) then 1 else 0) + (if HasPlace(pc) then 1 else 0)
    ensures |Places(m - {t})| == |Places(m)| - (if t in m && HasPlace(m[t]) then 1 else 0)
  {
    hide Places, HasPlace;
    PlacesGo(m, t, pc);
    assert t !in m ==> t !in Places(m) by {
      NoPlaceOutside(m, t);
    }
  }

  lemma NoPlaceOutside(m: map<nat, Pc>, t: nat)
    ensures t in Places(m) ==> t in m
  {}

  lemma CountStep(s: State, step: Step)
    requires LockInv(s) && CountInv(s) && Enabled(s, step)
    ensures CountInv(After(s, step))
  {
    hide Places;
    match step
    case Arrive(t) => PlacesCount(s.senders, t, Entering);
    case Take(t) => CountTake(s, t);
    case Count(t) => PlacesCount(s.senders, t, Counted);
    case Test(t) => CountTest(s, t);
    case Copy(t, ok) => PlacesCount(s.senders, t, if ok then Copied else Failed);
    case Allocate(t, ok, delay) => CountAllocate(s, t, ok, delay);
    case Append(t) => PlacesCount(s.senders, t, Leaving);
    case GiveBack(t) => PlacesCount(s.senders, t, Leaving);
    case Release(t) => PlacesCount(s.senders, t, Leaving);
    case _ =>
  }

  lemma CountTake(s: State, t: nat)
    requires LockInv(s) && CountInv(s) && Enabled(s, Take(t))
    ensures CountInv(After(s, Take(t)))
  {
    hide Places;
    PlacesCount(s.senders, t, After(s, Take(t)).senders[t]);
  }

  lemma CountTest(s: State, t: nat)
    requires LockInv(s) && CountInv(s) && Enabled(s, Test(t))
    ensures CountInv(After(s, Test(t)))
  {
    hide Places;
    PlacesCount(s.senders, t, After(s, Test(t)).senders[t]);
  }

  lemma CountAllocate(s: State, t: nat, ok: bool, delay: nat)
    requires LockInv(s) && CountInv(s) && Enabled(s, Allocate(t, ok, delay))
    ensures CountInv(After(s, Allocate(t, ok, delay)))
  {
    hide Places;
    PlacesCount(s.senders, t, After(s, Allocate(t, ok, delay)).senders[t]);
  }

  lemma OrderStep(s: State, step: Step)
    requires LockInv(s) && OrderInv(s) && Enabled(s, step)
    ensures OrderInv(After(s, step))
  {
    hide OrderInv;
    match step
    case Append(t) => OrderAppend(s, t);
    case WorkerScan => OrderScan(s);
    case WorkerSend => OrderSend(s);
    case Fini => OrderEnd(s);
    case Tick => OrderKept(s, After(s, step));
    case _ =>
      AwakeBefore(s, step);
      OrderKept(s, After(s, step));
  }

  // Nothing goes on after the end but the clock.
  lemma AwakeBefore(s: State, step: Step)
    requires LockInv(s) && OrderInv(s) && Enabled(s, step) && !step.Tick?
    ensures !s.stopped
  {}

  lemma OrderKept(s: State, s': State)
    requires OrderInv(s) && (s.stopped ==> s'.senders == s.senders && s'.worker == s.worker)
    requires s'.committed == s.committed && s'.sent == s.sent && s'.sentAt == s.sentAt && s'.queue == s.queue
    requires s'.freed == s.freed && s'.stopped == s.stopped && s.clock <= s'.clock && InHand(s'.worker) == InHand(s.worker)
    ensures OrderInv(s')
  {}

  lemma OrderAppend(s: State, t: nat)
    requires OrderInv(s) && Enabled(s, Append(t))
    ensures OrderInv(After(s, Append(t)))
  {}

  lemma OrderScan(s: State)
    requires OrderInv(s) && Enabled(s, WorkerScan)
    ensures OrderInv(After(s, WorkerScan))
  {}

  lemma OrderSend(s: State)
    requires OrderInv(s) && Enabled(s, WorkerSend)
    ensures OrderInv(After(s, WorkerSend))
  {}

  lemma OrderEnd(s: State)
    requires OrderInv(s) && Enabled(s, Fini)
    ensures OrderInv(After(s, Fini))
  {}

  lemma FreshStep(s: State, step: Step)
    requires FreshInv(s) && Enabled(s, step)
    ensures FreshInv(After(s, step))
  {
    hide FreshInv;
    match step
    case Allocate(t, ok, delay) => FreshAllocate(s, t, ok, delay);
    case Append(t) => FreshAppend(s, t);
    case _ => FreshKept(s, After(s, step));
  }

  lemma FreshAllocate(s: State, t: nat, ok: bool, delay: nat)
    requires FreshInv(s) && Enabled(s, Allocate(t, ok, delay))
    ensures FreshInv(After(s, Allocate(t, ok, delay)))
  {}

  lemma FreshAppend(s: State, t: nat)
    requires FreshInv(s) && Enabled(s, Append(t))
    ensures FreshInv(After(s, Append(t)))
  {
    var s', d := After(s, Append(t)), s.senders[t].d;
    assert forall x :: x in s'.committed <==> x in s.committed || x == d;
    forall i, j | 0 <= i < j < |s'.committed|
      ensures s'.committed[i].id != s'.committed[j].id
    {
      assert s'.committed[i] in s.committed;
    }
  }

  lemma FreshKept(s: State, s': State)
    requires FreshInv(s) && s'.committed == s.committed && s'.nextId == s.nextId
    requires forall t :: t in s'.senders && Carries(s'.senders[t]) ==>
               t in s.senders && Carries(s.senders[t]) && s.senders[t].d == s'.senders[t].d
    ensures FreshInv(s')
  {}

  // All of it at once.
  ghost predicate Inv(s: State) { LockInv(s) && CountInv(s) && OrderInv(s) && FreshInv(s) }

  lemma InvStep(s: State, step: Step)
    requires Inv(s) && Enabled(s, step)
    ensures Inv(After(s, step))
  {
    hide LockInv, CountInv, OrderInv, FreshInv, After, Enabled;
    LockStep(s, step);
    CountStep(s, step);
    OrderStep(s, step);
    FreshStep(s, step);
  }

  // A run: the states passed through by any interleaving of steps.
  ghost predicate Run(states: seq<State>, steps: seq<Step>) {
    && |states| == |steps| + 1 && states[0] == INIT
    && forall i :: 0 <= i < |steps| ==> Enabled(states[i], steps[i]) && states[i + 1] == After(states[i], steps[i])
  }

  lemma {:induction false} InvAlways(states: seq<State>, steps: seq<Step>, i: nat)
    requires Run(states, steps) && i < |states|
    ensures Inv(states[i])
  {
    if i > 0 {
      InvAlways(states, steps, i - 1);
      InvStep(states[i - 1], steps[i - 1]);
    }
  }

  // What some sender allocated before step i, for its delay.
  ghost predicate Allocated(states: seq<State>, steps: seq<Step>, i: nat, d: Dumper)
    requires i <= |steps| < |states|
  {
    exists k :: 0 <= k < i && AllocatedAt(states[k], steps[k], d)
  }

  predicate AllocatedAt(s: State, step: Step, d: Dumper) {
    step.Allocate? && step.ok && s.nextId == d.id && d.expires == s.clock + step.delay
  }

  // Everything that is carried or has been appended.
  ghost predicate OnTheWay(s: State, d: Dumper) {
    d in s.committed || exists t :: t in s.senders && Carries(s.senders[t]) && s.senders[t].d == d
  }

  // A step puts nothing on the way but what it allocates.
  lemma OnTheWayBefore(s: State, step: Step, d: Dumper)
    requires Enabled(s, step) && OnTheWay(After(s, step), d)
    ensures OnTheWay(s, d) || AllocatedAt(s, step, d)
  {}

  lemma {:induction false} AllAllocated(states: seq<State>, steps: seq<Step>, i: nat, d: Dumper)
    requires Run(states, steps) && i < |states| && OnTheWay(states[i], d)
    ensures Allocated(states, steps, i, d)
  {
    hide OnTheWay, AllocatedAt, Enabled, After;
    if i > 0 {
      OnTheWayBefore(states[i - 1], steps[i - 1], d);
      if OnTheWay(states[i - 1], d) {
        AllAllocated(states, steps, i - 1, d);
      }
    } else {
      NothingAtFirst(d);
    }
  }

  lemma NothingAtFirst(d: Dumper)
    ensures !OnTheWay(INIT, d)
  {}

  // The worker stops only when nothing at the front is due.
  lemma StopsWhenNoneDue(states: seq<State>, steps: seq<Step>, i: nat)
    requires Run(states, steps) && i < |steps| && states[i].worker != Idle && states[i + 1].worker == Idle
    ensures var s := states[i + 1]; s.queue == [] || s.queue[0].expires > s.clock
  {}

  // The senders on their way with a place.
  function InFlight(s: State): set<nat> {
    set t | t in s.senders && (s.senders[t].Reserved? || s.senders[t].Copied? || s.senders[t].Failed? || s.senders[t].Ready?)
  }

  // Whenever the lock is free the counter is the length of the queue plus the places in flight, and below the limit.
  lemma CounterIsExact(states: seq<State>, steps: seq<Step>, i: nat)
    requires Run(states, steps) && i < |states| && states[i].owner == Nobody && !states[i].stopped
    ensures var s := states[i];
            s.ndumper == |s.queue| + |InFlight(s)| && s.ndumper < LIMIT
  {
    InvAlways(states, steps, i);
    var s := states[i];
    assert Places(s.senders) == InFlight(s);
  }

  // A duplicate is turned away for want of room only when the other places are all taken.
  lemma TurnedAwayWhenFull(states: seq<State>, steps: seq<Step>, i: nat, t: nat)
    requires Run(states, steps) && i < |steps| && steps[i] == Test(t)
    ensures var s := states[i];
            states[i + 1].senders[t].GivingBack? <==> |s.queue| + |InFlight(s)| == LIMIT - 1
  {
    InvAlways(states, steps, i);
    var s := states[i];
    assert Places(s.senders) == InFlight(s) + {t};
  }

  // Duplicates leave in the order they were appended, each once, none before its time; after the end none is left.
  lemma SentInOrder(states: seq<State>, steps: seq<Step>, i: nat)
    requires Run(states, steps) && i < |states|
    ensures var s := states[i];
            && s.sent <= s.committed
            && (forall j, k :: 0 <= j < k < |s.committed| ==> s.committed[j] != s.committed[k])
            && |s.sentAt| == |s.sent| && (forall j :: 0 <= j < |s.sent| ==> s.sent[j].expires <= s.sentAt[j])
            && (s.stopped ==> s.committed == s.sent + s.freed)
  {
    InvAlways(states, steps, i);
    var s := states[i];
    assert s.committed == s.sent + (InHand(s.worker) + s.queue + s.freed);
  }

  // No duplicate is sent before the delay asked for has passed since it was allocated.
  lemma SentAfterDelay(states: seq<State>, steps: seq<Step>, i: nat, j: nat)
    requires Run(states, steps) && i < |states| && j < |states[i].sent|
    ensures |states[i].sentAt| == |states[i].sent|
    ensures exists k :: 0 <= k < i && steps[k].Allocate? && steps[k].ok && states[k].nextId == states[i].sent[j].id
              && states[i].sentAt[j] >= states[k].clock + steps[k].delay
  {
    var s := states[i];
    SentInOrder(states, steps, i);
    assert s.sent[j] == s.committed[j];
    AllAllocated(states, steps, i, s.sent[j]);
  }
}
