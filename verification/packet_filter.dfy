/** The upstream hook of spp/spp_network.c, and what it drops over whole runs. */
module PacketFilter {
  import opened PacketTable

  // What the hook looks at in a packet: its protocol, the two address lists, the don't-fragment flag, the signature.
  datatype Packet = Packet(udp: bool, fromClient: bool, toServer: bool, dontFragment: bool, sig: Signature)

  datatype Verdict = Accept | Drop

  // A trim time of zero turns the filter off; other packets and empty payloads pass.
  predicate Considered(p: Packet, trim: nat) {
    trim != 0 && p.udp && p.fromClient && p.toServer && p.dontFragment && p.sig.ulen != 0
  }

  // A run: packets seen by the hook and sweeps of the table, each with the clock, and whether memory could be had.
  datatype Event = Seen(p: Packet, trim: nat, now: nat, memory: bool) | Swept(now: nat)

  function Step(m: map<Signature, nat>, e: Event): map<Signature, nat> {
    match e
    case Seen(p, trim, now, memory) => if Considered(p, trim) then AfterAdd(m, p.sig, now + trim, memory) else m
    case Swept(now) => AfterSweep(m, now)
  }

  class Filter {
    const table: Table

    constructor ()
      ensures fresh(table) && fresh(table.buckets) && table.Represents(map[])
    {
      table := new Table(SPP_PACKET_MAX);
    }

    method Up(p: Packet, trim: nat, now: nat, memory: bool, ghost m: map<Signature, nat>) returns (v: Verdict)
      requires table.Represents(m)
      modifies table.buckets, table`entries
      ensures v == Drop <==> trim != 0 && p.udp && p.fromClient && p.toServer && p.dontFragment && p.sig.ulen != 0 && p.sig in m
      ensures trim == 0 || !p.udp || !p.fromClient || !p.toServer || !p.dontFragment || p.sig.ulen == 0 ==> table.Represents(m)
      ensures table.Represents(Step(m, Seen(p, trim, now, memory)))
    {
      if trim == 0 {
        return Accept;
      }
      if !p.udp {
        return Accept;
      }
      if !p.fromClient || !p.toServer {
        return Accept;
      }
      if !p.dontFragment || p.sig.ulen == 0 {
        return Accept;
      }
      var r := table.Add(p.sig.uhash, p.sig, now + trim, memory, m);
      if r == Exists {
        return Drop;
      }
      return Accept;
    }

    // The work of the trim timer.
    method Trim(now: nat, ghost m: map<Signature, nat>)
      requires table.Represents(m)
      modifies table.buckets
      ensures table.Represents(Step(m, Swept(now)))
    {
      table.Sweep(now, m);
    }
  }

  function TableAfter(run: seq<Event>): map<Signature, nat> {
    if run == [] then map[] else Step(TableAfter(run[..|run| - 1]), run[|run| - 1])
  }

  predicate ConsideredAt(run: seq<Event>, i: nat) { i < |run| && run[i].Seen? && Considered(run[i].p, run[i].trim) }

  predicate DroppedAt(run: seq<Event>, i: nat) { ConsideredAt(run, i) && run[i].p.sig in TableAfter(run[..i]) }

  // Packet i got into the table.
  predicate InsertedAt(run: seq<Event>, i: nat) { ConsideredAt(run, i) && !DroppedAt(run, i) && run[i].memory }

  function ExpiryAt(run: seq<Event>, i: nat): nat
    requires i < |run| && run[i].Seen?
  {
    run[i].now + run[i].trim
  }

  // No sweep after event i and before event j came at or after time x.
  predicate Unswept(run: seq<Event>, i: nat, j: nat, x: nat)
    requires j <= |run|
  {
    forall k :: i < k < j && run[k].Swept? ==> run[k].now < x
  }

  // Packet i is what the table holds of its signature just before event j.
  predicate HeldFrom(run: seq<Event>, i: nat, j: nat) {
    i < j <= |run| && InsertedAt(run, i) && Unswept(run, i, j, ExpiryAt(run, i))
  }

  // An entry stands in the table exactly when some packet inserted it and no sweep has taken it since.
  lemma {:induction false} TableHolds(run: seq<Event>, j: nat, s: Signature, x: nat)
    requires j <= |run|
    ensures (s in TableAfter(run[..j]) && TableAfter(run[..j])[s] == x)
       <==> exists i :: 0 <= i < j && HeldFrom(run, i, j) && run[i].p.sig == s && ExpiryAt(run, i) == x
  {
    if j > 0 {
      var was, now := TableAfter(run[..j - 1]), TableAfter(run[..j]);
      assert run[..j][..j - 1] == run[..j - 1];
      TableHolds(run, j - 1, s, x);
      if s in now && now[s] == x {
        if s in was && was[s] == x {
          var i :| 0 <= i < j - 1 && HeldFrom(run, i, j - 1) && run[i].p.sig == s && ExpiryAt(run, i) == x;
          assert HeldFrom(run, i, j);
        } else {
          assert HeldFrom(run, j - 1, j);
        }
      }
      forall i | 0 <= i < j && HeldFrom(run, i, j) && run[i].p.sig == s && ExpiryAt(run, i) == x
        ensures s in now && now[s] == x
      {
        if i < j - 1 {
          assert HeldFrom(run, i, j - 1);
        }
      }
    }
  }

  // A packet is dropped exactly when an equal one was inserted before it and no sweep in between
  // came at or after that one's expiry.
  lemma DroppedIff(run: seq<Event>, j: nat)
    requires ConsideredAt(run, j)
    ensures DroppedAt(run, j) <==> exists i :: 0 <= i < j && HeldFrom(run, i, j) && run[i].p.sig == run[j].p.sig
  {
    hide Unswept, TableAfter;
    var s, m := run[j].p.sig, TableAfter(run[..j]);
    if s in m {
      TableHolds(run, j, s, m[s]);
    }
    forall i | 0 <= i < j && HeldFrom(run, i, j) && run[i].p.sig == s
      ensures s in m
    {
      TableHolds(run, j, s, ExpiryAt(run, i));
    }
  }

  // Two equal packets both get past the table only if the first found no memory,
  // or a sweep at or after its expiry ran between them.
  lemma BothAccepted(run: seq<Event>, i: nat, j: nat)
    requires i < j && ConsideredAt(run, i) && ConsideredAt(run, j) && run[i].p.sig == run[j].p.sig
    requires !DroppedAt(run, i) && !DroppedAt(run, j)
    ensures !run[i].memory || exists k :: i < k < j && run[k].Swept? && run[k].now >= ExpiryAt(run, i)
  {
    hide TableAfter;
    DroppedIff(run, j);
    if run[i].memory {
      assert !HeldFrom(run, i, j);
    }
  }
}
