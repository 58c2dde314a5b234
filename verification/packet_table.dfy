/** The bucketed table of spp/spp_struct.c as spp/spp_network.c uses it, to drop duplicates of packets seen lately. */
module PacketTable {
  const SPP_PACKET_MAX := 1024

  // What identifies a packet: its header fields, and the hash of its payload.
  datatype Signature = Signature(saddr: nat, daddr: nat, sport: nat, dport: nat, protocol: nat, ulen: nat, uhash: nat)

  datatype Entry = Entry(sig: Signature, expire: nat)

  // The comparison of two entries, field by field; the expiry does not take part.
  predicate SamePacket(e1: Entry, e2: Entry) {
    && e1.sig.uhash == e2.sig.uhash
    && e1.sig.ulen == e2.sig.ulen
    && e1.sig.protocol == e2.sig.protocol
    && e1.sig.saddr == e2.sig.saddr
    && e1.sig.daddr == e2.sig.daddr
    && e1.sig.sport == e2.sig.sport
    && e1.sig.dport == e2.sig.dport
  }

  datatype Added = Inserted | Exists | NoMemory

  // A bucket: entries of one residue, no two of one packet.
  ghost predicate Bucket(b: seq<Entry>, i: nat, size: nat)
    requires size > 0
  {
    && (forall k :: 0 <= k < |b| ==> b[k].sig.uhash % size == i)
    && (forall j, k :: 0 <= j < k < |b| ==> b[j].sig != b[k].sig)
  }

  // What a sweep leaves of a bucket.
  function Kept(b: seq<Entry>, now: nat): (r: seq<Entry>)
    ensures forall e :: e in r <==> e in b && e.expire > now
  {
    if b == [] then [] else (if b[0].expire <= now then [] else [b[0]]) + Kept(b[1..], now)
  }

  lemma {:induction false} KeptBucket(b: seq<Entry>, now: nat, i: nat, size: nat)
    requires size > 0 && Bucket(b, i, size)
    ensures Bucket(Kept(b, now), i, size)
  {
    if b != [] {
      KeptBucket(b[1..], now, i, size);
      var r := Kept(b[1..], now);
      forall k | 0 <= k < |r|
        ensures r[k].sig != b[0].sig
      {
        assert r[k] in b[1..];
      }
    }
  }

  // The table as a map from packets to expiry times, after the two operations.
  function AfterAdd(m: map<Signature, nat>, s: Signature, expire: nat, memory: bool): map<Signature, nat> {
    if s in m || !memory then m else m[s := expire]
  }

  function AfterSweep(m: map<Signature, nat>, now: nat): map<Signature, nat> {
    map s | s in m && m[s] > now :: m[s]
  }

  ghost predicate Shows(buckets: seq<seq<Entry>>, m: map<Signature, nat>) {
    && |buckets| > 0
    && (forall i :: 0 <= i < |buckets| ==> Bucket(buckets[i], i, |buckets|))
    && forall e: Entry :: e in buckets[e.sig.uhash % |buckets|] <==> e.sig in m && m[e.sig] == e.expire
  }

  lemma IsThere(buckets: seq<seq<Entry>>, m: map<Signature, nat>, s: Signature)
    requires Shows(buckets, m) && s in m
    ensures exists k :: 0 <= k < |buckets[s.uhash % |buckets|]| && buckets[s.uhash % |buckets|][k].sig == s
  {
    assert Entry(s, m[s]) in buckets[s.uhash % |buckets|];
  }

  lemma AddShows(buckets: seq<seq<Entry>>, m: map<Signature, nat>, e: Entry)
    requires Shows(buckets, m) && e.sig !in m
    ensures var h := e.sig.uhash % |buckets|;
            Shows(buckets[h := [e] + buckets[h]], m[e.sig := e.expire])
  {
    var n, h := |buckets|, e.sig.uhash % |buckets|;
    var after, m' := buckets[h := [e] + buckets[h]], m[e.sig := e.expire];
    assert forall k :: 0 <= k < |buckets[h]| ==> buckets[h][k].sig != e.sig by {
      forall k | 0 <= k < |buckets[h]|
        ensures buckets[h][k].sig != e.sig
      {
        assert buckets[h][k] in buckets[h];
      }
    }
    forall x: Entry
      ensures x in after[x.sig.uhash % n] <==> x.sig in m' && m'[x.sig] == x.expire
    {
      if x.sig.uhash % n == h {
        assert x in after[h] <==> x == e || x in buckets[h];
      }
    }
  }

  lemma RemoveShows(buckets: seq<seq<Entry>>, m: map<Signature, nat>, h: nat, k: nat)
    requires Shows(buckets, m) && h < |buckets| && k < |buckets[h]|
    ensures var e := buckets[h][k];
            && e.sig in m && m[e.sig] == e.expire
            && Shows(buckets[h := buckets[h][..k] + buckets[h][k + 1..]], m - {e.sig})
  {
    var n, b := |buckets|, buckets[h];
    var e, r := b[k], b[..k] + b[k + 1..];
    var after, m' := buckets[h := r], m - {e.sig};
    assert e in b;
    assert forall j :: 0 <= j < |r| ==> r[j] == if j < k then b[j] else b[j + 1];
    forall x: Entry
      ensures x in after[x.sig.uhash % n] <==> x.sig in m' && m'[x.sig] == x.expire
    {
      if x.sig.uhash % n == h {
        RemovedOne(b, k, x, h, n);
      }
    }
  }

  lemma RemovedOne(b: seq<Entry>, k: nat, x: Entry, h: nat, n: nat)
    requires k < |b| && n > 0 && Bucket(b, h, n)
    ensures x in b[..k] + b[k + 1..] <==> x in b && x.sig != b[k].sig
  {
    var r := b[..k] + b[k + 1..];
    if x in b && x.sig != b[k].sig {
      var j: nat :| j < |b| && b[j] == x;
      assert r[if j < k then j else j - 1] == x;
    }
    if x in r {
      var j: nat :| j < |r| && r[j] == x;
      assert b[if j < k then j else j + 1] == x;
    }
  }

  class Table {
    const buckets: array<seq<Entry>>
    var entries: nat

    constructor (size: nat)
      requires size > 0
      ensures fresh(buckets) && buckets.Length == size && Represents(map[]) && entries == 0
    {
      buckets := new seq<Entry>[size](_ => []);
      entries := 0;
    }

    ghost predicate Represents(m: map<Signature, nat>)
      reads buckets
    {
      Shows(buckets[..], m)
    }

    // A packet already there is told apart from one that finds no memory; a new one goes to the front of its bucket.
    method Add(hash: nat, s: Signature, expire: nat, memory: bool, ghost m: map<Signature, nat>) returns (r: Added)
      requires Represents(m) && hash == s.uhash
      modifies buckets, `entries
      ensures r == if s in m then Exists else if memory then Inserted else NoMemory
      ensures Represents(AfterAdd(m, s, expire, memory))
      ensures entries == old(entries) + if r == Inserted then 1 else 0
    {
      var h := hash % buckets.Length;
      var v := Entry(s, expire);
      if s in m {
        IsThere(buckets[..], m, s);
      }
      var k := 0;
      while k < |buckets[h]|
        invariant k <= |buckets[h]|
        invariant forall j :: 0 <= j < k ==> buckets[h][j].sig != s
      {
        if SamePacket(buckets[h][k], v) {
          assert buckets[h][k] in buckets[..][h];
          return Exists;
        }
        k := k + 1;
      }
      if !memory {
        return NoMemory;
      }
      AddShows(buckets[..], m, v);
      ghost var before := buckets[..];
      buckets[h] := [v] + buckets[h];
      assert buckets[..] == before[h := [v] + before[h]];
      entries := entries + 1;
      return Inserted;
    }

    // Every bucket loses the entries whose time has come; the count of entries stays as it is.
    method Sweep(now: nat, ghost m: map<Signature, nat>)
      requires Represents(m)
      modifies buckets
      ensures Represents(AfterSweep(m, now))
    {
      ghost var was := buckets[..];
      var i := 0;
      while i < buckets.Length
        invariant i <= buckets.Length
        invariant forall k :: 0 <= k < i ==> buckets[k] == Kept(was[k], now)
        invariant forall k :: i <= k < buckets.Length ==> buckets[k] == was[k]
      {
        SweepBucket(i, now);
        i := i + 1;
      }
      SweepShows(was, buckets[..], m, now);
    }

    // Looking a packet up; with del it is taken out, and then nothing is returned. The count stays as it is.
    method Get(hash: nat, s: Signature, del: bool, ghost m: map<Signature, nat>) returns (found: seq<Entry>)
      requires Represents(m) && hash == s.uhash
      modifies buckets
      ensures found == if s in m && !del then [Entry(s, m[s])] else []
      ensures Represents(if del then m - {s} else m)
    {
      var h := hash % buckets.Length;
      ghost var before := buckets[..];
      if s in m {
        IsThere(before, m, s);
      }
      found := [];
      var k := 0;
      while k < |buckets[h]|
        invariant k <= |buckets[h]| && buckets[..] == before
        invariant forall j :: 0 <= j < k ==> buckets[h][j].sig != s
      {
        if SamePacket(buckets[h][k], Entry(s, 0)) {
          RemoveShows(before, m, h, k);
          if del {
            buckets[h] := buckets[h][..k] + buckets[h][k + 1..];
            assert buckets[..] == before[h := before[h][..k] + before[h][k + 1..]];
          } else {
            found := [buckets[h][k]];
          }
          return;
        }
        k := k + 1;
      }
      assert s !in m;
      assert m - {s} == m;
    }

    // Every entry is destroyed.
    method Destroy()
      requires buckets.Length > 0
      modifies buckets
      ensures Represents(map[])
    {
      var i := 0;
      while i < buckets.Length
        invariant i <= buckets.Length && forall k :: 0 <= k < i ==> buckets[k] == []
      {
        while buckets[i] != []
          invariant forall k :: 0 <= k < i ==> buckets[k] == []
          decreases |buckets[i]|
        {
          buckets[i] := buckets[i][1..];
        }
        i := i + 1;
      }
    }

    method SweepBucket(i: nat, now: nat)
      requires i < buckets.Length
      modifies buckets
      ensures buckets[..] == old(buckets[..])[i := Kept(old(buckets[i]), now)]
    {
      hide Kept, Sweeping;
      ghost var was := buckets[i];
      SweepStart(was, now);
      var k := 0;
      ghost var seen := 0;
      while k < |buckets[i]|
        invariant k <= |buckets[i]| && seen <= |was| && Sweeping(buckets[i], k, was, seen, now)
        invariant forall j :: 0 <= j < buckets.Length && j != i ==> buckets[j] == old(buckets[j])
        decreases |was| - seen
      {
        SweepStep(buckets[i], k, was, seen, now);
        if buckets[i][k].expire <= now {
          buckets[i] := buckets[i][..k] + buckets[i][k + 1..];
        } else {
          k := k + 1;
        }
        seen := seen + 1;
      }
      SweepEnd(buckets[i], was, seen, now);
    }
  }

  // The first k entries of b are what was kept of the seen ones.
  ghost predicate Sweeping(b: seq<Entry>, k: nat, was: seq<Entry>, seen: nat, now: nat) {
    seen <= |was| && k == |Kept(was[..seen], now)| && b == Kept(was[..seen], now) + was[seen..]
  }

  lemma {:induction false} KeptOneMore(b: seq<Entry>, e: Entry, now: nat)
    ensures Kept(b + [e], now) == Kept(b, now) + if e.expire <= now then [] else [e]
  {
    if b == [] {
    } else {
      assert (b + [e])[1..] == b[1..] + [e];
      KeptOneMore(b[1..], e, now);
    }
  }

  lemma SweepStart(was: seq<Entry>, now: nat)
    ensures Sweeping(was, 0, was, 0, now)
  {
    assert was[0..] == was;
  }

  lemma SweepStep(b: seq<Entry>, k: nat, was: seq<Entry>, seen: nat, now: nat)
    requires k < |b| && Sweeping(b, k, was, seen, now)
    ensures seen < |was|
    ensures if b[k].expire <= now then Sweeping(b[..k] + b[k + 1..], k, was, seen + 1, now)
            else Sweeping(b, k + 1, was, seen + 1, now)
  {
    hide Kept;
    var e, rest := was[seen], was[seen + 1..];
    assert was[..seen + 1] == was[..seen] + [e] && was[seen..] == [e] + rest;
    KeptOneMore(was[..seen], e, now);
    assert b[k] == e && b[..k] == Kept(was[..seen], now) && b[k + 1..] == rest;
  }

  lemma SweepEnd(b: seq<Entry>, was: seq<Entry>, seen: nat, now: nat)
    requires Sweeping(b, |b|, was, seen, now)
    ensures b == Kept(was, now)
  {
    assert was[..seen] == was;
  }

  lemma SweepShows(was: seq<seq<Entry>>, after: seq<seq<Entry>>, m: map<Signature, nat>, now: nat)
    requires Shows(was, m) && |after| == |was|
    requires forall k :: 0 <= k < |was| ==> after[k] == Kept(was[k], now)
    ensures Shows(after, AfterSweep(m, now))
  {
    forall i | 0 <= i < |after|
      ensures Bucket(after[i], i, |after|)
    {
      KeptBucket(was[i], now, i, |was|);
    }
  }
}
