/** Header lines of ltm/hytext.c: the list that a request keeps, and how it is edited. */
module HttpHeaders {
  datatype Header = Header(key: string, val: string)

  // The value under a key, if there is one.
  function Lookup(lines: seq<Header>, key: string): (v: seq<string>) {
    if lines == [] then [] else if lines[0].key == key then [lines[0].val] else Lookup(lines[1..], key)
  }

  predicate DistinctKeys(lines: seq<Header>) { forall i, j :: 0 <= i < j < |lines| ==> lines[i].key != lines[j].key }

  lemma {:induction false} LookupAt(lines: seq<Header>, key: string, i: nat)
    requires i <= |lines| && (forall j :: 0 <= j < i ==> lines[j].key != key) && (i < |lines| ==> lines[i].key == key)
    ensures Lookup(lines, key) == if i < |lines| then [lines[i].val] else []
  {
    if i > 0 {
      LookupAt(lines[1..], key, i - 1);
    }
  }

  lemma {:induction false} LookupJoin(a: seq<Header>, b: seq<Header>, key: string)
    ensures Lookup(a + b, key) == if Lookup(a, key) != [] then Lookup(a, key) else Lookup(b, key)
  {
    if a == [] {
      assert a + b == b;
    } else {
      assert (a + b)[1..] == a[1..] + b;
      LookupJoin(a[1..], b, key);
    }
  }

  class Request {
    var lines: seq<Header>
    var nline: nat

    constructor ()
      ensures Valid() && lines == []
    {
      lines, nline := [], 0;
    }

    ghost predicate Valid()
      reads this
    {
      nline == |lines| && DistinctKeys(lines)
    }

    // The line with the key, or the number of lines.
    method Find(key: string) returns (i: nat)
      ensures i <= |lines| && (i < |lines| ==> lines[i].key == key)
      ensures forall j :: 0 <= j < i ==> lines[j].key != key
    {
      i := 0;
      while i < |lines|
        invariant i <= |lines| && forall j :: 0 <= j < i ==> lines[j].key != key
      {
        if lines[i].key == key {
          return;
        }
        i := i + 1;
      }
    }

    // A known key gets the new value where it stands, an unknown one goes to the end.
    method Want(key: string, val: string, memory: bool) returns (ok: bool)
      requires Valid()
      modifies this
      ensures Valid()
      ensures ok == (memory || Lookup(old(lines), key) != [])
      ensures !ok ==> lines == old(lines)
      ensures ok ==> Lookup(lines, key) == [val]
      ensures forall k :: k != key ==> Lookup(lines, k) == Lookup(old(lines), k)
      ensures ok && Lookup(old(lines), key) == [] ==> lines == old(lines) + [Header(key, val)]
      ensures ok && Lookup(old(lines), key) != [] ==>
                |lines| == old(|lines|) && forall i :: 0 <= i < |lines| ==> lines[i].key == old(lines[i].key)
    {
      var i := Find(key);
      LookupAt(lines, key, i);
      if i < |lines| {
        SetLine(lines, i, val);
        lines := lines[i := lines[i].(val := val)];
        return true;
      }
      if !memory {
        return false;
      }
      AddLine(lines, Header(key, val));
      lines := lines + [Header(key, val)];
      nline := nline + 1;
      return true;
    }

    // The line of a key goes; the others keep their order.
    method Unwant(key: string)
      requires Valid()
      modifies this
      ensures Valid()
      ensures Lookup(lines, key) == [] && forall k :: k != key ==> Lookup(lines, k) == Lookup(old(lines), k)
      ensures lines == Without(old(lines), key)
    {
      var i := Find(key);
      WithoutAt(lines, key, i);
      if i == |lines| {
        LookupAt(lines, key, i);
        return;
      }
      CutLine(lines, i);
      lines := lines[..i] + lines[i + 1..];
      nline := nline - 1;
    }
  }

  function Without(lines: seq<Header>, key: string): seq<Header> {
    if lines == [] then [] else (if lines[0].key == key then [] else [lines[0]]) + Without(lines[1..], key)
  }

  lemma {:induction false} WithoutAt(lines: seq<Header>, key: string, i: nat)
    requires DistinctKeys(lines)
    requires i <= |lines| && (forall j :: 0 <= j < i ==> lines[j].key != key) && (i < |lines| ==> lines[i].key == key)
    ensures Without(lines, key) == if i < |lines| then lines[..i] + lines[i + 1..] else lines
  {
    if lines != [] {
      if i == 0 {
        assert forall j :: 0 <= j < |lines[1..]| ==> lines[1..][j] == lines[j + 1];
        WithoutAt(lines[1..], key, |lines[1..]|);
      } else {
        WithoutAt(lines[1..], key, i - 1);
        if i < |lines| {
          assert lines[..i] + lines[i + 1..] == [lines[0]] + (lines[1..][..i - 1] + lines[1..][i..]);
        }
      }
    }
  }

  lemma SetLine(lines: seq<Header>, i: nat, val: string)
    requires i < |lines| && DistinctKeys(lines)
    ensures var r := lines[i := lines[i].(val := val)];
            && DistinctKeys(r) && Lookup(r, lines[i].key) == [val]
            && forall k :: k != lines[i].key ==> Lookup(r, k) == Lookup(lines, k)
  {
    var r, h := lines[i := lines[i].(val := val)], lines[i];
    LookupAt(r, h.key, i);
    forall k | k != h.key
      ensures Lookup(r, k) == Lookup(lines, k)
    {
      assert r == lines[..i] + ([h.(val := val)] + lines[i + 1..]) && lines == lines[..i] + ([h] + lines[i + 1..]);
      LookupJoin(lines[..i], [h.(val := val)] + lines[i + 1..], k);
      LookupJoin(lines[..i], [h] + lines[i + 1..], k);
      LookupJoin([h.(val := val)], lines[i + 1..], k);
      LookupJoin([h], lines[i + 1..], k);
    }
  }

  lemma AddLine(lines: seq<Header>, h: Header)
    requires DistinctKeys(lines) && forall j :: 0 <= j < |lines| ==> lines[j].key != h.key
    ensures DistinctKeys(lines + [h]) && Lookup(lines + [h], h.key) == [h.val]
    ensures forall k :: k != h.key ==> Lookup(lines + [h], k) == Lookup(lines, k)
  {
    LookupAt(lines + [h], h.key, |lines|);
    forall k | k != h.key
      ensures Lookup(lines + [h], k) == Lookup(lines, k)
    {
      LookupJoin(lines, [h], k);
    }
  }

  lemma CutLine(lines: seq<Header>, i: nat)
    requires i < |lines| && DistinctKeys(lines)
    ensures var r := lines[..i] + lines[i + 1..];
            && DistinctKeys(r) && Lookup(r, lines[i].key) == []
            && forall k :: k != lines[i].key ==> Lookup(r, k) == Lookup(lines, k)
  {
    var r, h := lines[..i] + lines[i + 1..], lines[i];
    assert forall j :: 0 <= j < |r| ==> r[j] == lines[if j < i then j else j + 1];
    LookupAt(r, h.key, |r|);
    forall k | k != h.key
      ensures Lookup(r, k) == Lookup(lines, k)
    {
      assert lines == lines[..i] + ([h] + lines[i + 1..]);
      LookupJoin(lines[..i], lines[i + 1..], k);
      LookupJoin(lines[..i], [h] + lines[i + 1..], k);
      LookupJoin([h], lines[i + 1..], k);
    }
  }
}
