/** The two linked structures of a signal: its listeners and its pending calls. */
module SignalLists {
  import opened Prelude
  import opened SignalProtocol

  // ---------------------------------------------------------------- listeners

  class Entry {
    const id: nat
    var flink: Entry?
    var blink: Entry?

    constructor (id: nat)
      ensures this.id == id && flink == null && blink == null
    {
      this.id := id;
      flink, blink := null, null;
    }
  }

  ghost function Ids(entries: seq<Entry>): (r: seq<nat>)
    ensures |r| == |entries| && forall i :: 0 <= i < |r| ==> r[i] == entries[i].id
  {
    seq(|entries|, i requires 0 <= i < |entries| => entries[i].id)
  }

  lemma {:induction false} RemoveIs(q: seq<nat>, k: nat)
    requires k < |q| && Distinct(q)
    ensures Remove(q, q[k]) == q[..k] + q[k + 1..]
  {
    if k > 0 {
      RemoveIs(q[1..], k - 1);
      assert q[0] != q[k] && q[1..][k - 1] == q[k];
      assert q[1..][k..] == q[k + 1..];
      assert q[..k] == [q[0]] + q[1..][..k - 1];
    }
  }

  /** Extending at the end, and taking one entry out, are what linking and unlinking ask for. */
  lemma LinkIds(q: seq<Entry>, e: Entry)
    requires Distinct(Ids(q)) && e.id !in Ids(q)
    ensures Ids(q + [e]) == Spliced(Ids(q), Splice(Link, e.id)) && Distinct(Ids(q + [e])) && e !in q
  {
    assert Ids(q + [e]) == Ids(q) + [e.id];
    forall i | 0 <= i < |q| ensures q[i] != e { assert Ids(q)[i] == q[i].id; }
  }

  lemma UnlinkIds(q: seq<Entry>, k: nat)
    requires Distinct(Ids(q)) && k < |q|
    ensures Ids(q[..k] + q[k + 1..]) == Spliced(Ids(q), Splice(Unlink, q[k].id)) && Distinct(Ids(q[..k] + q[k + 1..]))
  {
    RemoveIs(Ids(q), k);
    assert Ids(q[..k] + q[k + 1..]) == Ids(q)[..k] + Ids(q)[k + 1..];
  }

  lemma DistinctEntries(q: seq<Entry>)
    requires Distinct(Ids(q))
    ensures forall i, j :: 0 <= i < j < |q| ==> q[i] != q[j]
  {
    forall i, j | 0 <= i < j < |q| ensures q[i] != q[j] { assert Ids(q)[i] != Ids(q)[j]; }
  }

  /** The entry at a position; null beyond either end. */
  ghost function Nth(q: seq<Entry>, i: int): Entry? {
    if 0 <= i < |q| then q[i] else null
  }

  /** Forward and back pointers both represent the sequence `q`. */
  ghost predicate Linked(q: seq<Entry>)
    reads q
  {
    && (forall i {:trigger q[i].flink} :: 0 <= i < |q| ==> q[i].flink == Nth(q, i + 1))
    && (forall i {:trigger q[i].blink} :: 0 <= i < |q| ==> q[i].blink == Nth(q, i - 1))
  }

  class ListenerList {
    var first: Entry?
    var last: Entry?
    ghost var entries: seq<Entry>

    /** The pointers represent the sequence `entries`, and no two entries share an id. */
    ghost predicate Valid()
      reads this, entries
    {
      && Distinct(Ids(entries)) && Linked(entries)
      && first == Nth(entries, 0) && last == Nth(entries, |entries| - 1)
    }

    constructor ()
      ensures Valid() && entries == []
    {
      first, last, entries := null, null, [];
    }

    method LinkUnsafe(e: Entry)
      requires Valid() && e.flink == null && e.id !in Ids(entries)
      modifies this, e, entries
      ensures Valid() && entries == old(entries) + [e]
      ensures Ids(entries) == Spliced(old(Ids(entries)), Splice(Link, e.id))
    {
      hide Ids, Spliced, Distinct;
      LinkIds(entries, e);
      DistinctEntries(entries);
      e.blink := last;
      if last != null {
        last.flink := e;
      }
      if first == null {
        first := e;
      }
      last := e;
      entries := entries + [e];
    }

    /** Takes out the entry at position `k`; the others keep their order. */
    method UnlinkUnsafe(e: Entry, ghost k: nat)
      requires Valid() && k < |entries| && entries[k] == e
      modifies this, entries
      ensures Valid() && entries == old(entries)[..k] + old(entries)[k + 1..]
      ensures Ids(entries) == Spliced(old(Ids(entries)), Splice(Unlink, e.id))
    {
      hide Ids, Spliced, Distinct;
      UnlinkIds(entries, k);
      DistinctEntries(entries);
      ghost var q := entries;
      if first == e {
        first := first.flink;
        if first != null {
          first.blink := null;
        }
      }
      if last == e {
        last := last.blink;
        if last != null {
          last.flink := null;
        }
      }
      if e.flink != null {
        e.flink.blink := e.blink;
      }
      if e.blink != null {
        e.blink.flink := e.flink;
      }
      entries := q[..k] + q[k + 1..];
      Shortened(q, k);
    }

    /** Asserting the signal calls every listener once, in the order of linking. */
    method SignalUnsafe() returns (called: seq<Entry>)
      requires Valid()
      ensures called == entries
    {
      called := [];
      var cur := first;
      while cur != null
        invariant |called| <= |entries| && called == entries[..|called|] && cur == Nth(entries, |called|)
        decreases |entries| - |called|
      {
        called := called + [cur];
        cur := cur.flink;
      }
    }
  }

  /** Bypassing one entry in both directions leaves a list of the others. */
  lemma Shortened(q: seq<Entry>, k: nat)
    requires k < |q| && forall i, j :: 0 <= i < j < |q| ==> q[i] != q[j]
    requires forall i {:trigger q[i].flink} :: 0 <= i < |q| && i != k ==>
        q[i].flink == Nth(q, if i + 1 == k then k + 1 else i + 1)
    requires forall i {:trigger q[i].blink} :: 0 <= i < |q| && i != k ==>
        q[i].blink == Nth(q, if i - 1 == k then k - 1 else i - 1)
    ensures Linked(q[..k] + q[k + 1..])
  {
    var r := q[..k] + q[k + 1..];
    forall i | 0 <= i < |r| ensures r[i].flink == Nth(r, i + 1) && r[i].blink == Nth(r, i - 1) {
      var j := if i < k then i else i + 1;
      assert r[i] == q[j] && q[j].flink == q[j].flink && q[j].blink == q[j].blink;
    }
  }

  // ---------------------------------------------------------------- pending calls

  class Pended {
    const ticket: nat
    var flink: Pended?

    constructor (ticket: nat)
      ensures this.ticket == ticket && flink == null
    {
      this.ticket := ticket;
      flink := null;
    }
  }

  ghost function Tickets(q: seq<Pended>): (r: seq<nat>)
    ensures |r| == |q| && forall i :: 0 <= i < |r| ==> r[i] == q[i].ticket
  {
    seq(|q|, i requires 0 <= i < |q| => q[i].ticket)
  }

  /** Following the links from `head` visits exactly `q`. */
  ghost predicate Visits(head: Pended?, q: seq<Pended>)
    reads q
  {
    if q == [] then head == null else head == q[0] && q[0] !in q[1..] && Visits(q[0].flink, q[1..])
  }

  class AtomicList {
    var head: Pended?
    var chainId: nat
    ghost var list: seq<Pended>

    ghost predicate Valid()
      reads this, list
    {
      Visits(head, list)
    }

    constructor ()
      ensures Valid() && list == [] && chainId == 0
    {
      head, chainId, list := null, 0, [];
    }

    method PushEntry(e: Pended) returns (id: nat)
      requires Valid() && e !in list
      modifies this`head, this`list, e
      ensures Valid() && list == [e] + old(list) && id == chainId
    {
      e.flink := head;
      head := e;
      list := [e] + list;
      id := chainId;
    }

    /** Releases the list in the order of pushing, and starts a new chain. */
    method Release() returns (chain: Pended?, ghost released: seq<Pended>)
      requires Valid()
      modifies this, list
      ensures Valid() && list == [] && chainId == old(chainId) + 1
      ensures Visits(chain, released) && released == Reverse(old(list))
      ensures Tickets(released) == Reverse(old(Tickets(list)))
    {
      hide Tickets, Reverse;
      chain, released := null, [];
      ghost var rest := list;
      chainId := chainId + 1;
      var pHead := head;
      head := null;
      list := [];
      while pHead != null
        invariant |released| + |rest| == |old(list)| && rest == old(list)[|released|..]
        invariant released == Reverse(old(list)[..|released|])
        invariant Visits(pHead, rest) && Visits(chain, released) && forall e :: e in rest ==> e !in released
        invariant list == [] && head == null && chainId == old(chainId) + 1
        decreases |rest|
      {
        var pNext := pHead.flink;
        assert Visits(pNext, rest[1..]) && pHead !in rest[1..] && pHead in rest;
        pHead.flink := chain;
        chain := pHead;
        assert Visits(pNext, rest[1..]);
        assert ([pHead] + released)[1..] == released;
        ReverseNext(old(list), |released|);
        released, rest := [pHead] + released, rest[1..];
        pHead := pNext;
      }
      assert old(list)[..|released|] == old(list);
    }
  }

  lemma ReverseNext(q: seq<Pended>, n: nat)
    requires n < |q|
    ensures Reverse(q[..n + 1]) == [q[n]] + Reverse(q[..n])
  {}
}
