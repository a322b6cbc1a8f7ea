/** The passes of a pulse over the subscribers of the immediates: counters are decremented to find the filters
    that miss nothing else, and put back. */
module PacketPulse {
  import opened Prelude
  import opened FilterNetwork
  import opened Wiring
  import opened SatCounters
  import opened Dispositions

  /** How many of these subscriptions a filter can be pulsed through. Those that need a shared pointer cannot
      be served by an immediate decoration. */
  function Count(subs: seq<Subscriber>, f: FilterId): nat {
    if subs == [] then 0
    else Count(subs[..|subs| - 1], f) + (if subs[|subs| - 1].counter == f && !subs[|subs| - 1].isShared then 1 else 0)
  }

  /** The subscriptions in the order in which a pass visits them: the last immediate first. */
  function Visited(lists: seq<seq<Subscriber>>): seq<Subscriber> {
    if lists == [] then [] else Visited(lists[1..]) + lists[0]
  }

  function Occurrences(q: seq<FilterId>, f: FilterId): nat {
    if q == [] then 0 else Occurrences(q[..|q| - 1], f) + (if q[|q| - 1] == f then 1 else 0)
  }

  lemma CountNext(subs: seq<Subscriber>, x: Subscriber, f: FilterId)
    ensures Count(subs + [x], f) == Count(subs, f) + (if x.counter == f && !x.isShared then 1 else 0)
  {
    assert (subs + [x])[..|subs|] == subs;
  }

  lemma CountsNext(done: seq<Subscriber>, x: Subscriber)
    ensures forall f :: Count(done + [x], f) == Count(done, f) + (if x.counter == f && !x.isShared then 1 else 0)
  {
    forall f ensures Count(done + [x], f) == Count(done, f) + (if x.counter == f && !x.isShared then 1 else 0) {
      CountNext(done, x, f);
    }
  }

  lemma OccurrencesNext(q: seq<FilterId>, x: FilterId)
    ensures forall f :: Occurrences(q + [x], f) == Occurrences(q, f) + (if x == f then 1 else 0)
  {
    forall f ensures Occurrences(q + [x], f) == Occurrences(q, f) + (if x == f then 1 else 0) {
      assert (q + [x])[..|q|] == q;
    }
  }

  lemma OccurrencesNone()
    ensures forall f :: Occurrences([], f) == 0
  {}

  lemma {:induction false} CountConcat(a: seq<Subscriber>, b: seq<Subscriber>, f: FilterId)
    ensures Count(a + b, f) == Count(a, f) + Count(b, f)
  {
    if b == [] {
      assert a + b == a;
    } else {
      var n := |b| - 1;
      CountConcat(a, b[..n], f);
      assert a + b == (a + b[..n]) + [b[n]];
      CountNext(a + b[..n], b[n], f);
    }
  }

  lemma VisitedNext(lists: seq<seq<Subscriber>>, i: nat)
    requires i < |lists|
    ensures Visited(lists[i..]) == Visited(lists[i + 1..]) + lists[i]
    ensures Visited(lists[i + 1..]) + lists[i][..0] == Visited(lists[i + 1..])
  {
    assert lists[i..][1..] == lists[i + 1..];
  }

  lemma {:induction false} VisitedLe(lists: seq<seq<Subscriber>>, i: nat, f: FilterId)
    requires i <= |lists|
    ensures Count(Visited(lists[i..]), f) <= Count(Visited(lists), f)
  {
    hide Count;
    if i == 0 {
      assert lists[0..] == lists;
    } else {
      VisitedLe(lists, i - 1, f);
      VisitedNext(lists, i - 1);
      CountConcat(Visited(lists[i..]), lists[i - 1], f);
    }
  }

  lemma VisitedCount(lists: seq<seq<Subscriber>>, i: nat, j: nat)
    requires i < |lists| && j < |lists[i]|
    ensures var x := lists[i][j];
            Count(Visited(lists[i + 1..]) + lists[i][..j] + [x], x.counter) <= Count(Visited(lists), x.counter)
    ensures lists[i][j] in Visited(lists)
  {
    hide Count;
    var x, done := lists[i][j], Visited(lists[i + 1..]);
    VisitedLe(lists, i, x.counter);
    VisitedNext(lists, i);
    CountConcat(done + lists[i][..j] + [x], lists[i][j + 1..], x.counter);
    assert done + lists[i][..j] + [x] + lists[i][j + 1..] == done + lists[i];
    VisitedHas(lists, i, j);
  }

  lemma {:induction false} VisitedHas(lists: seq<seq<Subscriber>>, i: nat, j: nat)
    requires i < |lists| && j < |lists[i]|
    ensures lists[i][j] in Visited(lists)
  {
    if i > 0 { VisitedHas(lists[1..], i - 1, j); }
  }

  // ---------------------------------------------------------------- the passes

  /** The counters are distinct objects, and a filter that still misses inputs misses at least those through which
      it can be pulsed. */
  ghost predicate Frame(counters: seq<SatCounter>, base: seq<nat>, lists: seq<seq<Subscriber>>) {
    && |base| == |counters|
    && (forall f, g :: 0 <= f < g < |counters| ==> counters[f] != counters[g])
    && (forall x :: x in Visited(lists) ==> 0 <= x.counter < |counters|)
    && forall f :: 0 <= f < |base| ==> base[f] == 0 || base[f] >= Count(Visited(lists), f)
  }

  /** All inputs that the filter misses are served by the immediates. */
  ghost predicate Target(counters: seq<SatCounter>, base: seq<nat>, lists: seq<seq<Subscriber>>, f: FilterId) {
    0 <= f < |counters| == |base| && !counters[f].filter.deferred && 0 < base[f] == Count(Visited(lists), f)
  }

  /** A counter after `n` of the subscriptions through which it is pulsed: its filter is in the call queue once
      they were all it missed, and is due to be incremented for every other decrement. */
  ghost predicate PulsedOk(counter: SatCounter, base: nat, n: nat, queued: bool, due: nat)
    reads counter
  {
    var live := !counter.filter.deferred && base > 0;
    && counter.remaining == (if live then base - n else base)
    && (queued <==> live && base == n)
    && due == if live then n - (if queued then 1 else 0) else 0
  }

  ghost predicate Pulsing(
    counters: seq<SatCounter>, base: seq<nat>, done: seq<Subscriber>, callQueue: seq<FilterId>,
      reincrement: seq<FilterId>)
    reads counters
  {
    && |base| == |counters| && Distinct(callQueue)
    && (forall f :: f in callQueue ==> 0 <= f < |counters|)
    && (forall i :: 0 <= i < |reincrement| ==> 0 <= reincrement[i] < |counters|)
    && forall f :: 0 <= f < |counters| ==>
         PulsedOk(counters[f], base[f], Count(done, f), f in callQueue, Occurrences(reincrement, f))
  }

  lemma FrameFacts(counters: seq<SatCounter>, base: seq<nat>, lists: seq<seq<Subscriber>>, x: Subscriber)
    requires Frame(counters, base, lists) && x in Visited(lists)
    ensures 0 <= x.counter < |counters| == |base|
    ensures base[x.counter] == 0 || base[x.counter] >= Count(Visited(lists), x.counter)
    ensures forall g :: 0 <= g < |counters| && g != x.counter ==> counters[g] != counters[x.counter]
  {}

  /** One subscription of the first pass. */
  method Visit(counters: seq<SatCounter>, cur: Subscriber, callQueue: seq<FilterId>, reincrement: seq<FilterId>,
               ghost base: seq<nat>, ghost lists: seq<seq<Subscriber>>, ghost done: seq<Subscriber>)
    returns (callQueue': seq<FilterId>, reincrement': seq<FilterId>)
    requires Frame(counters, base, lists) && Pulsing(counters, base, done, callQueue, reincrement)
    requires cur in Visited(lists) && Count(done + [cur], cur.counter) <= Count(Visited(lists), cur.counter)
    modifies counters
    ensures Pulsing(counters, base, done + [cur], callQueue', reincrement')
  {
    hide Count, Occurrences, Frame, Visited;
    callQueue', reincrement' := callQueue, reincrement;
    var f := cur.counter;
    FrameFacts(counters, base, lists, cur);
    CountsNext(done, cur);
    assert PulsedOk(counters[f], base[f], Count(done, f), f in callQueue, Occurrences(reincrement, f));
    if !cur.isShared && !counters[f].filter.deferred && counters[f].remaining > 0 {
      OccurrencesNext(reincrement, f);
      var satisfied := counters[f].Decrement();
      if satisfied {
        callQueue' := callQueue + [f];
      } else {
        reincrement' := reincrement + [f];
      }
    }
    assert PulsedOk(counters[f], base[f], Count(done + [cur], f), f in callQueue', Occurrences(reincrement', f));
    forall g | 0 <= g < |counters| && g != f
      ensures PulsedOk(counters[g], base[g], Count(done + [cur], g), g in callQueue', Occurrences(reincrement', g))
    {
      assert old(PulsedOk(counters[g], base[g], Count(done, g), g in callQueue, Occurrences(reincrement, g)));
    }
  }

  /** The first pass: decrements what it can. */
  method DecrementAll(counters: seq<SatCounter>, types: seq<DecorationDisposition>,
                      ghost base: seq<nat>, ghost lists: seq<seq<Subscriber>>)
    returns (callQueue: seq<FilterId>, reincrement: seq<FilterId>)
    requires |types| == |lists| && forall i :: 0 <= i < |types| ==> types[i].subscribers == lists[i]
    requires Frame(counters, base, lists) && forall f :: 0 <= f < |counters| ==> counters[f].remaining == base[f]
    modifies counters
    ensures Pulsing(counters, base, Visited(lists), callQueue, reincrement)
  {
    hide Count, Occurrences, Visited, PulsedOk, Frame;
    callQueue, reincrement := [], [];
    NothingPulsed(counters, lists, base);
    var i := |types|;
    while i > 0
      invariant 0 <= i <= |types| && Pulsing(counters, base, Visited(lists[i..]), callQueue, reincrement)
    {
      i := i - 1;
      VisitedNext(lists, i);
      var subs := types[i].subscribers;
      var j := 0;
      while j < |subs|
        invariant 0 <= j <= |lists[i]|
        invariant Pulsing(counters, base, Visited(lists[i + 1..]) + lists[i][..j], callQueue, reincrement)
      {
        ghost var done := Visited(lists[i + 1..]) + lists[i][..j];
        VisitedCount(lists, i, j);
        FrameFacts(counters, base, lists, lists[i][j]);
        callQueue, reincrement := Visit(counters, subs[j], callQueue, reincrement, base, lists, done);
        assert done + [lists[i][j]] == Visited(lists[i + 1..]) + lists[i][..j + 1];
        j := j + 1;
      }
      assert lists[i][..j] == lists[i];
    }
    assert lists[0..] == lists;
  }

  lemma NothingPulsed(counters: seq<SatCounter>, lists: seq<seq<Subscriber>>, base: seq<nat>)
    requires Frame(counters, base, lists) && forall f :: 0 <= f < |counters| ==> counters[f].remaining == base[f]
    ensures Pulsing(counters, base, [], [], []) && lists[|lists|..] == [] && Visited([]) == []
  {}

  /** Restores the counters that did not reach zero. A filter in the queue may be among them: it then waits with
      one input less than before, until it has been called. Every other counter is what it was. */
  method Reincrement(counters: seq<SatCounter>, reincrement: seq<FilterId>, ghost callQueue: seq<FilterId>,
                     ghost base: seq<nat>, ghost lists: seq<seq<Subscriber>>)
    requires Frame(counters, base, lists) && Pulsing(counters, base, Visited(lists), callQueue, reincrement)
    modifies counters
    ensures forall f :: 0 <= f < |counters| ==>
              counters[f].remaining == if f in callQueue then base[f] - 1 else base[f]
    ensures forall f :: f in callQueue <==> Target(counters, base, lists, f)
  {
    hide Count, Occurrences, Visited;
    var subs := Visited(lists);
    forall f | 0 <= f < |counters|
      ensures PulsedOk(counters[f], base[f], Count(subs, f), f in callQueue, Occurrences(reincrement, f))
    {}
    OccurrencesNone();
    ghost var start := seq(|counters|, f requires 0 <= f < |counters| reads counters => counters[f].remaining);
    var k := 0;
    while k < |reincrement|
      invariant 0 <= k <= |reincrement|
      invariant forall f :: 0 <= f < |counters| ==> counters[f].remaining == start[f] + Occurrences(reincrement[..k], f)
    {
      var f := reincrement[k];
      OccurrencesNext(reincrement[..k], f);
      assert reincrement[..k + 1] == reincrement[..k] + [f];
      assert forall g :: 0 <= g < |counters| && g != f ==> counters[g] != counters[f];
      counters[f].Increment();
      k := k + 1;
    }
    assert reincrement[..k] == reincrement;
  }
}
