/** The dispatch queue: a linked list of ready thunks, a queue of delayed ones, and a count that includes the
    thunks being executed. Every method is what one thread does while it holds the lock. */
module DispatchQueues {
  import opened Prelude

  class Thunk {
    var flink: Thunk?

    constructor ()
      ensures flink == null
    {
      flink := null;
    }
  }

  datatype Delayed = Delayed(readyAt: int, thunk: Thunk)

  ghost function Thunks(d: seq<Delayed>): seq<Thunk> {
    seq(|d|, i requires 0 <= i < |d| => d[i].thunk)
  }

  lemma ThunksConcat(a: seq<Delayed>, b: seq<Delayed>)
    ensures Thunks(a + b) == Thunks(a) + Thunks(b)
  {}

  /** The top of the delayed queue is the one that is ready first. */
  ghost predicate InTime(d: seq<Delayed>) {
    forall i, j :: 0 <= i < j < |d| ==> d[i].readyAt <= d[j].readyAt
  }

  /** The time of the first `n`, and of no other, has come. */
  ghost predicate IsDue(d: seq<Delayed>, n: nat, now: int) {
    && n <= |d|
    && (forall i :: 0 <= i < n ==> d[i].readyAt < now)
    && (forall i :: n <= i < |d| ==> d[i].readyAt >= now)
  }

  lemma DueFirst(d: seq<Delayed>, n: nat, now: int)
    requires InTime(d) && n <= |d| && (forall i :: 0 <= i < n ==> d[i].readyAt < now)
    requires n < |d| ==> d[n].readyAt >= now
    ensures IsDue(d, n, now)
    ensures n == 0 <==> d == [] || d[0].readyAt >= now
  {}

  /** Following the links from `head` visits `q` and ends there. */
  ghost predicate Linked(head: Thunk?, q: seq<Thunk>)
    reads q
  {
    && head == (if q == [] then null else q[0])
    && forall i {:trigger q[i].flink} :: 0 <= i < |q| ==> q[i].flink == if i + 1 < |q| then q[i + 1] else null
  }

  /** The history of the thunks a queue accepted. */
  datatype History = History(
    accepted: seq<Thunk>,   // all of them
    entered: seq<Thunk>,    // those that were ready, in the order they became so
    taken: seq<Thunk>,      // those that left the ready list, in the order they left it
    executing: multiset<Thunk>,
    run: seq<Thunk>,
    clearing: multiset<Thunk>,   // taken by Abort, and still counted
    discarded: multiset<Thunk>,
    cleared: nat)                // how many had entered when the queue was last aborted

  const NO_HISTORY := History([], [], [], multiset{}, [], multiset{}, multiset{}, 0)

  /** What the tail names: the thunk that became ready last, even if it has left the list, unless the queue was
      aborted since. */
  ghost function LastEntered(h: History): Thunk? {
    if |h.entered| > h.cleared then h.entered[|h.entered| - 1] else null
  }

  /** Since `t` became ready the queue was not aborted and no other thunk became ready. */
  ghost predicate NothingSince(h: History, t: Thunk) {
    |h.entered| > h.cleared && h.entered[|h.entered| - 1] == t
  }

  /** Every accepted thunk is in exactly one place. */
  ghost predicate Conserved(h: History, ready: seq<Thunk>, delayed: seq<Delayed>) {
    && Distinct(h.accepted)
    && multiset(h.accepted) ==
         multiset(ready) + multiset(Thunks(delayed)) + h.executing + multiset(h.run) + h.clearing + h.discarded
  }

  class DispatchQueue {
    var head: Thunk?
    var tail: Thunk?
    var count: int
    var cap: nat
    var aborted: bool
    var delayed: seq<Delayed>
    ghost var ready: seq<Thunk>
    ghost var history: History

    ghost predicate ListOk()
      reads this, ready
    {
      && Linked(head, ready) && Distinct(ready)
      && (ready != [] ==> tail == ready[|ready| - 1])
    }

    ghost predicate DelayedOk()
      reads this, set i | 0 <= i < |delayed| :: delayed[i].thunk
    {
      && InTime(delayed)
      && (forall i, j :: 0 <= i < j < |delayed| ==> delayed[i].thunk != delayed[j].thunk)
      && forall i :: 0 <= i < |delayed| ==> delayed[i].thunk.flink == null && delayed[i].thunk !in ready
    }

    /** The list is first in, first out; the count is right; no thunk is lost or duplicated. */
    ghost predicate Valid()
      reads this, ready, set i | 0 <= i < |delayed| :: delayed[i].thunk
    {
      && ListOk() && DelayedOk()
      && history.entered == history.taken + ready
      && history.cleared <= |history.entered| && tail == LastEntered(history)
      && count == |ready| + |history.executing| + |history.clearing|
      && Conserved(history, ready, delayed)
    }

    constructor (cap: nat)
      ensures Valid() && !aborted && this.cap == cap && ready == [] && delayed == [] && count == 0
      ensures history == NO_HISTORY
    {
      head, tail, count, this.cap, aborted, delayed := null, null, 0, cap, false, [];
      ready, history := [], NO_HISTORY;
    }

    lemma HeadIs()
      requires ListOk()
      ensures head == null <==> ready == []
      ensures ready != [] ==> head == ready[0]
    {}

    /** Puts a thunk at the end of the ready list. */
    method Append(t: Thunk)
      requires ListOk() && t !in ready && t.flink == null
      modifies `head, `tail, `ready, ready
      ensures ListOk() && ready == old(ready) + [t] && t.flink == null
      ensures tail == t && (head == old(head) || old(ready) == [])
    {
      if head != null {
        tail.flink := t;
      } else {
        head := t;
      }
      tail := t;
      ready := ready + [t];
    }

    /** Takes the thunk at the front of the ready list. The tail is left alone, even when it is the one taken. */
    method TakeFirst() returns (t: Thunk)
      requires ListOk() && head != null
      modifies `head, `ready
      ensures ListOk() && ready == old(ready)[1..] && t == old(ready)[0]
    {
      t := head;
      head := t.flink;
      ready := ready[1..];
    }

    /** Pends a thunk unless the queue is full. */
    method Pend(t: Thunk) returns (ok: bool)
      requires Valid() && t.flink == null && t !in history.accepted
      modifies this, ready
      ensures Valid() && cap == old(cap) && aborted == old(aborted) && delayed == old(delayed)
      ensures ok <==> old(count) < cap
      ensures ok ==> ready == old(ready) + [t] && count == old(count) + 1
      ensures ok ==> history == Entered(old(history).(accepted := old(history.accepted) + [t]), [t])
      ensures !ok ==> ready == old(ready) && count == old(count) && history == old(history)
    {
      if count >= cap {
        return false;
      }
      PendExisting(t);
      return true;
    }

    /** Pends a thunk without any check. */
    method PendExisting(t: Thunk)
      requires Valid() && t.flink == null && t !in history.accepted
      modifies this, ready
      ensures Valid() && cap == old(cap) && aborted == old(aborted) && delayed == old(delayed)
      ensures ready == old(ready) + [t] && count == old(count) + 1
      ensures history == Entered(old(history).(accepted := old(history.accepted) + [t]), [t])
    {
      hide Linked, Conserved, InTime, LastEntered;
      AcceptReady(history, ready, delayed, t);
      EnteredLast(history.(accepted := history.accepted + [t]), t);
      count := count + 1;
      Append(t);
      history := Entered(history.(accepted := history.accepted + [t]), [t]);
    }

    /** Pends a thunk that must not run before a point in time, however full the queue is. Which of several
        thunks for the same time comes first is not determined. */
    method PendDelayed(readyAt: int, t: Thunk)
      requires Valid() && t.flink == null && t !in history.accepted
      modifies this
      ensures Valid() && cap == old(cap) && aborted == old(aborted) && ready == old(ready) && count == old(count)
      ensures exists p :: 0 <= p <= |old(delayed)| &&
                delayed == old(delayed)[..p] + [Delayed(readyAt, t)] + old(delayed)[p..]
      ensures history == old(history).(accepted := old(history.accepted) + [t])
    {
      hide Linked, Conserved, InTime;
      var p := 0;
      var after: bool := *;
      while p < |delayed| && (delayed[p].readyAt < readyAt || (delayed[p].readyAt == readyAt && after))
        invariant 0 <= p <= |delayed| && forall i :: 0 <= i < p ==> delayed[i].readyAt <= readyAt
      {
        p := p + 1;
        after := *;
      }
      AcceptDelayed(history, ready, delayed, p, Delayed(readyAt, t));
      InsertInTime(delayed, p, Delayed(readyAt, t));
      delayed := delayed[..p] + [Delayed(readyAt, t)] + delayed[p..];
      history := history.(accepted := history.accepted + [t]);
    }

    /** Moves the top of the delayed queue to the end of the ready list. */
    method PromoteFirst()
      requires Valid() && delayed != []
      modifies this, ready
      ensures Valid() && cap == old(cap) && aborted == old(aborted) && delayed == old(delayed)[1..]
      ensures ready == old(ready) + [old(delayed)[0].thunk] && count == old(count) + 1
      ensures history == Entered(old(history), [old(delayed)[0].thunk])
    {
      hide Linked, Conserved, Thunks, LastEntered;
      PromoteOne(history, ready, delayed);
      EnteredLast(history, delayed[0].thunk);
      Append(delayed[0].thunk);
      history := Entered(history, [delayed[0].thunk]);
      delayed := delayed[1..];
      count := count + 1;
    }

    /** Moves every delayed thunk whose time has come to the end of the ready list, the earliest first. */
    method Promote(now: int) returns (any: bool)
      requires Valid()
      modifies this, ready, Thunks(delayed)
      ensures Valid() && cap == old(cap) && aborted == old(aborted)
      ensures any <==> |delayed| < |old(delayed)|
      ensures |delayed| <= |old(delayed)|
      ensures var n := |old(delayed)| - |delayed|;
        && delayed == old(delayed)[n..]
        && (forall i :: 0 <= i < n ==> old(delayed)[i].readyAt < now)
        && (delayed != [] ==> delayed[0].readyAt >= now)
        && ready == old(ready) + Thunks(old(delayed)[..n])
        && history == Entered(old(history), Thunks(old(delayed)[..n]))
        && count == old(count) + n
    {
      hide ListOk, DelayedOk, Conserved, Thunks;
      var nInitial := |delayed|;
      ghost var all, r0, h0, n := delayed, ready, history, 0;
      NonePromoted(all, r0, h0);
      while delayed != [] && delayed[0].readyAt < now
        invariant Valid() && cap == old(cap) && aborted == old(aborted)
        invariant 0 <= n <= |all| && delayed == all[n..]
        invariant forall i :: 0 <= i < n ==> all[i].readyAt < now
        invariant ready == r0 + Thunks(all[..n]) && history == Entered(h0, Thunks(all[..n])) && count == old(count) + n
        decreases |delayed|
      {
        OnePromoted(all, n, r0, h0);
        n := n + 1;
        assert forall i :: 0 <= i < |ready| ==> ready[i] in old(ready) || ready[i] in Thunks(old(delayed));
        PromoteFirst();
      }
      any := nInitial != |delayed|;
    }

    /** DispatchEvent up to the point where the lock is released: takes the first ready thunk and is about to run it.
        Only when none is ready, every thunk whose time has come becomes ready, and the earliest is taken. */
    method DispatchBegin(now: int) returns (t: Thunk?)
      requires Valid()
      modifies this, ready, Thunks(delayed)
      ensures Valid() && cap == old(cap) && aborted == old(aborted)
      ensures t == null <==> old(ready) == [] && (old(delayed) == [] || old(delayed)[0].readyAt >= now)
      ensures t == null ==>
          ready == old(ready) && delayed == old(delayed) && count == old(count) && history == old(history)
      ensures t != null ==>
        && t == (old(ready) + Thunks(old(delayed)))[0] && t in history.executing
        && history.taken == old(history.taken) + [t]
        && history.executing == old(history.executing) + multiset{t}
        && history.run == old(history.run) && history.accepted == old(history.accepted)
      ensures old(ready) != [] ==> ready == old(ready)[1..] && delayed == old(delayed) && count == old(count)
      ensures old(ready) == [] && t != null ==>
        exists n: nat :: IsDue(old(delayed), n, now) && n > 0
          && delayed == old(delayed)[n..] && [t] + ready == Thunks(old(delayed)[..n]) && count == old(count) + n
    {
      hide Valid, Thunks, IsDue;
      EmptyIs();
      FrontThunk(ready, delayed);
      if head == null {
        t := BeginDelayed(now);
      } else {
        t := StartFirst();
      }
    }

    lemma EmptyIs()
      requires Valid()
      ensures head == null <==> ready == []
    {
      hide Linked, InTime, Conserved, DelayedOk;
      HeadIs();
    }

    /** DispatchEvent when no thunk is ready. */
    method BeginDelayed(now: int) returns (t: Thunk?)
      requires Valid() && ready == []
      modifies this, ready, Thunks(delayed)
      ensures Valid() && cap == old(cap) && aborted == old(aborted)
      ensures t == null <==> old(delayed) == [] || old(delayed)[0].readyAt >= now
      ensures t == null ==>
          ready == old(ready) && delayed == old(delayed) && count == old(count) && history == old(history)
      ensures t != null ==>
        && t == Thunks(old(delayed))[0] && t in history.executing
        && history.taken == old(history.taken) + [t]
        && history.executing == old(history.executing) + multiset{t}
        && history.run == old(history.run) && history.accepted == old(history.accepted)
      ensures t != null ==>
        exists n: nat :: IsDue(old(delayed), n, now) && n > 0
          && delayed == old(delayed)[n..] && [t] + ready == Thunks(old(delayed)[..n]) && count == old(count) + n
    {
      hide Valid, Thunks, IsDue;
      ghost var all, h := delayed, history;
      FrontThunk(ready, delayed);
      InTimeNow();
      var any := Promote(now);
      ghost var n: nat := |all| - |delayed|;
      NonePromoted(all, [], h);
      DueFirst(all, n, now);
      if !any {
        return null;
      }
      PromotedFront(all, n);
      EmptyIs();
      ghost var promoted := ready;
      assert promoted == Thunks(all[..n]);
      t := StartFirst();
      assert [t] + ready == promoted;
    }

    lemma InTimeNow()
      requires Valid()
      ensures InTime(delayed)
    {
      hide Linked, InTime, Conserved;
    }

    /** Takes the thunk at the front in order to run it. */
    method StartFirst() returns (t: Thunk)
      requires Valid() && head != null
      modifies this
      ensures Valid() && cap == old(cap) && aborted == old(aborted) && delayed == old(delayed) && count == old(count)
      ensures ready == old(ready)[1..] && t == old(ready)[0]
      ensures history == Took(old(history), [t]).(executing := old(history.executing) + multiset{t})
    {
      hide Linked, Conserved, InTime;
      HeadIs();
      StartOne(history, ready, delayed);
      t := TakeFirst();
      history := Took(history, [t]).(executing := history.executing + multiset{t});
    }

    /** The end of running a thunk. The count is zero exactly when nothing is ready or under way. */
    method DispatchEnd(t: Thunk) returns (empty: bool)
      requires Valid() && t in history.executing
      modifies this
      ensures Valid() && cap == old(cap) && aborted == old(aborted) && delayed == old(delayed) && ready == old(ready)
      ensures count == old(count) - 1 && (empty <==> count == 0)
      ensures empty <==> ready == [] && history.executing == multiset{} && history.clearing == multiset{}
      ensures history == old(history).(executing := old(history.executing) - multiset{t}, run := old(history.run) + [t])
    {
      hide Linked, InTime, Conserved;
      EndOne(history, ready, delayed, t);
      history := history.(executing := history.executing - multiset{t}, run := history.run + [t]);
      count := count - 1;
      empty := count == 0;
    }

    /** Discards the first ready thunk, or else the first delayed one. */
    method Cancel() returns (any: bool)
      requires Valid()
      modifies this
      ensures Valid() && cap == old(cap) && aborted == old(aborted)
      ensures any <==> old(ready) != [] || old(delayed) != []
      ensures !any ==> history == old(history) && ready == old(ready) && delayed == old(delayed) && count == old(count)
      ensures old(ready) != [] ==>
        && ready == old(ready)[1..] && delayed == old(delayed) && count == old(count) - 1
        && history ==
            Took(old(history), [old(ready)[0]]).(discarded := old(history.discarded) + multiset{old(ready)[0]})
      ensures old(ready) == [] && old(delayed) != [] ==>
        && ready == [] && delayed == old(delayed)[1..] && count == old(count)
        && history == old(history).(discarded := old(history.discarded) + multiset{old(delayed)[0].thunk})
    {
      hide Valid;
      EmptyIs();
      if head != null {
        DropReady();
        return true;
      } else if delayed != [] {
        DropDelayed();
        return true;
      } else {
        return false;
      }
    }

    method DropReady()
      requires Valid() && head != null && ready != []
      modifies this
      ensures Valid() && cap == old(cap) && aborted == old(aborted)
      ensures ready == old(ready)[1..] && delayed == old(delayed) && count == old(count) - 1
      ensures history ==
              Took(old(history), [old(ready)[0]]).(discarded := old(history.discarded) + multiset{old(ready)[0]})
    {
      hide Linked, Conserved, InTime;
      CancelReady(history, ready, delayed);
      var t := TakeFirst();
      history := Took(history, [t]).(discarded := history.discarded + multiset{t});
      count := count - 1;
    }

    method DropDelayed()
      requires Valid() && delayed != []
      modifies this`history, this`delayed
      ensures Valid() && delayed == old(delayed)[1..]
      ensures history == old(history).(discarded := old(history.discarded) + multiset{old(delayed)[0].thunk})
    {
      hide Linked, Conserved, InTime;
      TimeOrder(delayed);
      CancelDelayed(history, ready, delayed);
      history := history.(discarded := history.discarded + multiset{delayed[0].thunk});
      delayed := delayed[1..];
    }

    /** Abort, under the lock: nothing more is accepted, and everything that waits is taken away. */
    method ClearBegin() returns (chain: Thunk?, ghost q: seq<Thunk>)
      requires Valid()
      modifies this
      ensures Valid() && aborted && cap == 0 && ready == [] && delayed == [] && count == old(count) && tail == null
      ensures q == old(ready) && Linked(chain, q)
      ensures history == Cleared(old(history), q, old(delayed))
    {
      hide Linked, Conserved, Cleared, LastEntered, Thunks, ListOk, DelayedOk;
      assert Linked(head, ready) by { ListFacts(); }
      ClearAll(history, ready, delayed);
      chain, q := head, ready;
      aborted, cap, head, tail, ready, delayed, history :=
        true, 0, null, null, [], [], Cleared(history, ready, delayed);
      Emptied();
    }

    lemma ListFacts()
      requires ListOk()
      ensures Linked(head, ready)
    {
      hide Linked;
    }

    lemma Emptied()
      requires head == null && ready == [] && delayed == []
      ensures ListOk() && DelayedOk()
    {}

    /** Abort, after the lock: destroys what was taken away and counts it. Thunks that are running stay
        counted, so this may be the work of one of them. */
    method ClearEnd(chain: Thunk?, ghost q: seq<Thunk>)
      requires Valid() && Linked(chain, q) && multiset(q) <= history.clearing
      modifies this
      ensures Valid() && cap == old(cap) && aborted == old(aborted) && ready == old(ready) && delayed == old(delayed)
      ensures count == old(count) - |q|
      ensures history == old(history).(
        clearing := old(history.clearing) - multiset(q), discarded := old(history.discarded) + multiset(q))
    {
      hide Linked, InTime, Conserved;
      var nTraversed := Traverse(chain, q);
      ClearList(history, ready, delayed, q);
      history, count :=
        history.(clearing := history.clearing - multiset(q), discarded := history.discarded + multiset(q)),
        count - nTraversed;
    }

    /** TryDispatchEvent when the thunk throws: it goes back to the front. The tail is not looked at. The list is in
        order again if and only if another thunk is ready, or neither has the queue been aborted nor another thunk
        become ready since this one did. */
    method PutBack(t: Thunk)
      requires Valid() && t in history.executing
      modifies `head, `ready, t
      ensures ready == [t] + old(ready) && head == t && Linked(head, ready) && count == old(count)
      ensures history == old(history)
      ensures ListOk() <==> old(ready) != [] || NothingSince(history, t)
    {
      hide InTime, DelayedOk;
      HeadIs();
      NotReady(history, ready, delayed, t);
      t.flink := head;
      head := t;
      ready := [t] + ready;
    }
  }

  /** A queue whose only thunk is being run. */
  method RunOne() returns (queue: DispatchQueue, t: Thunk)
    ensures queue.Valid() && fresh(queue) && fresh(t) && queue.ready == [] && queue.delayed == []
    ensures queue.count < queue.cap
    ensures queue.history == NO_HISTORY.(accepted := [t], entered := [t], taken := [t], executing := multiset{t})
  {
    hide DispatchQueue.Valid, LastEntered;
    queue := new DispatchQueue(2);
    t := new Thunk();
    var ok := queue.Pend(t);
    FrontThunk(queue.ready, queue.delayed);
    assert queue.head != null by { NotEmpty(queue); }
    var first := queue.StartFirst();
  }

  lemma NotEmpty(queue: DispatchQueue)
    requires queue.Valid() && queue.ready != []
    ensures queue.head != null
  {
    hide Linked, InTime, Conserved, DispatchQueue.DelayedOk;
    queue.HeadIs();
  }

  /** The only thunk throws after the queue was aborted: it is at the front of a list without a tail. */
  method AbortedMeanwhile() returns (queue: DispatchQueue, t: Thunk)
    ensures queue.head == t && queue.ready == [t] && queue.tail == null && !queue.ListOk()
  {
    hide DispatchQueue.Valid, Conserved, Linked;
    queue, t := RunOne();
    var chain, q := queue.ClearBegin();
    queue.ClearEnd(chain, q);
    TailIs(queue);
    queue.PutBack(t);
  }

  lemma TailIs(queue: DispatchQueue)
    requires queue.Valid()
    ensures queue.tail == LastEntered(queue.history)
  {}

  /** The only thunk throws after another one was pended and has run: the tail names the other one, which is gone. */
  method OvertakenMeanwhile() returns (queue: DispatchQueue, t: Thunk, other: Thunk)
    ensures queue.head == t && queue.ready == [t] && queue.tail == other != t && !queue.ListOk()
    ensures queue.history.run == [other]
  {
    hide DispatchQueue.Valid, Conserved, Linked;
    queue, t := RunOne();
    other := new Thunk();
    var ok := queue.Pend(other);
    NotEmpty(queue);
    var second := queue.StartFirst();
    var empty := queue.DispatchEnd(other);
    TailIs(queue);
    queue.PutBack(t);
  }

  /** How many entries a list has. */
  method Traverse(chain: Thunk?, ghost q: seq<Thunk>) returns (nTraversed: nat)
    requires Linked(chain, q)
    ensures nTraversed == |q|
  {
    nTraversed := 0;
    var cur := chain;
    while cur != null
      invariant 0 <= nTraversed <= |q| && Linked(cur, q[nTraversed..])
      decreases |q| - nTraversed
    {
      LinkedNext(cur, q[nTraversed..]);
      assert q[nTraversed..][1..] == q[nTraversed + 1..];
      cur := cur.flink;
      nTraversed := nTraversed + 1;
    }
  }

  lemma InsertInTime(d: seq<Delayed>, p: nat, x: Delayed)
    requires InTime(d) && p <= |d|
    requires forall i :: 0 <= i < p ==> d[i].readyAt <= x.readyAt
    requires p < |d| ==> x.readyAt <= d[p].readyAt
    ensures InTime(d[..p] + [x] + d[p..])
  {}

  lemma TimeOrder(d: seq<Delayed>)
    requires InTime(d)
    ensures d != [] ==> InTime(d[1..])
  {}

  /** Thunks become ready. */
  ghost function Entered(h: History, ts: seq<Thunk>): History {
    h.(entered := h.entered + ts)
  }

  /** Thunks leave the ready list. */
  ghost function Took(h: History, ts: seq<Thunk>): History {
    h.(taken := h.taken + ts)
  }

  /** Everything that waits is taken away. */
  ghost function Cleared(h: History, ready: seq<Thunk>, delayed: seq<Delayed>): History {
    Took(h, ready).(
      clearing := h.clearing + multiset(ready), discarded := h.discarded + multiset(Thunks(delayed)),
      cleared := |h.entered|)
  }

  lemma EnteredLast(h: History, t: Thunk)
    requires h.cleared <= |h.entered|
    ensures LastEntered(Entered(h, [t])) == t
  {}

  lemma LinkedNext(head: Thunk, q: seq<Thunk>)
    requires Linked(head, q)
    ensures q != [] && Linked(head.flink, q[1..])
  {}

  lemma AcceptReady(h: History, ready: seq<Thunk>, delayed: seq<Delayed>, t: Thunk)
    requires Conserved(h, ready, delayed) && t !in h.accepted
    ensures t !in ready && forall i :: 0 <= i < |delayed| ==> delayed[i].thunk != t
    ensures Conserved(Entered(h.(accepted := h.accepted + [t]), [t]), ready + [t], delayed)
  {
    assert multiset(h.accepted)[t] == 0;
    assert multiset(ready)[t] == 0 && multiset(Thunks(delayed))[t] == 0;
    forall i | 0 <= i < |delayed| ensures delayed[i].thunk != t { assert Thunks(delayed)[i] == delayed[i].thunk; }
  }

  lemma AcceptDelayed(h: History, ready: seq<Thunk>, delayed: seq<Delayed>, p: nat, d: Delayed)
    requires Conserved(h, ready, delayed) && d.thunk !in h.accepted && p <= |delayed|
    ensures d.thunk !in ready && forall i :: 0 <= i < |delayed| ==> delayed[i].thunk != d.thunk
    ensures Conserved(h.(accepted := h.accepted + [d.thunk]), ready, delayed[..p] + [d] + delayed[p..])
  {
    AcceptReady(h, ready, delayed, d.thunk);
    assert delayed == delayed[..p] + delayed[p..];
    ThunksConcat(delayed[..p], delayed[p..]);
    ThunksConcat(delayed[..p], [d]);
    ThunksConcat(delayed[..p] + [d], delayed[p..]);
    assert Thunks([d]) == [d.thunk];
  }

  lemma PromoteOne(h: History, ready: seq<Thunk>, delayed: seq<Delayed>)
    requires Conserved(h, ready, delayed) && delayed != []
    ensures Conserved(Entered(h, [delayed[0].thunk]), ready + [delayed[0].thunk], delayed[1..])
  {
    assert delayed == [delayed[0]] + delayed[1..];
    ThunksConcat([delayed[0]], delayed[1..]);
    assert Thunks([delayed[0]]) == [delayed[0].thunk];
  }

  lemma NonePromoted(all: seq<Delayed>, r: seq<Thunk>, h: History)
    ensures all[0..] == all && r + Thunks(all[..0]) == r && Entered(h, Thunks(all[..0])) == h
  {}

  lemma OnePromoted(all: seq<Delayed>, n: nat, r: seq<Thunk>, h: History)
    requires n < |all|
    ensures all[n..][1..] == all[n + 1..] && all[n..][0] == all[n]
    ensures forall t :: t in r + Thunks(all[..n]) ==> t in r || t in Thunks(all)
    ensures r + Thunks(all[..n]) + [all[n].thunk] == r + Thunks(all[..n + 1])
    ensures Entered(Entered(h, Thunks(all[..n])), [all[n].thunk]) == Entered(h, Thunks(all[..n + 1]))
  {
    assert all[..n + 1] == all[..n] + [all[n]];
    forall t | t in Thunks(all[..n]) ensures t in Thunks(all) {
      var i :| 0 <= i < n && Thunks(all[..n])[i] == t;
      assert Thunks(all)[i] == t;
    }
    ThunksConcat(all[..n], [all[n]]);
    assert Thunks([all[n]]) == [all[n].thunk];
    assert h.entered + Thunks(all[..n]) + [all[n].thunk] == h.entered + (Thunks(all[..n]) + [all[n].thunk]);
  }

  lemma FrontThunk(ready: seq<Thunk>, delayed: seq<Delayed>)
    ensures |Thunks(delayed)| == |delayed|
    ensures ready != [] ==> (ready + Thunks(delayed))[0] == ready[0]
    ensures ready == [] ==> ready + Thunks(delayed) == Thunks(delayed)
  {}

  lemma PromotedFront(delayed: seq<Delayed>, n: nat)
    requires 0 < n <= |delayed|
    ensures Thunks(delayed[..n]) != [] && Thunks(delayed[..n])[0] == Thunks(delayed)[0]
  {}

  lemma StartOne(h: History, ready: seq<Thunk>, delayed: seq<Delayed>)
    requires Conserved(h, ready, delayed) && ready != []
    ensures Conserved(Took(h, [ready[0]]).(executing := h.executing + multiset{ready[0]}), ready[1..], delayed)
  {
    assert ready == [ready[0]] + ready[1..];
  }

  lemma EndOne(h: History, ready: seq<Thunk>, delayed: seq<Delayed>, t: Thunk)
    requires Conserved(h, ready, delayed) && t in h.executing
    ensures Conserved(h.(executing := h.executing - multiset{t}, run := h.run + [t]), ready, delayed)
    ensures |h.executing - multiset{t}| == |h.executing| - 1
  {}

  lemma NotReady(h: History, ready: seq<Thunk>, delayed: seq<Delayed>, t: Thunk)
    requires Conserved(h, ready, delayed) && t in h.executing
    ensures t !in ready
  {
    Once(h.accepted, t);
    assert multiset(h.accepted)[t] >= multiset(ready)[t] + h.executing[t];
  }

  /** A thunk accepted once is counted once. */
  lemma {:induction false} Once(q: seq<Thunk>, t: Thunk)
    requires Distinct(q)
    ensures multiset(q)[t] <= 1
  {
    if q != [] {
      Once(q[1..], t);
      assert q == [q[0]] + q[1..];
      if q[0] == t { assert forall i :: 0 <= i < |q[1..]| ==> q[1..][i] != t; assert t !in multiset(q[1..]); }
    }
  }

  /** A thunk is in one place only. */
  lemma OnePlace(h: History, ready: seq<Thunk>, delayed: seq<Delayed>, t: Thunk)
    requires Conserved(h, ready, delayed)
    ensures multiset(ready)[t] + multiset(Thunks(delayed))[t] + h.executing[t] + multiset(h.run)[t] + h.clearing[t] +
        h.discarded[t]
         == if t in h.accepted then 1 else 0
  {
    Once(h.accepted, t);
    assert multiset(h.accepted)[t] ==
      multiset(ready)[t] + multiset(Thunks(delayed))[t] + h.executing[t] + multiset(h.run)[t] + h.clearing[t] +
        h.discarded[t];
    if t in h.accepted { assert t in multiset(h.accepted); }
  }

  lemma CancelReady(h: History, ready: seq<Thunk>, delayed: seq<Delayed>)
    requires Conserved(h, ready, delayed) && ready != []
    ensures Conserved(Took(h, [ready[0]]).(discarded := h.discarded + multiset{ready[0]}), ready[1..], delayed)
  {
    assert ready == [ready[0]] + ready[1..];
  }

  lemma CancelDelayed(h: History, ready: seq<Thunk>, delayed: seq<Delayed>)
    requires Conserved(h, ready, delayed) && delayed != []
    ensures Conserved(h.(discarded := h.discarded + multiset{delayed[0].thunk}), ready, delayed[1..])
  {
    assert delayed == [delayed[0]] + delayed[1..];
    ThunksConcat([delayed[0]], delayed[1..]);
    assert Thunks([delayed[0]]) == [delayed[0].thunk];
  }

  lemma ClearAll(h: History, ready: seq<Thunk>, delayed: seq<Delayed>)
    requires Conserved(h, ready, delayed)
    ensures Conserved(Cleared(h, ready, delayed), [], [])
    ensures var h' := Cleared(h, ready, delayed);
            |h'.executing| + |h'.clearing| == |ready| + |h.executing| + |h.clearing| &&
            (h.entered == h.taken + ready ==> h'.entered == h'.taken + []) && LastEntered(h') == null &&
              h'.cleared <= |h'.entered|
  {
    assert Thunks([]) == [];
  }

  lemma ClearList(h: History, ready: seq<Thunk>, delayed: seq<Delayed>, q: seq<Thunk>)
    requires Conserved(h, ready, delayed) && multiset(q) <= h.clearing
    ensures Conserved(h.(clearing := h.clearing - multiset(q), discarded := h.discarded + multiset(q)), ready, delayed)
    ensures |h.clearing - multiset(q)| == |h.clearing| - |q|
  {}
}
