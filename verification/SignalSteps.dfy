/** Every step of the signal protocol keeps the invariant. */
module SignalSteps {
  import opened Prelude
  import opened SignalProtocol
  import opened SignalInvariant

  // ---------------------------------------------------------------- steps that only move a thread

  lemma UpdateKeeps(s: State, s': State, i: nat)
    requires Inv(s) && UpdateStep(s, s', i)
    ensures Inv(s')
  {
    hide Inv, PcOk;
    InvParts(s);
    HeldIsOk(s, i);
    var x := s.threads[i].x;
    UpdatePc(s, x);
    if s' == At(s, i, PushSplice(x)) { OutsiderMove(s, s', i, PushSplice(x)); }
    else { EnterMove(s, s', i, DoSplice(x), Updating); }
  }

  lemma UpdatePc(s: State, x: Splice)
    requires PcOk(s, x, TryUpdate(x))
    ensures PcOk(s, x, PushSplice(x)) && PcOk(s, x, DoSplice(x))
  {}

  lemma TakeKeeps(s: State, s': State, i: nat)
    requires Inv(s) && TakeStep(s, s', i)
    ensures Inv(s')
  {
    hide Inv, RequestsOk;
    InvParts(s);
    HeldIsOk(s, i);
    var TryTake(x, k, id) := s.threads[i];
    if s' == At(s, i, TryDefer(x, k, id)) { OutsiderMove(s, s', i, TryDefer(x, k, id)); }
    else { EnterMove(s, s', i, CheckChain(x, k, id), Updating); }
  }

  /** The chain id tells whether the thunk was executed: nobody executes while the signal is Updating. */
  lemma CheckKeeps(s: State, s': State, i: nat)
    requires Inv(s) && CheckStep(s, s', i)
    ensures Inv(s')
    ensures var CheckChain(x, k, id) := s.threads[i]; s.chainId != id <==> x in s.done
  {
    hide Inv, RequestsOk, OwnerOk;
    InvParts(s);
    HeldIsOk(s, i);
    var CheckChain(x, k, id) := s.threads[i];
    ChainOfOwner(s.sig, s.owner, s.threads, i);
    assert s.released == |s.executed|;
    OwnerMove(s, s', i, if s.chainId != id then SetFree(x) else Cancel(x, k), s.sig);
  }

  lemma EnterKeeps(s: State, s': State, i: nat)
    requires Inv(s) && EnterStep(s, s', i)
    ensures Inv(s')
  {
    hide Inv;
    var c := s.threads[i].c;
    if s' == At(s, i, PushCall(c)) { OutsiderMove(s, s', i, PushCall(c)); }
    else if s' != s { EnterMove(s, s', i, Running(c), Asserting); }
  }

  lemma RunKeeps(s: State, s': State, i: nat)
    requires Inv(s) && RunStep(s, s', i)
    ensures Inv(s')
  {
    hide Inv;
    OwnerMove(s, s', i, Leave, s.sig);
  }

  lemma CallTakeKeeps(s: State, s': State, i: nat)
    requires Inv(s) && CallTakeStep(s, s', i)
    ensures Inv(s')
  {
    hide Inv;
    var k := s.threads[i].k;
    if s' == At(s, i, CallDefer(k)) { OutsiderMove(s, s', i, CallDefer(k)); }
    else { EnterMove(s, s', i, Leave, Asserting); }
  }

  lemma DrainKeeps(s: State, s': State, i: nat)
    requires Inv(s) && DrainStep(s, s', i)
    ensures Inv(s')
  {
    hide Inv;
    if s' == At(s, i, Leave) { OwnerMove(s, s', i, Leave, s.sig); }
    else { OwnerMove(s, s', i, Release, Asserting); }
  }

  lemma StartCallKeeps(s: State, s': State, i: nat, c: nat)
    requires Inv(s) && StartCall(s, s', i, c)
    ensures Inv(s')
  {
    hide Inv;
    OutsiderMove(s, s', i, Enter(c));
  }

  // ---------------------------------------------------------------- requests a step does not concern

  /** A step by thread `i` changes nothing the request `y` depends on. */
  ghost predicate Elsewhere(s: State, s': State, y: Splice) {
    && s'.chainId == s.chainId
    && (y in s'.ticket <==> y in s.ticket)
    && (y in s'.done <==> y in s.done)
    && (y in s'.returned <==> y in s.returned)
    && (y in s.ticket ==>
          && s'.ticket[y] == s.ticket[y]
          && (s.ticket[y] in s'.cancelled <==> s.ticket[y] in s.cancelled)
          && (s.ticket[y] in s'.relied <==> s.ticket[y] in s.relied)
          && (s.ticket[y] < |s'.executed| <==> s.ticket[y] < |s.executed|)
          && (s.ticket[y] < s'.released <==> s.ticket[y] < s.released))
  }

  lemma ElsewhereKeeps(s: State, s': State, i: nat, pc: Pc, y: Splice)
    requires ThreadsOk(s.threads, s.worker, s.returned) && i < |s.threads| && s'.threads == s.threads[i := pc]
    requires y in s.worker && y in s'.worker && s'.worker[y] == s.worker[y] && SpliceOk(s, y)
    requires Elsewhere(s, s', y) && Holds(s.threads[i]) != Some(y)
    ensures SpliceOk(s', y)
  {
    if y !in s.returned {
      assert Holds(s.threads[s.worker[y]]) == Some(y);
    }
  }

  // ---------------------------------------------------------------- requests begin

  lemma StartSpliceKeeps(s: State, s': State, i: nat, x: Splice)
    requires Inv(s) && StartSplice(s, s', i, x)
    ensures Inv(s')
  {
    hide Inv, OwnerOk, QueueOk;
    InvParts(s);
    InvParts(s');
    OwnerKeep(s.sig, s.owner, s.threads, i, TryUpdate(x));
    ChainElsewhere(s.sig, s.owner, s.threads, i, TryUpdate(x));
    StartSpliceRequests(s, s', i, x);
  }

  lemma StartSpliceBooks(s: State, s': State, i: nat, x: Splice)
    requires RequestsOk(s) && StartSplice(s, s', i, x)
    ensures BooksOk(s')
  {
    hide ListenersOk, SpliceOk;
  }

  lemma StartSpliceRequests(s: State, s': State, i: nat, x: Splice)
    requires RequestsOk(s) && StartSplice(s, s', i, x)
    ensures RequestsOk(s')
  {
    hide ListenersOk, OrderOk, CallsOk;
    StartSpliceBooks(s, s', i, x);
    forall y | y in s'.worker ensures SpliceOk(s', y) {
      if y == x {
        assert PcOk(s', x, TryUpdate(x));
      } else {
        ElsewhereKeeps(s, s', i, TryUpdate(x), y);
      }
    }
  }

  /** Thread `i` works on its request, which has not returned. */
  ghost predicate AtWork(s: State, i: nat) {
    && i < |s.threads| && Holds(s.threads[i]).Some?
    && var x := Holds(s.threads[i]).value;
    x in s.worker && s.worker[x] == i && x !in s.returned && PcOk(s, x, s.threads[i])
  }

  lemma PushSpliceKeeps(s: State, s': State, i: nat)
    requires Inv(s) && PushSpliceStep(s, s', i)
    ensures Inv(s')
  {
    hide Inv, OwnerOk, QueueOk, RequestsOk;
    InvParts(s);
    InvParts(s');
    OwnerKeep(s.sig, s.owner, s.threads, i, s'.threads[i]);
    ChainElsewhere(s.sig, s.owner, s.threads, i, s'.threads[i]);
    QueueSizes(s.list, Chain(s.owner, s.threads), |s.pushed|, s.released, s.executed);
    PushQueue(s.list, Chain(s.owner, s.threads), |s.pushed|, s.released, s.executed);
    HeldIsOk(s, i);
    PushSpliceRequests(s, s', i);
  }

  lemma PushSpliceBooks(s: State, s': State, i: nat)
    requires RequestsOk(s) && PushSpliceStep(s, s', i)
    requires AtWork(s, i) && |s.executed| <= s.released <= |s.pushed|
    ensures BooksOk(s')
  {
    hide ListenersOk, SpliceOk, OrderOk, DoneOk, ThreadsOk;
    var x := s.threads[i].x;
    PushOrder(s.worker, s.returned, s.done, s.ticket, x, |s.pushed|);
    PushDone(s, s', i);
    MoveKeepsThreads(s.threads, s.worker, s.returned, i, s'.threads[i]);
  }

  lemma PushOrder(worker: map<Splice, nat>, returned: set<Splice>, done: seq<Splice>, ticket: map<Splice, nat>,
      x: Splice, k: nat)
    requires OrderOk(worker, returned, done, ticket) && x !in returned && x !in ticket
    requires forall y :: y in ticket ==> ticket[y] < k
    ensures OrderOk(worker, returned, done, ticket[x := k])
  {}

  lemma PushDone(s: State, s': State, i: nat)
    requires DoneOk(s) && PushSpliceStep(s, s', i) && s.threads[i].x !in s.done && |s.executed| <= |s.pushed|
    ensures DoneOk(s')
  {}

  lemma PushSpliceRequests(s: State, s': State, i: nat)
    requires RequestsOk(s) && PushSpliceStep(s, s', i)
    requires AtWork(s, i) && |s.executed| <= s.released <= |s.pushed|
    requires forall k :: k in s.relied ==> k < |s.pushed|
    ensures RequestsOk(s')
  {
    hide ListenersOk, OrderOk, CallsOk;
    PushSpliceBooks(s, s', i);
    var x := s.threads[i].x;
    forall y | y in s'.worker ensures SpliceOk(s', y) {
      if y == x {
        assert PcOk(s', x, s'.threads[i]);
      } else {
        ElsewhereKeeps(s, s', i, s'.threads[i], y);
      }
    }
  }

  lemma QueueSizes(list: seq<nat>, chain: seq<nat>, pushed: nat, released: nat, executed: seq<nat>)
    requires QueueOk(list, chain, pushed, released, executed)
    ensures |executed| <= released <= pushed
  {}

  lemma PushQueue(list: seq<nat>, chain: seq<nat>, pushed: nat, released: nat, executed: seq<nat>)
    requires QueueOk(list, chain, pushed, released, executed)
    ensures QueueOk([pushed] + list, chain, pushed + 1, released, executed)
  {
    var a, b := Range(released, pushed), Range(released, pushed + 1);
    assert b == a + [pushed];
    assert Reverse(b) == [pushed] + Reverse(a);
  }

  lemma PushCallKeeps(s: State, s': State, i: nat)
    requires Inv(s) && PushCallStep(s, s', i)
    ensures Inv(s')
  {
    hide Inv, OwnerOk, QueueOk, RequestsOk;
    InvParts(s);
    InvParts(s');
    OwnerKeep(s.sig, s.owner, s.threads, i, s'.threads[i]);
    ChainElsewhere(s.sig, s.owner, s.threads, i, s'.threads[i]);
    QueueSizes(s.list, Chain(s.owner, s.threads), |s.pushed|, s.released, s.executed);
    PushQueue(s.list, Chain(s.owner, s.threads), |s.pushed|, s.released, s.executed);
    PushCallRequests(s, s', i);
  }

  lemma PushCallBooks(s: State, s': State, i: nat)
    requires RequestsOk(s) && PushCallStep(s, s', i) && |s.executed| <= |s.pushed|
    ensures BooksOk(s')
  {
    hide ListenersOk, SpliceOk, OrderOk;
  }

  lemma PushCallRequests(s: State, s': State, i: nat)
    requires RequestsOk(s) && PushCallStep(s, s', i) && |s.executed| <= |s.pushed|
    ensures RequestsOk(s')
  {
    hide ListenersOk, OrderOk, DoneOk, SpliceOk;
    PushCallBooks(s, s', i);
    forall y | y in s'.worker ensures SpliceOk(s', y) {
      ElsewhereKeeps(s, s', i, s'.threads[i], y);
    }
  }

  // ---------------------------------------------------------------- requests are left to the owner

  lemma DeferKeeps(s: State, s': State, i: nat)
    requires Inv(s) && DeferStep(s, s', i)
    ensures Inv(s')
  {
    hide Inv, OwnerOk, QueueOk, RequestsOk;
    InvParts(s);
    InvParts(s');
    HeldIsOk(s, i);
    var TryDefer(x, k, id) := s.threads[i];
    if s' == At(s, i, TryTake(x, k, id)) && s.sig != Deferred {
      OutsiderMove(s, s', i, TryTake(x, k, id));
    } else {
      OwnerKeep(s.sig, s.owner, s.threads, i, Idle);
      OwnerMark(s.sig, Deferred, s.owner, s'.threads);
      ChainElsewhere(s.sig, s.owner, s.threads, i, Idle);
      DeferRequests(s, s', i);
    }
  }

  /** Returning at once, with the thunk left to the owner. */
  ghost predicate LeavesSplice(s: State, s': State, i: nat) {
    && i < |s.threads| && s.threads[i].TryDefer?
    && var TryDefer(x, k, id) := s.threads[i];
    && TicketHeld(s, x, k, id)
    && s' == At(s, i, Idle).(sig := Deferred, relied := s.relied + {k}, returned := s.returned + {x})
  }

  lemma DeferBooks(s: State, s': State, i: nat)
    requires RequestsOk(s) && LeavesSplice(s, s', i)
    ensures BooksOk(s') && s.threads[i].k < |s.pushed|
  {
    hide ListenersOk, SpliceOk;
  }

  lemma DeferRequests(s: State, s': State, i: nat)
    requires RequestsOk(s) && LeavesSplice(s, s', i)
    ensures RequestsOk(s') && s.threads[i].k < |s.pushed|
  {
    hide ListenersOk, OrderOk, DoneOk, CallsOk;
    DeferBooks(s, s', i);
    var TryDefer(x, k, id) := s.threads[i];
    forall y | y in s'.worker ensures SpliceOk(s', y) {
      if y != x { ElsewhereKeeps(s, s', i, Idle, y); }
    }
  }

  lemma CallDeferKeeps(s: State, s': State, i: nat)
    requires Inv(s) && CallDeferStep(s, s', i)
    ensures Inv(s')
  {
    hide Inv, OwnerOk, QueueOk, RequestsOk;
    InvParts(s);
    InvParts(s');
    var k := s.threads[i].k;
    if s' == At(s, i, CallTake(k)) && s.sig != Deferred {
      OutsiderMove(s, s', i, CallTake(k));
    } else {
      OwnerKeep(s.sig, s.owner, s.threads, i, Idle);
      OwnerMark(s.sig, Deferred, s.owner, s'.threads);
      ChainElsewhere(s.sig, s.owner, s.threads, i, Idle);
      CallDeferRequests(s, s', i);
    }
  }

  /** Handing off a call, with the thunk left to the owner. */
  ghost predicate LeavesCall(s: State, s': State, i: nat) {
    && i < |s.threads| && s.threads[i].CallDefer?
    && s' == At(s, i, Idle).(sig := Deferred, relied := s.relied + {s.threads[i].k})
  }

  lemma CallDeferBooks(s: State, s': State, i: nat)
    requires RequestsOk(s) && LeavesCall(s, s', i)
    ensures BooksOk(s') && s.threads[i].k < |s.pushed| && s.pushed[s.threads[i].k].Callable?
  {
    hide ListenersOk, SpliceOk, OrderOk;
    assert CallTicket(s.threads[i]) == Some(s.threads[i].k);
  }

  lemma CallDeferRequests(s: State, s': State, i: nat)
    requires RequestsOk(s) && LeavesCall(s, s', i)
    ensures RequestsOk(s') && s.threads[i].k < |s.pushed|
  {
    hide ListenersOk, OrderOk, DoneOk, SpliceOk;
    CallDeferBooks(s, s', i);
    forall y | y in s'.worker ensures SpliceOk(s', y) {
      ElsewhereKeeps(s, s', i, Idle, y);
    }
  }

  // ---------------------------------------------------------------- the owner updates the list

  lemma CancelKeeps(s: State, s': State, i: nat)
    requires Inv(s) && CancelStep(s, s', i)
    ensures Inv(s')
  {
    hide Inv, OwnerOk, QueueOk, RequestsOk;
    InvParts(s);
    InvParts(s');
    HeldIsOk(s, i);
    OwnerKeep(s.sig, s.owner, s.threads, i, s'.threads[i]);
    ChainOfOwner(s.sig, s.owner, s.threads, i);
    CancelRequests(s, s', i);
    ChainOfOwner(s'.sig, s'.owner, s'.threads, i);
  }

  lemma CancelBooks(s: State, s': State, i: nat)
    requires RequestsOk(s) && AtWork(s, i) && CancelStep(s, s', i)
    ensures BooksOk(s')
  {
    hide ListenersOk, SpliceOk, OrderOk;
  }

  lemma CancelRequests(s: State, s': State, i: nat)
    requires RequestsOk(s) && AtWork(s, i) && CancelStep(s, s', i)
    ensures RequestsOk(s')
  {
    hide ListenersOk, OrderOk, DoneOk, CallsOk;
    CancelBooks(s, s', i);
    var Cancel(x, k) := s.threads[i];
    forall y | y in s'.worker ensures SpliceOk(s', y) {
      if y != x { ElsewhereKeeps(s, s', i, s'.threads[i], y); }
    }
  }

  lemma FreeKeeps(s: State, s': State, i: nat)
    requires Inv(s) && FreeStep(s, s', i)
    ensures Inv(s')
  {
    hide Inv, OwnerOk, QueueOk, RequestsOk;
    InvParts(s);
    InvParts(s');
    HeldIsOk(s, i);
    OwnsFacts(s.sig, s.owner, s.threads, i);
    OwnerExit(s.sig, s.owner, s.threads, i);
    ChainOfOwner(s.sig, s.owner, s.threads, i);
    FreeRequests(s, s', i);
  }

  lemma FreeBooks(s: State, s': State, i: nat)
    requires RequestsOk(s) && AtWork(s, i) && FreeStep(s, s', i)
    ensures BooksOk(s')
  {
    hide ListenersOk, SpliceOk;
  }

  lemma FreeRequests(s: State, s': State, i: nat)
    requires RequestsOk(s) && AtWork(s, i) && FreeStep(s, s', i)
    ensures RequestsOk(s')
  {
    hide ListenersOk, OrderOk, DoneOk, CallsOk;
    FreeBooks(s, s', i);
    var x := s.threads[i].x;
    forall y | y in s'.worker ensures SpliceOk(s', y) {
      if y != x { ElsewhereKeeps(s, s', i, s'.threads[i], y); }
    }
  }

  lemma LeaveKeeps(s: State, s': State, i: nat)
    requires Inv(s) && LeaveStep(s, s', i)
    ensures Inv(s')
  {
    hide Inv, OwnerOk, QueueOk, RequestsOk;
    InvParts(s);
    InvParts(s');
    if s' == At(s, i, Drain) {
      OwnerMove(s, s', i, Drain, s.sig);
    } else {
      OwnsFacts(s.sig, s.owner, s.threads, i);
      OwnerExit(s.sig, s.owner, s.threads, i);
      ChainOfOwner(s.sig, s.owner, s.threads, i);
      MoveKeeps(s, s', i, Idle);
    }
  }

  lemma ReleaseKeeps(s: State, s': State, i: nat)
    requires Inv(s) && ReleaseStep(s, s', i)
    ensures Inv(s')
  {
    hide Inv, OwnerOk, QueueOk, RequestsOk;
    InvParts(s);
    InvParts(s');
    OwnerKeep(s.sig, s.owner, s.threads, i, s'.threads[i]);
    ChainOfOwner(s.sig, s.owner, s.threads, i);
    ChainOfOwner(s'.sig, s'.owner, s'.threads, i);
    OwnsFacts(s.sig, s.owner, s.threads, i);
    ReleaseQueue(s.list, |s.pushed|, s.released, s.executed);
    AssertingAlone(s, i);
    ReleaseRequests(s, s', i);
  }

  /** Releasing turns the latest-first list into a chain in the order of pushing. */
  lemma ReleaseQueue(list: seq<nat>, pushed: nat, released: nat, executed: seq<nat>)
    requires QueueOk(list, [], pushed, released, executed)
    ensures |executed| == released <= pushed && QueueOk([], Reverse(list), pushed, pushed, executed)
  {
    assert Reverse(list) == Range(released, pushed);
  }

  lemma ReleaseBooks(s: State, s': State, i: nat)
    requires RequestsOk(s) && ReleaseStep(s, s', i)
    ensures BooksOk(s')
  {
    hide ListenersOk, SpliceOk, OrderOk;
  }

  lemma ReleaseRequests(s: State, s': State, i: nat)
    requires RequestsOk(s) && ReleaseStep(s, s', i) && NoUpdater(s.threads)
    requires |s.executed| == s.released <= |s.pushed|
    ensures RequestsOk(s')
  {
    hide ListenersOk, OrderOk, DoneOk, CallsOk;
    ReleaseBooks(s, s', i);
    forall y | y in s'.worker ensures SpliceOk(s', y) {
      ReturnedOrHeld(s.threads, s.worker, s.returned, y);
    }
  }

  /** Links and unlinks take effect on entries that are absent and present respectively. */
  lemma SplicedList(listeners: seq<nat>, done: seq<Splice>, x: Splice)
    requires ListenersOk(listeners, done) && x !in done
    requires if x.op == Link then Splice(Unlink, x.entry) !in done else Splice(Link, x.entry) in done
    ensures ListenersOk(Spliced(listeners, x), done + [x])
  {
    if x.op == Unlink { RemoveEntry(listeners, x.entry); }
    forall e: nat
      ensures e in Spliced(listeners, x) <==> Splice(Link, e) in done + [x] && Splice(Unlink, e) !in done + [x]
    {
      assert e in listeners <==> Splice(Link, e) in done && Splice(Unlink, e) !in done;
    }
  }

  lemma {:induction false} RemoveEntry(q: seq<nat>, e: nat)
    requires Distinct(q) && e in q
    ensures Distinct(Remove(q, e))
    ensures forall d :: d in Remove(q, e) <==> d in q && d != e
  {
    if q[0] != e {
      RemoveEntry(q[1..], e);
      assert q == [q[0]] + q[1..];
      DistinctConcat([q[0]], Remove(q[1..], e));
    }
  }

  /** A link is done before the unlink of the same entry is. */
  lemma LinkedFirst(s: State, e: nat)
    requires Inv(s) && Splice(Unlink, e) in s.worker && Splice(Link, e) !in s.done
    ensures var x := Splice(Link, e);
      x in s.ticket && s.ticket[x] in s.relied && s.ticket[x] >= |s.executed|
  {
    hide OwnerOk, QueueOk, PcOk, DoneOk;
    assert SpliceOk(s, Splice(Link, e));
  }

  lemma OppositeAbsent(s: State, e: nat)
    requires Inv(s) && Splice(Link, e) !in s.done
    ensures Splice(Unlink, e) !in s.done
  {
    hide OwnerOk, QueueOk, PcOk;
    assert Splice(Unlink, e) in s.done ==> Splice(Unlink, e) in s.worker;
  }

  lemma SpliceKeeps(s: State, s': State, i: nat)
    requires Inv(s) && SpliceStep(s, s', i)
    ensures Inv(s')
  {
    hide OwnerOk, QueueOk, RequestsOk, ThreadsOk, TicketsOk, SpliceOk, OrderOk, ListenersOk, DoneOk, DutyOk;
    InvParts(s);
    InvParts(s');
    HeldIsOk(s, i);
    var x := s.threads[i].x;
    OwnerKeep(s.sig, s.owner, s.threads, i, s'.threads[i]);
    ChainOfOwner(s.sig, s.owner, s.threads, i);
    OwnsFacts(s.sig, s.owner, s.threads, i);
    ChainOfOwner(s'.sig, s'.owner, s'.threads, i);
    DirectOrder(s, i);
    SpliceRequests(s, s', i);
    SpliceDuty(s, s', i);
  }

  lemma SpliceDuty(s: State, s': State, i: nat)
    requires DutyOk(s) && SpliceStep(s, s', i) && !Releasing(s.owner, s.threads)
    ensures DutyOk(s')
  {}

  lemma DirectOrder(s: State, i: nat)
    requires Inv(s) && i < |s.threads| && s.threads[i].DoSplice? && s.threads[i].x !in s.done
    requires s.threads[i].x in s.worker
    ensures var x := s.threads[i].x;
      if x.op == Link then Splice(Unlink, x.entry) !in s.done else Splice(Link, x.entry) in s.done
  {
    hide SpliceOk, TicketsOk, DoneOk, OrderOk, ListenersOk;
    var x := s.threads[i].x;
    if x.op == Link {
      OppositeAbsent(s, x.entry);
    } else if Splice(Link, x.entry) !in s.done {
      LinkedFirst(s, x.entry);
      ChainOfOwner(s.sig, s.owner, s.threads, i);
    }
  }

  lemma SpliceBooks(s: State, s': State, i: nat)
    requires RequestsOk(s) && AtWork(s, i) && SpliceStep(s, s', i)
    requires var x := s.threads[i].x;
      if x.op == Link then Splice(Unlink, x.entry) !in s.done else Splice(Link, x.entry) in s.done
    ensures BooksOk(s')
  {
    hide ListenersOk, Spliced, DoneOk, ThreadsOk, SpliceOk;
    SplicedList(s.listeners, s.done, s.threads[i].x);
    SpliceDone(s, s', i);
    MoveKeepsThreads(s.threads, s.worker, s.returned, i, s'.threads[i]);
  }

  lemma SpliceRequests(s: State, s': State, i: nat)
    requires RequestsOk(s) && AtWork(s, i) && SpliceStep(s, s', i)
    requires var x := s.threads[i].x;
      if x.op == Link then Splice(Unlink, x.entry) !in s.done else Splice(Link, x.entry) in s.done
    ensures RequestsOk(s')
  {
    hide ListenersOk, Spliced, DoneOk, OrderOk, CallsOk;
    SpliceBooks(s, s', i);
    var x := s.threads[i].x;
    forall y | y in s'.worker ensures SpliceOk(s', y) {
      if y != x { ElsewhereKeeps(s, s', i, s'.threads[i], y); }
    }
  }

  lemma SpliceDone(s: State, s': State, i: nat)
    requires DoneOk(s) && TicketsOk(s.pushed, s.ticket, s.worker) && AtWork(s, i) && SpliceStep(s, s', i)
    ensures DoneOk(s')
  {
    hide Spliced;
  }

  // ---------------------------------------------------------------- the owner runs what was pended

  lemma ExecuteQueue(list: seq<nat>, chain: seq<nat>, pushed: nat, released: nat, executed: seq<nat>)
    requires QueueOk(list, chain, pushed, released, executed) && chain != []
    ensures chain[0] == |executed| < released
    ensures QueueOk(list, chain[1..], pushed, released, executed + [chain[0]])
  {}

  lemma ExecuteKeeps(s: State, s': State, i: nat)
    requires Inv(s) && ExecuteStep(s, s', i)
    ensures Inv(s')
  {
    hide OwnerOk, QueueOk, RequestsOk, ThreadsOk, TicketsOk, SpliceOk, OrderOk, ListenersOk, DoneOk, DutyOk, Spliced;
    InvParts(s);
    InvParts(s');
    var chain := s.threads[i].chain;
    if chain == [] {
      OwnerMove(s, s', i, Leave, s.sig);
    } else {
      OwnerKeep(s.sig, s.owner, s.threads, i, s'.threads[i]);
      ChainOfOwner(s.sig, s.owner, s.threads, i);
      ChainOfOwner(s'.sig, s'.owner, s'.threads, i);
      ExecuteQueue(s.list, chain, |s.pushed|, s.released, s.executed);
      QueueSizes(s.list, chain, |s.pushed|, s.released, s.executed);
      ExecuteRequests(s, s', i);
      ExecuteDuty(s, s', i);
    }
  }

  lemma ExecuteDuty(s: State, s': State, i: nat)
    requires DutyOk(s) && ExecuteStep(s, s', i) && !Releasing(s.owner, s.threads)
    ensures DutyOk(s')
  {
    hide Spliced;
  }

  lemma ExecuteOrder(s: State, i: nat)
    requires Inv(s) && i < |s.threads| && s.threads[i].Execute? && |s.executed| < |s.pushed|
    requires var k := |s.executed|; s.pushed[k].SpliceThunk? && k !in s.cancelled
    ensures var x := s.pushed[|s.executed|].x;
      x !in s.done && if x.op == Link then Splice(Unlink, x.entry) !in s.done else Splice(Link, x.entry) in s.done
  {
    hide SpliceOk, OwnerOk, QueueOk, ListenersOk;
    var x := s.pushed[|s.executed|].x;
    if x.op == Link { OppositeAbsent(s, x.entry); }
    else if Splice(Link, x.entry) !in s.done { LinkedFirst(s, x.entry); }
  }

  ghost predicate NoUpdater(threads: seq<Pc>) {
    forall j :: 0 <= j < |threads| ==> !UpdateOwner(threads[j])
  }

  lemma AssertingAlone(s: State, i: nat)
    requires OwnerOk(s.sig, s.owner, s.threads) && i < |s.threads| && AssertOwner(s.threads[i])
    ensures NoUpdater(s.threads)
  {}

  /** Whether the next thunk of the chain still has to splice. */
  ghost predicate Splices(s: State, k: nat) {
    k < |s.pushed| && s.pushed[k].SpliceThunk? && k !in s.cancelled
  }

  lemma ExecuteDone(s: State, s': State, i: nat)
    requires RequestsOk(s) && NoUpdater(s.threads) && ExecuteStep(s, s', i)
    requires s.threads[i].chain != [] && s.threads[i].chain[0] == |s.executed|
    requires Splices(s, |s.executed|) ==> s.pushed[|s.executed|].x !in s.done
    ensures DoneOk(s') && s'.done == if Splices(s, |s.executed|) then s.done + [s.pushed[|s.executed|].x] else s.done
  {
    hide Spliced, OrderOk, ListenersOk, ThreadsOk, SpliceOk;
    if Splices(s, |s.executed|) {
      assert s'.done == s.done + [s.pushed[|s.executed|].x];
    } else {
      assert s'.done == s.done;
    }
  }

  lemma ReturnedOrHeld(threads: seq<Pc>, worker: map<Splice, nat>, returned: set<Splice>, y: Splice)
    requires ThreadsOk(threads, worker, returned) && y in worker
    ensures y in returned || (worker[y] < |threads| && Holds(threads[worker[y]]) == Some(y))
  {}

  lemma ExecuteSplice(s: State, s': State, i: nat, y: Splice)
    requires RequestsOk(s) && NoUpdater(s.threads) && ExecuteStep(s, s', i)
    requires s.threads[i].chain != [] && s.threads[i].chain[0] == |s.executed|
    requires s'.done == if Splices(s, |s.executed|) then s.done + [s.pushed[|s.executed|].x] else s.done
    requires y in s.worker
    ensures SpliceOk(s', y)
  {
    hide Spliced, OrderOk, ListenersOk;
    assert SpliceOk(s, y);
    var k := |s.executed|;
    if y !in s.ticket || s.ticket[y] != k {
      ElsewhereKeeps(s, s', i, s'.threads[i], y);
    } else if k in s.cancelled {
      assert y in s.done;
      ReturnedOrHeld(s.threads, s.worker, s.returned, y);
    } else {
      ReturnedOrHeld(s.threads, s.worker, s.returned, y);
    }
  }

  lemma ExecuteRequests(s: State, s': State, i: nat)
    requires Inv(s) && ExecuteStep(s, s', i)
    requires s.threads[i].chain != [] && s.threads[i].chain[0] == |s.executed|
    ensures RequestsOk(s')
  {
    hide SpliceOk, DoneOk, ListenersOk, Spliced, OwnerOk, QueueOk, DutyOk;
    AssertingAlone(s, i);
    if Splices(s, |s.executed|) {
      ExecuteOrder(s, i);
      SplicedList(s.listeners, s.done, s.pushed[|s.executed|].x);
    }
    ExecuteDone(s, s', i);
    forall y | y in s'.worker ensures SpliceOk(s', y) { ExecuteSplice(s, s', i, y); }
  }
}
