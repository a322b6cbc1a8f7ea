/** What holds over whole runs of the signal protocol. */
module SignalSafety {
  import opened Prelude
  import opened SignalProtocol
  import opened SignalInvariant
  import opened SignalSteps

  lemma NextKeeps(s: State, s': State)
    requires Inv(s) && Next(s, s')
    ensures Inv(s')
  {
    hide Inv, UpdateStep, PushSpliceStep, DeferStep, TakeStep, CheckStep, CancelStep, SpliceStep, FreeStep, EnterStep,
      RunStep, PushCallStep, CallDeferStep, CallTakeStep, LeaveStep, DrainStep, ReleaseStep, ExecuteStep,
      StartSplice, StartCall;
    var i: nat :| StepBy(s, s', i);
    if x :| StartSplice(s, s', i, x) { StartSpliceKeeps(s, s', i, x); }
    else if c :| StartCall(s, s', i, c) { StartCallKeeps(s, s', i, c); }
    else if UpdateStep(s, s', i) { UpdateKeeps(s, s', i); }
    else if PushSpliceStep(s, s', i) { PushSpliceKeeps(s, s', i); }
    else if DeferStep(s, s', i) { DeferKeeps(s, s', i); }
    else if TakeStep(s, s', i) { TakeKeeps(s, s', i); }
    else if CheckStep(s, s', i) { CheckKeeps(s, s', i); }
    else if CancelStep(s, s', i) { CancelKeeps(s, s', i); }
    else if SpliceStep(s, s', i) { SpliceKeeps(s, s', i); }
    else if FreeStep(s, s', i) { FreeKeeps(s, s', i); }
    else if EnterStep(s, s', i) { EnterKeeps(s, s', i); }
    else if RunStep(s, s', i) { RunKeeps(s, s', i); }
    else if PushCallStep(s, s', i) { PushCallKeeps(s, s', i); }
    else if CallDeferStep(s, s', i) { CallDeferKeeps(s, s', i); }
    else if CallTakeStep(s, s', i) { CallTakeKeeps(s, s', i); }
    else if LeaveStep(s, s', i) { LeaveKeeps(s, s', i); }
    else if DrainStep(s, s', i) { DrainKeeps(s, s', i); }
    else if ReleaseStep(s, s', i) { ReleaseKeeps(s, s', i); }
    else { ExecuteKeeps(s, s', i); }
  }

  lemma {:induction false} RunKeepsInv(run: seq<State>, n: nat)
    requires IsRun(run) && n < |run|
    ensures Inv(run[n])
  {
    hide Inv, Next, Init;
    if n == 0 {
      InitInv(run[0]);
    } else {
      RunKeepsInv(run, n - 1);
      assert Next(run[n - 1], run[n - 1 + 1]);
      NextKeeps(run[n - 1], run[n]);
    }
  }

  // ---------------------------------------------------------------- ownership

  /** The signal is not Free exactly when some thread owns it, and then exactly one does. */
  lemma OneOwner(run: seq<State>, n: nat)
    requires IsRun(run) && n < |run|
    ensures run[n].sig != Free <==> exists i :: 0 <= i < |run[n].threads| && Owns(run[n].threads[i])
    ensures forall i, j :: 0 <= i < j < |run[n].threads| ==> !Owns(run[n].threads[i]) || !Owns(run[n].threads[j])
  {
    RunKeepsInv(run, n);
    var s := run[n];
    if s.owner.Some? { assert Owns(s.threads[s.owner.value]); }
  }

  /** How history grows in one step: it is only added to, a new ticket is the next number, and every
      change of the listener list is recorded in `done`, by a thread that owns the signal. */
  ghost predicate Grows(s: State, s': State) {
    && s.pushed <= s'.pushed
    && (forall x :: x in s.worker ==> x in s'.worker)
    && (forall x :: x in s.ticket ==> x in s'.ticket && s'.ticket[x] == s.ticket[x])
    && (forall x :: x in s'.ticket && x !in s.ticket ==> s'.ticket[x] == |s.pushed|)
    && s.returned <= s'.returned
    && |s'.threads| == |s.threads|
    && (if s'.chainId == s.chainId then s'.released == s.released
        else s'.chainId > s.chainId && s'.released == |s.pushed|)
    && (s'.done != s.done || s'.listeners != s.listeners ==> SplicesNow(s, s'))
  }

  ghost predicate SplicesNow(s: State, s': State) {
    exists i: nat, x :: SplicedBy(s, s', i, x)
  }

  ghost predicate SplicedBy(s: State, s': State, i: nat, x: Splice) {
    && i < |s.threads|
    && (|| (s.threads[i] == DoSplice(x) && s'.threads == s.threads[i := SetFree(x)])
        || (s.threads[i].Execute? && s.threads[i].chain != [] && s.threads[i].chain[0] < |s.pushed|
            && s.pushed[s.threads[i].chain[0]] == SpliceThunk(x) && s.threads[i].chain[0] !in s.cancelled
            && s'.threads == s.threads[i := Execute(s.threads[i].chain[1..])]))
    && s'.done == s.done + [x] && s'.listeners == Spliced(s.listeners, x)
  }

  lemma BeginGrows(s: State, s': State, i: nat)
    requires (exists x :: StartSplice(s, s', i, x)) || (exists c :: StartCall(s, s', i, c)) || UpdateStep(s, s', i)
    ensures Grows(s, s')
  {
    hide SplicesNow;
  }

  lemma PushGrows(s: State, s': State, i: nat)
    requires PushSpliceStep(s, s', i) || PushCallStep(s, s', i)
    requires PushSpliceStep(s, s', i) ==> s.threads[i].x !in s.ticket
    ensures Grows(s, s')
  {
    hide SplicesNow;
  }

  lemma DeferGrows(s: State, s': State, i: nat)
    requires DeferStep(s, s', i) || CallDeferStep(s, s', i) || CancelStep(s, s', i)
    ensures Grows(s, s')
  {
    hide SplicesNow;
  }

  lemma TakeGrows(s: State, s': State, i: nat)
    requires TakeStep(s, s', i) || CallTakeStep(s, s', i) || CheckStep(s, s', i)
    ensures Grows(s, s')
  {
    hide SplicesNow;
  }

  lemma EnterGrows(s: State, s': State, i: nat)
    requires EnterStep(s, s', i) || RunStep(s, s', i) || FreeStep(s, s', i)
    ensures Grows(s, s')
  {
    hide SplicesNow;
  }

  lemma LeaveGrows(s: State, s': State, i: nat)
    requires LeaveStep(s, s', i) || DrainStep(s, s', i) || ReleaseStep(s, s', i)
    ensures Grows(s, s')
  {
    hide SplicesNow, Reverse;
  }

  lemma ListenersGrow(s: State, s': State, i: nat)
    requires SpliceStep(s, s', i) || ExecuteStep(s, s', i)
    ensures Grows(s, s')
  {
    hide Spliced;
    if SpliceStep(s, s', i) {
      assert SplicedBy(s, s', i, s.threads[i].x);
    } else if s.threads[i].chain != [] {
      var k := s.threads[i].chain[0];
      if Splices(s, k) { assert SplicedBy(s, s', i, s.pushed[k].x); }
    }
  }

  lemma NextGrows(s: State, s': State)
    requires Inv(s) && Next(s, s')
    ensures Grows(s, s')
  {
    hide Inv, Grows, UpdateStep, DeferStep, TakeStep, CheckStep, CancelStep, SpliceStep, FreeStep, EnterStep,
      RunStep, PushCallStep, CallDeferStep, CallTakeStep, LeaveStep, DrainStep, ReleaseStep, ExecuteStep,
      StartSplice, StartCall;
    var i: nat :| StepBy(s, s', i);
    if SpliceStep(s, s', i) || ExecuteStep(s, s', i) { ListenersGrow(s, s', i); }
    else if PushSpliceStep(s, s', i) || PushCallStep(s, s', i) {
      InvParts(s);
      if PushSpliceStep(s, s', i) { HeldIsOk(s, i); }
      PushGrows(s, s', i);
    }
    else if DeferStep(s, s', i) || CallDeferStep(s, s', i) || CancelStep(s, s', i) { DeferGrows(s, s', i); }
    else if TakeStep(s, s', i) || CallTakeStep(s, s', i) || CheckStep(s, s', i) { TakeGrows(s, s', i); }
    else if EnterStep(s, s', i) || RunStep(s, s', i) || FreeStep(s, s', i) { EnterGrows(s, s', i); }
    else if LeaveStep(s, s', i) || DrainStep(s, s', i) || ReleaseStep(s, s', i) { LeaveGrows(s, s', i); }
    else { BeginGrows(s, s', i); }
  }

  /** Only the owner touches the listener list, and every change of it is the performance of one request. */
  lemma OnlyOwnerSplices(s: State, s': State)
    requires Inv(s) && Next(s, s') && s'.listeners != s.listeners
    ensures s.owner.Some? && s.owner.value < |s.threads| && Owns(s.threads[s.owner.value])
    ensures |s'.threads| == |s.threads|
    ensures forall j :: 0 <= j < |s.threads| && s.owner != Some(j) ==> s'.threads[j] == s.threads[j]
    ensures exists x :: s'.done == s.done + [x] && s'.listeners == Spliced(s.listeners, x)
  {
    hide Inv, Next, OwnerOk, QueueOk, RequestsOk, DutyOk, Spliced;
    NextGrows(s, s');
    InvParts(s);
    var i: nat, x :| SplicedBy(s, s', i, x);
    ChainOfOwner(s.sig, s.owner, s.threads, i);
  }

  // ---------------------------------------------------------------- order of execution

  /** The thunks with the given tickets. */
  ghost function Thunks(pushed: seq<Thunk>, tickets: seq<nat>): (r: seq<Thunk>)
    requires forall m :: 0 <= m < |tickets| ==> tickets[m] < |pushed|
  {
    seq(|tickets|, m requires 0 <= m < |tickets| => pushed[tickets[m]])
  }

  lemma FirstThunks(pushed: seq<Thunk>, executed: seq<nat>)
    requires |executed| <= |pushed| && executed == Range(0, |executed|)
    ensures Thunks(pushed, executed) == pushed[..|executed|]
  {
    var r := Range(0, |executed|);
    forall m | 0 <= m < |executed| ensures Thunks(pushed, executed)[m] == pushed[..|executed|][m] {
      assert executed[m] == r[m];
    }
  }

  lemma QueueExecuted(list: seq<nat>, chain: seq<nat>, pushed: nat, released: nat, executed: seq<nat>)
    requires QueueOk(list, chain, pushed, released, executed)
    ensures |executed| <= pushed && executed == Range(0, |executed|)
  {}

  /** The thunks executed so far are a prefix of the thunks pushed so far: none is skipped, reordered or run twice. */
  lemma ExecutedInOrder(run: seq<State>, n: nat)
    requires IsRun(run) && n < |run|
    ensures forall m :: 0 <= m < |run[n].executed| ==> run[n].executed[m] < |run[n].pushed|
    ensures Thunks(run[n].pushed, run[n].executed) <= run[n].pushed
    ensures Distinct(run[n].executed)
  {
    hide RequestsOk, OwnerOk, DutyOk, QueueOk, ThreadsOk, TicketsOk, CallsOk, SpliceOk, DoneOk, OrderOk, ListenersOk;
    hide IsRun;
    RunKeepsInv(run, n);
    var s := run[n];
    QueueExecuted(s.list, Chain(s.owner, s.threads), |s.pushed|, s.released, s.executed);
    FirstThunks(s.pushed, s.executed);
  }

  // ---------------------------------------------------------------- requests

  /** Every request is performed at most once; the listeners are those linked and not unlinked; and while
      nobody asserts, every request that returned was performed. */
  lemma RequestsPerformedOnce(run: seq<State>, n: nat)
    requires IsRun(run) && n < |run|
    ensures Distinct(run[n].done)
    ensures Distinct(run[n].listeners)
    ensures forall e: nat :: e in run[n].listeners <==>
        Splice(Link, e) in run[n].done && Splice(Unlink, e) !in run[n].done
    ensures run[n].sig in {Free, Updating} ==> forall x :: x in run[n].returned ==> x in run[n].done
  {
    RunKeepsInv(run, n);
    var s := run[n];
    if s.sig in {Free, Updating} {
      forall x | x in s.returned ensures x in s.done {
        NoneReliedWhenQuiet(s, x);
      }
    }
  }

  /** The chain id tells a thread that took the signal whether the dispatcher got to its thunk first. When it
      did, the request is performed; when not, the thread cancels the thunk and performs the request itself.
      Either way the request is performed when the thread frees the signal and returns. */
  lemma ChainIdTells(run: seq<State>, n: nat, i: nat)
    requires IsRun(run) && n < |run| && i < |run[n].threads|
    ensures run[n].threads[i].CheckChain? ==>
      (run[n].chainId != run[n].threads[i].id <==> run[n].threads[i].x in run[n].done)
    ensures run[n].threads[i].DoSplice? ==> run[n].threads[i].x !in run[n].done
    ensures run[n].threads[i].SetFree? ==> run[n].threads[i].x in run[n].done
  {
    RunKeepsInv(run, n);
    var s := run[n];
    InvParts(s);
    if Holds(s.threads[i]).Some? {
      HeldIsOk(s, i);
      if s.threads[i].CheckChain? { ChainOfOwner(s.sig, s.owner, s.threads, i); }
    }
  }

  lemma NoneReliedWhenQuiet(s: State, x: Splice)
    requires Inv(s) && s.sig in {Free, Updating} && x in s.returned
    ensures x in s.done
  {
    hide TicketsOk, DoneOk, OrderOk, ListenersOk;
    assert SpliceOk(s, x);
    assert Chain(s.owner, s.threads) == [] && !Releasing(s.owner, s.threads);
  }

  /** A request that returned before it was performed has an owner: its thunk waits in the chain that
      the owner is executing, or the owner cannot leave without releasing the list it is in. */
  lemma EarlyReturnHasOwner(run: seq<State>, n: nat, x: Splice)
    requires IsRun(run) && n < |run| && x in run[n].returned && x !in run[n].done
    ensures var s := run[n];
      && x in s.ticket && s.ticket[x] < |s.pushed| && s.pushed[s.ticket[x]] == SpliceThunk(x) &&
          s.ticket[x] !in s.cancelled
      && s.owner.Some? && s.owner.value < |s.threads| && AssertOwner(s.threads[s.owner.value])
      && (|| s.ticket[x] in Chain(s.owner, s.threads)
          || (s.ticket[x] in s.list && (s.sig == Deferred || s.threads[s.owner.value] == Release)))
  {
    RunKeepsInv(run, n);
    var s := run[n];
    EarlyTicket(s, x);
    OwedTicket(s, s.ticket[x]);
  }

  lemma EarlyTicket(s: State, x: Splice)
    requires Inv(s) && x in s.returned && x !in s.done
    ensures x in s.ticket && s.ticket[x] < |s.pushed| && s.pushed[s.ticket[x]] == SpliceThunk(x)
    ensures s.ticket[x] in s.relied && s.ticket[x] >= |s.executed| && s.ticket[x] !in s.cancelled
  {
    hide OwnerOk, QueueOk, OrderOk, ListenersOk;
    assert SpliceOk(s, x);
  }

  /** What a thunk left to the owner can count on until it is executed. */
  lemma OwedTicket(s: State, k: nat)
    requires Inv(s) && k in s.relied && k >= |s.executed|
    ensures s.owner.Some? && s.owner.value < |s.threads| && AssertOwner(s.threads[s.owner.value])
    ensures || k in Chain(s.owner, s.threads)
            || (k in s.list && (s.sig == Deferred || s.threads[s.owner.value] == Release))
  {
    hide ThreadsOk, TicketsOk, SpliceOk, DoneOk, OrderOk, ListenersOk, CallsOk;
    var chain := Chain(s.owner, s.threads);
    if k < s.released {
      assert chain[k - |s.executed|] == k;
    } else {
      var r := Range(s.released, |s.pushed|);
      assert r[k - s.released] == k;
      assert s.list[|r| - 1 - (k - s.released)] == k;
    }
  }

  /** A handoff that returned by way of Deferred has run by the time the signal is Free again. */
  lemma HandoffByDeferredRuns(run: seq<State>, n: nat, k: nat)
    requires IsRun(run) && n < |run| && k in run[n].relied
    ensures run[n].sig in {Free, Updating} ==> k in run[n].executed
  {
    RunKeepsInv(run, n);
    var s := run[n];
    if k >= |s.executed| {
      OwedTicket(s, k);
      assert AssertOwner(s.threads[s.owner.value]);
    } else {
      assert s.executed[k] == k;
    }
  }

  // ---------------------------------------------------------------- one order for all requests

  /** The listener list that performing requests in this order gives. */
  ghost function Replay(done: seq<Splice>): seq<nat> {
    if done == [] then [] else Spliced(Replay(done[..|done| - 1]), done[|done| - 1])
  }

  lemma ReplayStep(done: seq<Splice>, x: Splice)
    ensures Replay(done + [x]) == Spliced(Replay(done), x)
  {
    assert (done + [x])[..|done|] == done;
  }

  /** The listener list is what performing the requests one after the other gives. */
  lemma {:induction false} ListenersReplay(run: seq<State>, n: nat)
    requires IsRun(run) && n < |run|
    ensures run[n].listeners == Replay(run[n].done)
  {
    hide Inv, Next, Spliced;
    if n > 0 {
      ListenersReplay(run, n - 1);
      RunKeepsInv(run, n - 1);
      var s, s' := run[n - 1], run[n - 1 + 1];
      assert Next(s, s');
      NextGrows(s, s');
      if s'.done != s.done || s'.listeners != s.listeners {
        var i: nat, x :| SplicedBy(s, s', i, x);
        ReplayStep(s.done, x);
      }
    }
  }

  /** Listeners stand in the order in which they were linked. */
  ghost predicate InLinkOrder(listeners: seq<nat>, done: seq<Splice>) {
    forall a, b :: 0 <= a < b < |listeners| ==> LinkedBefore(done, listeners[a], listeners[b])
  }

  ghost predicate LinkedBefore(done: seq<Splice>, d: nat, e: nat) {
    exists p, q :: 0 <= p < q < |done| && done[p] == Splice(Link, d) && done[q] == Splice(Link, e)
  }

  lemma BeforeStays(done: seq<Splice>, x: Splice, d: nat, e: nat)
    requires LinkedBefore(done, d, e) || (Splice(Link, d) in done && x == Splice(Link, e))
    ensures LinkedBefore(done + [x], d, e)
  {
    if LinkedBefore(done, d, e) {
      var p, q :| 0 <= p < q < |done| && done[p] == Splice(Link, d) && done[q] == Splice(Link, e);
      assert (done + [x])[p] == done[p] && (done + [x])[q] == done[q];
    } else {
      var p :| 0 <= p < |done| && done[p] == Splice(Link, d);
      assert (done + [x])[p] == done[p] && (done + [x])[|done|] == x;
    }
  }

  /** Taking out one entry leaves the rest as they stood. */
  lemma {:induction false} RemovedAt(q: seq<nat>, e: nat) returns (m: nat)
    ensures m <= |q| && Remove(q, e) == if m == |q| then q else q[..m] + q[m + 1..]
  {
    if q == [] { m := 0; }
    else if q[0] == e { m := 0; }
    else {
      var r := RemovedAt(q[1..], e);
      m := r + 1;
      assert q == [q[0]] + q[1..];
    }
  }

  lemma LinkInOrder(listeners: seq<nat>, done: seq<Splice>, x: Splice)
    requires InLinkOrder(listeners, done) && ListenersOk(listeners, done) && x.op == Link
    ensures InLinkOrder(listeners + [x.entry], done + [x])
  {
    hide LinkedBefore;
    var l := listeners + [x.entry];
    forall a, b | 0 <= a < b < |l| ensures LinkedBefore(done + [x], l[a], l[b]) {
      assert l[a] == listeners[a] && listeners[a] in listeners;
      assert b < |listeners| ==> LinkedBefore(done, listeners[a], listeners[b]);
      BeforeStays(done, x, l[a], l[b]);
    }
  }

  lemma UnlinkInOrder(listeners: seq<nat>, done: seq<Splice>, x: Splice)
    requires InLinkOrder(listeners, done)
    ensures InLinkOrder(Remove(listeners, x.entry), done + [x])
  {
    hide LinkedBefore, Remove;
    var m := RemovedAt(listeners, x.entry);
    var l := Remove(listeners, x.entry);
    forall a, b | 0 <= a < b < |l| ensures LinkedBefore(done + [x], l[a], l[b]) {
      var c, d := if a < m then a else a + 1, if b < m then b else b + 1;
      assert LinkedBefore(done, listeners[c], listeners[d]);
      BeforeStays(done, x, l[a], l[b]);
    }
  }

  lemma SpliceInOrder(listeners: seq<nat>, done: seq<Splice>, x: Splice)
    requires InLinkOrder(listeners, done) && ListenersOk(listeners, done)
    ensures InLinkOrder(Spliced(listeners, x), done + [x])
  {
    hide InLinkOrder, ListenersOk, Remove;
    if x.op == Link { LinkInOrder(listeners, done, x); } else { UnlinkInOrder(listeners, done, x); }
  }

  lemma {:induction false} ListenersInOrder(run: seq<State>, n: nat)
    requires IsRun(run) && n < |run|
    ensures InLinkOrder(run[n].listeners, run[n].done)
  {
    hide Inv, Next, Spliced, InLinkOrder, ListenersOk, OwnerOk, QueueOk, BooksOk, DutyOk;
    if n == 0 {
      NoListeners(run[0]);
    } else {
      ListenersInOrder(run, n - 1);
      RunKeepsInv(run, n - 1);
      var s, s' := run[n - 1], run[n - 1 + 1];
      assert Next(s, s');
      NextGrows(s, s');
      ListenersPart(s);
      if s'.done != s.done || s'.listeners != s.listeners {
        var i: nat, x :| SplicedBy(s, s', i, x);
        SpliceInOrder(s.listeners, s.done, x);
      }
    }
  }

  lemma NoListeners(s: State)
    requires Init(s)
    ensures InLinkOrder(s.listeners, s.done)
  {}

  lemma ListenersPart(s: State)
    requires Inv(s)
    ensures ListenersOk(s.listeners, s.done)
  {
    hide ListenersOk, OwnerOk, QueueOk, ThreadsOk, TicketsOk, CallsOk, SpliceOk, DoneOk, DutyOk, OrderOk;
  }

  lemma ThunkTicket(s: State, k: nat, y: Splice)
    requires Inv(s) && k < |s.pushed| && s.pushed[k] == SpliceThunk(y)
    ensures y in s.ticket && s.ticket[y] == k
  {
    hide OwnerOk, QueueOk, ThreadsOk, CallsOk, SpliceOk, DoneOk, DutyOk, OrderOk, ListenersOk;
  }

  /** Before `y` is performed, every request that returned is, unless its thunk is behind that of `y`. */
  lemma PerformedAfter(s: State, s': State, i: nat, x: Splice, y: Splice)
    requires Inv(s) && SplicedBy(s, s', i, y) && x in s.returned && x !in s.done && x != y
    ensures x in s.ticket && y in s.ticket && s.ticket[y] < s.ticket[x]
  {
    hide Inv, RequestsOk, OwnerOk, QueueOk, DutyOk, Spliced;
    InvParts(s);
    EarlyTicket(s, x);
    ChainOfOwner(s.sig, s.owner, s.threads, i);
    OwnsFacts(s.sig, s.owner, s.threads, i);
    if s.threads[i] == DoSplice(y) {
      NoneReliedWhenQuiet(s, x);
    } else {
      ExecuteQueue(s.list, s.threads[i].chain, |s.pushed|, s.released, s.executed);
      ThunkTicket(s, s.threads[i].chain[0], y);
    }
  }

  /** Everything a run has recorded stays recorded. */
  lemma {:induction false} RunGrows(run: seq<State>, n: nat, m: nat)
    requires IsRun(run) && n <= m < |run|
    ensures run[n].pushed <= run[m].pushed
    ensures run[n].done <= run[m].done
    ensures run[n].returned <= run[m].returned
    ensures forall x :: x in run[n].ticket ==> x in run[m].ticket && run[m].ticket[x] == run[n].ticket[x]
    ensures forall x :: x in run[m].ticket && x !in run[n].ticket ==> run[m].ticket[x] >= |run[n].pushed|
    ensures run[n].chainId <= run[m].chainId
    ensures run[n].chainId == run[m].chainId ==> run[m].released == run[n].released
    ensures run[n].chainId < run[m].chainId ==> run[m].released >= |run[n].pushed|
  {
    hide Inv, Next, Spliced;
    if n < m {
      RunGrows(run, n, m - 1);
      RunKeepsInv(run, m - 1);
      var s, s' := run[m - 1], run[m - 1 + 1];
      assert Next(s, s');
      NextGrows(s, s');
      if s'.done != s.done { var i: nat, x :| SplicedBy(s, s', i, x); }
    }
  }

  /** Requests are performed in an order that agrees with real time: a request that returned before another
      one began is performed before it, even when it returned before it was performed. */
  lemma {:induction false} RealTimeOrder(run: seq<State>, n: nat, m: nat, x: Splice, y: Splice)
    requires IsRun(run) && n <= m < |run|
    requires x in run[n].returned && y !in run[n].worker && y in run[m].done
    ensures exists p, q :: 0 <= p < q < |run[m].done| && run[m].done[p] == x && run[m].done[q] == y
  {
    hide Inv, Next, Spliced, IsRun;
    RunKeepsInv(run, n);
    DoneBegan(run[n]);
    assert y !in run[n].done;
    RunStep1(run, m - 1);
    var s, s' := run[m - 1], run[m];
    RunKeepsInv(run, m - 1);
    NextGrows(s, s');
    RunGrows(run, n, m - 1);
    if y in s.done {
      RealTimeOrder(run, n, m - 1, x, y);
      var p, q :| 0 <= p < q < |s.done| && s.done[p] == x && s.done[q] == y;
      RunGrows(run, m - 1, m);
      assert s'.done[p] == x && s'.done[q] == y;
    } else {
      var i: nat, z :| SplicedBy(s, s', i, z);
      assert z == y;
      if x !in s.done {
        PerformedAfter(s, s', i, x, y);
        ReturnedTicket(run, n, m - 1, x, y);
      }
      var p :| 0 <= p < |s.done| && s.done[p] == x;
      assert s'.done[p] == x && s'.done[|s.done|] == y;
    }
  }

  lemma RunStep1(run: seq<State>, n: nat)
    requires IsRun(run) && n + 1 < |run|
    ensures Next(run[n], run[n + 1])
  {
    hide Next;
  }

  lemma PrefixHas(done: seq<Splice>, done': seq<Splice>, x: Splice)
    requires done <= done'
    ensures x in done ==> x in done'
  {
    if x in done {
      var p :| 0 <= p < |done| && done[p] == x;
      assert done'[p] == x;
    }
  }

  lemma DoneBegan(s: State)
    requires Inv(s)
    ensures forall x :: x in s.done || x in s.returned ==> x in s.worker
    ensures forall x :: x in s.ticket ==> x in s.worker && s.ticket[x] < |s.pushed|
  {
    hide OwnerOk, QueueOk, SpliceOk, ListenersOk;
  }

  /** A thunk of a request that began later has a higher ticket. */
  lemma ReturnedTicket(run: seq<State>, n: nat, m: nat, x: Splice, y: Splice)
    requires IsRun(run) && n <= m < |run| && x in run[n].returned && y !in run[n].worker
    requires x !in run[m].done && x in run[m].ticket && y in run[m].ticket
    ensures run[m].ticket[x] < run[m].ticket[y]
  {
    hide Inv, Next, Spliced, IsRun;
    RunKeepsInv(run, n);
    RunGrows(run, n, m);
    DoneBegan(run[n]);
    PrefixHas(run[n].done, run[m].done, x);
    EarlyTicket(run[n], x);
  }
}
