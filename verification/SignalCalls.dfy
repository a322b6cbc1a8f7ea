/** The calls of a signal: each call that is begun is made once, by the thread that began it or by the
    owner that executes its thunk, except for calls whose thunk stays in the list. */
module SignalCalls {
  import opened Prelude
  import opened SignalProtocol
  import opened SignalInvariant
  import opened SignalSteps
  import opened SignalSafety

  /** The call a thread has begun and has neither made nor handed off. */
  function Carries(pc: Pc): Option<nat> {
    match pc
    case Enter(c) => Some(c)
    case Running(c) => Some(c)
    case PushCall(c) => Some(c)
    case _ => None
  }

  ghost predicate IsMade(made: seq<Made>, c: nat) {
    exists p :: 0 <= p < |made| && made[p].call == c
  }

  ghost predicate CarriedOk(threads: seq<Pc>, calls: Calls) {
    && (forall i :: 0 <= i < |threads| && Carries(threads[i]).Some? ==>
          var c := Carries(threads[i]).value;
          c in calls.caller && calls.caller[c] == i && c !in calls.handed && !IsMade(calls.made, c))
    && (forall c :: c in calls.caller ==>
          && calls.caller[c] < |threads|
          && (c in calls.handed || IsMade(calls.made, c) || Carries(threads[calls.caller[c]]) == Some(c)))
  }

  ghost predicate HandedOk(pushed: seq<Thunk>, calls: Calls) {
    && (forall k :: 0 <= k < |pushed| && pushed[k].Callable? ==>
          pushed[k].id in calls.handed && calls.handed[pushed[k].id] == k)
    && (forall c :: c in calls.handed ==>
          c in calls.caller && calls.handed[c] < |pushed| && pushed[calls.handed[c]] == Callable(c))
  }

  ghost predicate MadeOk(calls: Calls, executed: nat) {
    && (forall p, q :: 0 <= p < q < |calls.made| ==> calls.made[p].call != calls.made[q].call)
    && (forall p :: 0 <= p < |calls.made| ==>
          && calls.made[p].call in calls.caller
          && (calls.made[p].call !in calls.handed ==> calls.made[p].thread == calls.caller[calls.made[p].call]))
    && (forall c :: c in calls.handed ==> (IsMade(calls.made, c) <==> calls.handed[c] < executed))
  }

  /** The thread that handed off a call is still at it, or has left it to the owner, or took the signal. */
  ghost predicate FateOk(
    threads: seq<Pc>, pushed: seq<Thunk>, caller: map<nat, nat>, relied: set<nat>, took: set<nat>)
  {
    && (forall i :: 0 <= i < |threads| && CallTicket(threads[i]).Some? ==>
          var k := CallTicket(threads[i]).value;
          && k < |pushed| && pushed[k].Callable? && pushed[k].id in caller && caller[pushed[k].id] == i
          && k !in relied && k !in took)
    && (forall k :: 0 <= k < |pushed| && pushed[k].Callable? ==>
          && pushed[k].id in caller && caller[pushed[k].id] < |threads|
          && (k in relied || k in took || CallTicket(threads[caller[pushed[k].id]]) == Some(k)))
    && (forall k :: k in took ==> k < |pushed| && pushed[k].Callable? && k !in relied)
  }

  ghost predicate CallInv(s: State) {
    && CarriedOk(s.threads, s.calls)
    && HandedOk(s.pushed, s.calls)
    && MadeOk(s.calls, |s.executed|)
    && FateOk(s.threads, s.pushed, s.calls.caller, s.relied, s.calls.took)
  }

  lemma InitCalls(s: State)
    requires Init(s)
    ensures CallInv(s)
  {}

  // ---------------------------------------------------------------- steps

  /** Adding one call to those made. */
  lemma MadeMore(made: seq<Made>, m: Made)
    ensures forall c: nat :: IsMade(made + [m], c) <==> IsMade(made, c) || c == m.call
  {
    forall c: nat ensures IsMade(made + [m], c) <==> IsMade(made, c) || c == m.call {
      if c == m.call { assert (made + [m])[|made|].call == c; }
      if IsMade(made, c) {
        var p :| 0 <= p < |made| && made[p].call == c;
        assert (made + [m])[p].call == c;
      }
    }
  }

  /** A step that concerns no call. */
  lemma MoveCarried(threads: seq<Pc>, calls: Calls, i: nat, pc: Pc)
    requires CarriedOk(threads, calls) && i < |threads| && Carries(pc) == Carries(threads[i])
    ensures CarriedOk(threads[i := pc], calls)
  {}

  lemma MoveFate(threads: seq<Pc>, pushed: seq<Thunk>, caller: map<nat, nat>, relied: set<nat>, took: set<nat>,
      i: nat, pc: Pc)
    requires FateOk(threads, pushed, caller, relied, took) && i < |threads|
    requires CallTicket(pc) == CallTicket(threads[i])
    ensures FateOk(threads[i := pc], pushed, caller, relied, took)
  {}

  lemma MoveCalls(s: State, s': State, i: nat, pc: Pc)
    requires CallInv(s) && i < |s.threads| && s'.threads == s.threads[i := pc]
    requires Carries(pc) == Carries(s.threads[i]) && CallTicket(pc) == CallTicket(s.threads[i])
    requires s'.calls == s.calls && s'.pushed == s.pushed && s'.executed == s.executed && s'.relied == s.relied
    ensures CallInv(s')
  {
    hide CarriedOk, HandedOk, MadeOk, FateOk;
    MoveCarried(s.threads, s.calls, i, pc);
    MoveFate(s.threads, s.pushed, s.calls.caller, s.relied, s.calls.took, i, pc);
  }

  lemma StartCarried(threads: seq<Pc>, calls: Calls, i: nat, c: nat)
    requires CarriedOk(threads, calls) && i < |threads| && threads[i] == Idle
    requires c !in calls.caller && c !in calls.handed && !IsMade(calls.made, c)
    ensures CarriedOk(threads[i := Enter(c)], calls.(caller := calls.caller[c := i]))
  {
    hide IsMade;
  }

  lemma StartMade(calls: Calls, executed: nat, i: nat, c: nat)
    requires MadeOk(calls, executed) && c !in calls.caller
    ensures MadeOk(calls.(caller := calls.caller[c := i]), executed) && !IsMade(calls.made, c)
  {
    hide IsMade;
    NewCall(calls, executed, c);
  }

  lemma NewCall(calls: Calls, executed: nat, c: nat)
    requires MadeOk(calls, executed) && c !in calls.caller
    ensures !IsMade(calls.made, c)
  {}

  lemma StartFate(threads: seq<Pc>, pushed: seq<Thunk>, caller: map<nat, nat>, relied: set<nat>, took: set<nat>,
      i: nat, c: nat)
    requires FateOk(threads, pushed, caller, relied, took) && i < |threads| && threads[i] == Idle && c !in caller
    ensures FateOk(threads[i := Enter(c)], pushed, caller[c := i], relied, took)
  {}

  lemma StartCallCalls(s: State, s': State, i: nat, c: nat)
    requires CallInv(s) && StartCall(s, s', i, c)
    ensures CallInv(s')
  {
    hide CarriedOk, MadeOk, FateOk, IsMade;
    StartMade(s.calls, |s.executed|, i, c);
    StartCarried(s.threads, s.calls, i, c);
    StartFate(s.threads, s.pushed, s.calls.caller, s.relied, s.calls.took, i, c);
  }

  lemma RunCalls(s: State, s': State, i: nat)
    requires CallInv(s) && RunStep(s, s', i)
    ensures CallInv(s')
  {
    hide IsMade, FateOk;
    MadeMore(s.calls.made, Made(s.threads[i].c, i));
    MadeNow(s, i);
    MoveFate(s.threads, s.pushed, s.calls.caller, s.relied, s.calls.took, i, Leave);
  }

  lemma MadeNow(s: State, i: nat)
    requires CarriedOk(s.threads, s.calls) && i < |s.threads| && Carries(s.threads[i]).Some?
    ensures forall p :: 0 <= p < |s.calls.made| ==> s.calls.made[p].call != Carries(s.threads[i]).value
  {}

  lemma PushFate(threads: seq<Pc>, pushed: seq<Thunk>, caller: map<nat, nat>, relied: set<nat>, took: set<nat>,
      i: nat, c: nat)
    requires FateOk(threads, pushed, caller, relied, took) && i < |threads|
    requires CallTicket(threads[i]).None? && c in caller && caller[c] == i && |pushed| !in relied
    ensures FateOk(threads[i := CallDefer(|pushed|)], pushed + [Callable(c)], caller, relied, took)
  {}

  lemma PushCallCalls(s: State, s': State, i: nat)
    requires CallInv(s) && PushCallStep(s, s', i) && |s.executed| <= |s.pushed| && |s.pushed| !in s.relied
    ensures CallInv(s')
  {
    hide IsMade, FateOk;
    assert Carries(s.threads[i]) == Some(s.threads[i].c);
    PushFate(s.threads, s.pushed, s.calls.caller, s.relied, s.calls.took, i, s.threads[i].c);
  }

  lemma PushSpliceCalls(s: State, s': State, i: nat)
    requires CallInv(s) && PushSpliceStep(s, s', i)
    ensures CallInv(s')
  {
    hide IsMade, MadeOk;
    MoveCarried(s.threads, s.calls, i, s'.threads[i]);
  }

  lemma DeferFate(threads: seq<Pc>, pushed: seq<Thunk>, caller: map<nat, nat>, relied: set<nat>, took: set<nat>,
      i: nat, pc: Pc, k: nat)
    requires FateOk(threads, pushed, caller, relied, took) && i < |threads| && k < |pushed|
    requires CallTicket(pc).None?
    requires CallTicket(threads[i]) == if pushed[k].Callable? then Some(k) else None
    ensures FateOk(threads[i := pc], pushed, caller, relied + {k}, took)
    ensures pushed[k].Callable? ==> FateOk(threads[i := pc], pushed, caller, relied, took + {k})
  {}

  lemma DeferCalls(s: State, s': State, i: nat)
    requires CallInv(s) && DeferStep(s, s', i)
    requires s.threads[i].k < |s.pushed| && s.pushed[s.threads[i].k].SpliceThunk?
    ensures CallInv(s')
  {
    hide CarriedOk, HandedOk, MadeOk, FateOk;
    var TryDefer(x, k, id) := s.threads[i];
    if s' == At(s, i, TryTake(x, k, id)) {
      MoveCalls(s, s', i, TryTake(x, k, id));
    } else {
      MoveCarried(s.threads, s.calls, i, Idle);
      DeferFate(s.threads, s.pushed, s.calls.caller, s.relied, s.calls.took, i, Idle, k);
    }
  }

  lemma TicketPushed(s: State, i: nat)
    requires CallInv(s) && i < |s.threads| && CallTicket(s.threads[i]).Some?
    ensures var k := CallTicket(s.threads[i]).value; k < |s.pushed| && s.pushed[k].Callable?
  {
    hide CarriedOk, HandedOk, MadeOk;
  }

  lemma CallDeferCalls(s: State, s': State, i: nat)
    requires CallInv(s) && CallDeferStep(s, s', i)
    ensures CallInv(s')
  {
    hide CarriedOk, HandedOk, MadeOk, FateOk;
    var k := s.threads[i].k;
    if s' == At(s, i, CallTake(k)) {
      MoveCalls(s, s', i, CallTake(k));
    } else {
      TicketPushed(s, i);
      MoveCarried(s.threads, s.calls, i, Idle);
      DeferFate(s.threads, s.pushed, s.calls.caller, s.relied, s.calls.took, i, Idle, k);
    }
  }

  lemma TookElsewhere(threads: seq<Pc>, calls: Calls, executed: nat, took: set<nat>)
    ensures CarriedOk(threads, calls.(took := took)) == CarriedOk(threads, calls)
    ensures MadeOk(calls.(took := took), executed) == MadeOk(calls, executed)
  {
    hide IsMade;
  }

  lemma CallTakeCalls(s: State, s': State, i: nat)
    requires CallInv(s) && CallTakeStep(s, s', i)
    ensures CallInv(s')
  {
    hide CarriedOk, MadeOk, FateOk;
    var k := s.threads[i].k;
    if s' == At(s, i, CallDefer(k)) {
      MoveCalls(s, s', i, CallDefer(k));
    } else {
      TicketPushed(s, i);
      MoveCarried(s.threads, s.calls, i, Leave);
      TookElsewhere(s'.threads, s.calls, |s.executed|, s'.calls.took);
      DeferFate(s.threads, s.pushed, s.calls.caller, s.relied, s.calls.took, i, Leave, k);
    }
  }

  /** Executing the thunk of a call makes the call. */
  lemma ExecuteMade(calls: Calls, pushed: seq<Thunk>, executed: nat, i: nat)
    requires HandedOk(pushed, calls) && MadeOk(calls, executed) && executed < |pushed|
    ensures pushed[executed].SpliceThunk? ==> MadeOk(calls, executed + 1)
    ensures pushed[executed].Callable? ==>
      MadeOk(calls.(made := calls.made + [Made(pushed[executed].id, i)]), executed + 1)
  {
    hide IsMade;
    if pushed[executed].Callable? {
      var c := pushed[executed].id;
      MadeMore(calls.made, Made(c, i));
      NotMade(calls.made, c);
    }
  }

  lemma NotMade(made: seq<Made>, c: nat)
    ensures !IsMade(made, c) ==> forall p :: 0 <= p < |made| ==> made[p].call != c
  {}

  lemma ExecuteCarried(threads: seq<Pc>, calls: Calls, m: Made)
    requires CarriedOk(threads, calls) && m.call in calls.handed
    ensures CarriedOk(threads, calls.(made := calls.made + [m]))
  {
    hide IsMade;
    MadeMore(calls.made, m);
  }

  lemma ExecuteCalls(s: State, s': State, i: nat)
    requires CallInv(s) && ExecuteStep(s, s', i)
    requires s.threads[i].chain != [] ==> s.threads[i].chain[0] == |s.executed|
    ensures CallInv(s')
  {
    hide CarriedOk, MadeOk, FateOk, Spliced;
    if s.threads[i].chain == [] {
      MoveCalls(s, s', i, Leave);
    } else {
      var k := |s.executed|;
      var pc := Execute(s.threads[i].chain[1..]);
      MoveCarried(s.threads, s.calls, i, pc);
      MoveFate(s.threads, s.pushed, s.calls.caller, s.relied, s.calls.took, i, pc);
      ExecuteMade(s.calls, s.pushed, k, i);
      if s.pushed[k].Callable? { ExecuteCarried(s'.threads, s.calls, Made(s.pushed[k].id, i)); }
    }
  }

  lemma UpdateCalls(s: State, s': State, i: nat)
    requires CallInv(s)
    requires UpdateStep(s, s', i) || TakeStep(s, s', i) || CheckStep(s, s', i)
    ensures CallInv(s')
  {
    hide CallInv;
    MoveCalls(s, s', i, s'.threads[i]);
  }

  lemma SpliceCalls(s: State, s': State, i: nat)
    requires CallInv(s)
    requires CancelStep(s, s', i) || SpliceStep(s, s', i) || FreeStep(s, s', i)
    ensures CallInv(s')
  {
    hide CallInv, Spliced;
    MoveCalls(s, s', i, s'.threads[i]);
  }

  lemma EnterCalls(s: State, s': State, i: nat)
    requires CallInv(s)
    requires EnterStep(s, s', i) || LeaveStep(s, s', i)
    ensures CallInv(s')
  {
    hide CallInv;
    MoveCalls(s, s', i, s'.threads[i]);
  }

  lemma DrainCalls(s: State, s': State, i: nat)
    requires CallInv(s)
    requires DrainStep(s, s', i) || ReleaseStep(s, s', i)
    ensures CallInv(s')
  {
    hide CallInv, Reverse;
    MoveCalls(s, s', i, s'.threads[i]);
  }

  /** What the steps that push and execute thunks need to know of the requests. */
  lemma QueueFacts(s: State, i: nat)
    requires Inv(s) && i < |s.threads|
    ensures |s.executed| <= |s.pushed| && |s.pushed| !in s.relied
    ensures s.threads[i].TryDefer? ==> s.threads[i].k < |s.pushed| && s.pushed[s.threads[i].k].SpliceThunk?
    ensures s.threads[i].Execute? && s.threads[i].chain != [] ==> s.threads[i].chain[0] == |s.executed|
  {
    hide ThreadsOk, OwnerOk, QueueOk, DoneOk, OrderOk, ListenersOk, CallsOk;
    InvParts(s);
    QueueSizes(s.list, Chain(s.owner, s.threads), |s.pushed|, s.released, s.executed);
    if s.threads[i].TryDefer? { HeldIsOk(s, i); }
    if s.threads[i].Execute? && s.threads[i].chain != [] {
      ChainOfOwner(s.sig, s.owner, s.threads, i);
      ExecuteQueue(s.list, s.threads[i].chain, |s.pushed|, s.released, s.executed);
    }
  }

  lemma NextKeepsCalls(s: State, s': State)
    requires Inv(s) && CallInv(s) && Next(s, s')
    ensures CallInv(s')
  {
    hide Inv, CallInv, UpdateStep, TakeStep, CheckStep, CancelStep, SpliceStep, FreeStep, EnterStep,
      RunStep, LeaveStep, DrainStep, ReleaseStep, StartSplice, StartCall, PushCallStep, PushSpliceStep, DeferStep,
      CallDeferStep, CallTakeStep, ExecuteStep;
    var i: nat :| StepBy(s, s', i);
    StepThread(s, s', i);
    QueueFacts(s, i);
    if x :| StartSplice(s, s', i, x) { StartSpliceCalls(s, s', i, x); }
    else if c :| StartCall(s, s', i, c) { StartCallCalls(s, s', i, c); }
    else if PushSpliceStep(s, s', i) { PushSpliceCalls(s, s', i); }
    else if DeferStep(s, s', i) { TriesDefer(s, s', i); DeferCalls(s, s', i); }
    else if RunStep(s, s', i) { RunCalls(s, s', i); }
    else if PushCallStep(s, s', i) { PushCallCalls(s, s', i); }
    else if CallDeferStep(s, s', i) { CallDeferCalls(s, s', i); }
    else if CallTakeStep(s, s', i) { CallTakeCalls(s, s', i); }
    else if ExecuteStep(s, s', i) { Executes(s, s', i); ExecuteCalls(s, s', i); }
    else if EnterStep(s, s', i) || LeaveStep(s, s', i) { EnterCalls(s, s', i); }
    else if DrainStep(s, s', i) || ReleaseStep(s, s', i) { DrainCalls(s, s', i); }
    else if CancelStep(s, s', i) || SpliceStep(s, s', i) || FreeStep(s, s', i) { SpliceCalls(s, s', i); }
    else { UpdateCalls(s, s', i); }
  }

  lemma StartSpliceCalls(s: State, s': State, i: nat, x: Splice)
    requires CallInv(s) && StartSplice(s, s', i, x)
    ensures CallInv(s')
  {
    hide CallInv;
    MoveCalls(s, s', i, TryUpdate(x));
  }

  lemma StepThread(s: State, s': State, i: nat)
    requires StepBy(s, s', i)
    ensures i < |s.threads|
  {
    hide Spliced, Reverse;
  }

  lemma TriesDefer(s: State, s': State, i: nat)
    requires DeferStep(s, s', i)
    ensures s.threads[i].TryDefer?
  {}

  lemma Executes(s: State, s': State, i: nat)
    requires ExecuteStep(s, s', i)
    ensures s.threads[i].Execute?
  {}

  lemma {:induction false} RunKeepsCalls(run: seq<State>, n: nat)
    requires IsRun(run) && n < |run|
    ensures CallInv(run[n])
  {
    hide Inv, CallInv, Next, Init;
    if n == 0 {
      InitCalls(run[0]);
    } else {
      RunKeepsCalls(run, n - 1);
      RunKeepsInv(run, n - 1);
      assert Next(run[n - 1], run[n - 1 + 1]);
      NextKeepsCalls(run[n - 1], run[n]);
    }
  }

  // ---------------------------------------------------------------- what becomes of a call

  /** The call was made, by that thread. */
  ghost predicate MadeBy(s: State, c: nat, i: nat) {
    exists p :: 0 <= p < |s.calls.made| && s.calls.made[p] == Made(c, i)
  }

  ghost predicate NeverPushed(s: State, c: nat) {
    forall k :: 0 <= k < |s.pushed| ==> s.pushed[k] != Callable(c)
  }

  /** The thunk with that ticket, and no other, makes the call. */
  ghost predicate PushedOnce(s: State, c: nat, k: nat) {
    && k < |s.pushed| && s.pushed[k] == Callable(c)
    && forall j :: 0 <= j < |s.pushed| && j != k ==> s.pushed[j] != Callable(c)
  }

  /** No call is lost and none is made twice: a call that was begun is with its thread, or was made by its
      thread and never pushed, or was pushed once and is made when its thunk is executed. */
  lemma CallsAccounted(run: seq<State>, n: nat, c: nat)
    requires IsRun(run) && n < |run| && c in run[n].calls.caller
    ensures forall p, q :: 0 <= p < q < |run[n].calls.made| ==> run[n].calls.made[p].call != run[n].calls.made[q].call
    ensures var s := run[n];
      var i := s.calls.caller[c];
      && i < |s.threads|
      && (Carries(s.threads[i]) == Some(c) ==> NeverPushed(s, c) && !IsMade(s.calls.made, c))
      && (Carries(s.threads[i]) != Some(c) && NeverPushed(s, c) ==> MadeBy(s, c, i))
      && (!NeverPushed(s, c) ==> exists k: nat ::
            PushedOnce(s, c, k) && (IsMade(s.calls.made, c) <==> k < |s.executed|))
  {
    hide Inv, IsRun, FateOk;
    RunKeepsCalls(run, n);
    var s := run[n];
    if c in s.calls.handed {
      assert PushedOnce(s, c, s.calls.handed[c]);
    } else if IsMade(s.calls.made, c) {
      var p :| 0 <= p < |s.calls.made| && s.calls.made[p].call == c;
      assert s.calls.made[p] == Made(c, s.calls.caller[c]);
    }
  }

  /** A call whose thread has returned was made by that thread, or is pushed, once: then it was left to the
      owner by way of Deferred, and is made when the signal is free, or its own thread took the signal. */
  lemma ReturnedCall(run: seq<State>, n: nat, c: nat)
    requires IsRun(run) && n < |run| && c in run[n].calls.caller
    requires var s := run[n]; s.calls.caller[c] < |s.threads| ==> s.threads[s.calls.caller[c]] == Idle
    ensures var s := run[n];
      || (MadeBy(s, c, s.calls.caller[c]) && NeverPushed(s, c))
      || (exists k: nat ::
            && PushedOnce(s, c, k)
            && (IsMade(s.calls.made, c) <==> k < |s.executed|)
            && (k in s.relied <==> k !in s.calls.took)
            && (k in s.relied && s.sig in {Free, Updating} ==> IsMade(s.calls.made, c)))
  {
    hide Inv, IsRun, CarriedOk, HandedOk, MadeOk, IsMade;
    CallsAccounted(run, n, c);
    RunKeepsCalls(run, n);
    var s := run[n];
    if !NeverPushed(s, c) {
      var k: nat :| PushedOnce(s, c, k) && (IsMade(s.calls.made, c) <==> k < |s.executed|);
      Caller(s, c, k);
      if k in s.relied && s.sig in {Free, Updating} {
        HandoffByDeferredRuns(run, n, k);
        RunKeepsInv(run, n);
        ExecutedBelow(s, k);
      }
    }
  }

  lemma Caller(s: State, c: nat, k: nat)
    requires CallInv(s) && PushedOnce(s, c, k) && c in s.calls.caller
    requires s.calls.caller[c] < |s.threads| ==> s.threads[s.calls.caller[c]] == Idle
    ensures k in s.relied <==> k !in s.calls.took
  {
    hide CarriedOk, HandedOk, MadeOk;
  }

  lemma ExecutedBelow(s: State, k: nat)
    requires Inv(s)
    ensures k in s.executed <==> k < |s.executed|
  {
    hide RequestsOk, OwnerOk, DutyOk, ThreadsOk, TicketsOk, CallsOk, SpliceOk, DoneOk, OrderOk, ListenersOk;
    if k < |s.executed| { assert s.executed[k] == k; }
  }

  // ---------------------------------------------------------------- calls that are handed off

  /** A call handed off in step `n` has been made when the signal is Free, exactly if the list was released since:
      if the chain id is no longer the one that pushing it gave (and that handoff does not look at). */
  lemma HandedOffRunsIff(run: seq<State>, n: nat, i: nat, m: nat)
    requires IsRun(run) && n < m < |run| && PushCallStep(run[n], run[n + 1], i)
    requires run[m].sig in {Free, Updating}
    ensures run[n].threads[i].PushCall?
    ensures IsMade(run[m].calls.made, run[n].threads[i].c) <==> run[m].chainId != run[n].chainId
  {
    hide Inv, Next, IsRun, SplicedBy, CarriedOk, FateOk, IsMade;
    RunKeepsInv(run, n);
    RunKeepsInv(run, m);
    RunGrows(run, n + 1, m);
    QuietQueue(run[n]);
    QuietQueue(run[m]);
    RunKeepsCalls(run, m);
    var k := |run[n].pushed|;
    assert run[m].pushed[k] == Callable(run[n].threads[i].c);
    ExecutedBelow(run[m], k);
  }

  /** While nobody asserts, exactly the released thunks have been executed. */
  lemma QuietQueue(s: State)
    requires Inv(s)
    ensures s.released <= |s.pushed|
    ensures s.sig in {Free, Updating} ==> forall k: nat :: k in s.executed <==> k < s.released
  {
    hide RequestsOk, DutyOk, ThreadsOk, TicketsOk, CallsOk, SpliceOk, DoneOk, OrderOk, ListenersOk;
    if s.sig in {Free, Updating} {
      forall k: nat ensures k in s.executed <==> k < s.released {
        if k < s.released { assert s.executed[k] == k; }
      }
    }
  }

  /** What can be left in the list when the signal is Free and no thread is in an operation: thunks that
      their own thread cancelled, and calls that were not left to an owner and whose thread took the signal. */
  lemma LeftInList(run: seq<State>, n: nat, k: nat)
    requires IsRun(run) && n < |run| && k in run[n].list
    requires forall i :: 0 <= i < |run[n].threads| ==> run[n].threads[i] == Idle
    ensures k < |run[n].pushed| && k !in run[n].relied
    ensures k in run[n].cancelled <==> run[n].pushed[k].SpliceThunk?
    ensures k in run[n].calls.took <==> run[n].pushed[k].Callable?
  {
    hide Next, IsRun, PcOk, OrderOk, ListenersOk, CarriedOk, HandedOk, MadeOk;
    RunKeepsInv(run, n);
    RunKeepsCalls(run, n);
    var s := run[n];
    QuietQueue(s);
    assert s.sig == Free;
    if k in s.relied { HandoffByDeferredRuns(run, n, k); }
    if s.pushed[k].SpliceThunk? && k !in s.cancelled {
      var x := s.pushed[k].x;
      ReturnedOrHeld(s.threads, s.worker, s.returned, x);
      NoneReliedWhenQuiet(s, x);
    }
  }

  /** One thread has run its call while another saw it asserting and has pushed its own. */
  ghost function CallPushed(): State {
    State(Asserting, [0], 0, [], [Leave, CallDefer(0)], [Callable(1)], 0, [], {}, {}, [], map[], map[], {},
      Calls(map[0 := 0, 1 := 1], map[1 := 0], {}, [Made(0, 0)]), Some(0))
  }

  ghost function Fresh(threads: seq<Pc>, caller: map<nat, nat>): State {
    State(Free, [], 0, [], threads, [], 0, [], {}, {}, [], map[], map[], {}, Calls(caller, map[], {}, []), None)
  }

  /** One thread is making its call, another has begun its own. */
  ghost function CallBegun(): State {
    Fresh([Running(0), Enter(1)], map[0 := 0, 1 := 1]).(sig := Asserting, owner := Some(0))
  }

  lemma CallBegunRun() returns (run: seq<State>)
    ensures IsRun(run) && run[|run| - 1] == CallBegun()
  {
    hide StepBy, Next, IsRun;
    var s0 := Fresh([Idle, Idle], map[]);
    var s1 := Fresh([Enter(0), Idle], map[0 := 0]);
    var s2 := Fresh([Running(0), Idle], map[0 := 0]).(sig := Asserting, owner := Some(0));
    assert StartCall(s0, s1, 0, 0);
    assert StartCall(s2, CallBegun(), 1, 1);
    StartRun(s0);
    run := Extend([s0], s1, 0);
    run := Extend(run, s2, 0);
    run := Extend(run, CallBegun(), 1);
  }

  lemma CallPushedRun() returns (run: seq<State>)
    ensures IsRun(run) && run[|run| - 1] == CallPushed()
  {
    hide StepBy, Next, IsRun;
    run := CallBegunRun();
    run := Extend(run, CallBegun().(threads := [Running(0), PushCall(1)]), 1);
    run := Extend(run, CallPushed().(
      threads := [Running(0), CallDefer(0)], calls := Calls(map[0 := 0, 1 := 1], map[1 := 0], {}, [])), 1);
    run := Extend(run, CallPushed(), 0);
  }

  /** A call handed off to a thread that leaves first can be left in the list of a Free signal: the thread
      that pushed it takes the signal, and its first compare-exchange in leave succeeds. */
  lemma HandedOffCanBeLeft() returns (run: seq<State>)
    ensures IsRun(run)
    ensures var s := run[|run| - 1];
      s.sig == Free && s.threads == [Idle, Idle] && s.list == [0] && s.pushed == [Callable(1)] && s.executed == [] &&
      s.calls.caller == map[0 := 0, 1 := 1] && s.calls.made == [Made(0, 0)]
  {
    hide StepBy, Next, IsRun;
    run := CallPushedRun();
    var s := CallPushed();
    run := Extend(run, s.(sig := Free, owner := None, threads := [Idle, CallDefer(0)]), 0);
    run := Extend(run, s.(sig := Free, owner := None, threads := [Idle, CallTake(0)]), 1);
    run := Extend(run, s.(owner := Some(1), threads := [Idle, Leave], calls := s.calls.(took := {0})), 1);
    run := Extend(run, s.(sig := Free, owner := None, threads := [Idle, Idle], calls := s.calls.(took := {0})), 1);
  }

  lemma StartRun(s: State)
    requires Init(s)
    ensures IsRun([s])
  {}

  lemma Extend(run: seq<State>, s: State, i: nat) returns (longer: seq<State>)
    requires IsRun(run)
    requires var last := run[|run| - 1];
      || (exists c :: StartCall(last, s, i, c)) || EnterStep(last, s, i)
      || PushCallStep(last, s, i) || RunStep(last, s, i)
      || LeaveStep(last, s, i) || CallDeferStep(last, s, i) || CallTakeStep(last, s, i)
    ensures IsRun(longer) && longer[|longer| - 1] == s
  {
    hide StartSplice, StartCall, UpdateStep, PushSpliceStep, DeferStep, TakeStep, CheckStep, CancelStep, SpliceStep,
      FreeStep,
      EnterStep, RunStep, PushCallStep, CallDeferStep, CallTakeStep, LeaveStep, DrainStep, ReleaseStep, ExecuteStep;
    assert StepBy(run[|run| - 1], s, i);
    longer := run + [s];
  }
}
