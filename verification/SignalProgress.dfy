/** Nothing blocks: from every reachable state each thread can return by steps of its own once the threads
    before it have, and then everything that was begun has been seen to. */
module SignalProgress {
  import opened Prelude
  import opened SignalProtocol
  import opened SignalInvariant
  import opened SignalSteps
  import opened SignalSafety
  import opened SignalCalls

  /** How far the owner is from freeing the signal. */
  function Rank(sig: Sig, pc: Pc): nat {
    match pc
    case CheckChain(_, _, _) => 5
    case Cancel(_, _) => 4
    case DoSplice(_) => 3
    case SetFree(_) => 2
    case Running(_) => 9
    case Release => 8
    case Execute(_) => 7
    case Leave => 6
    case Drain => if sig == Deferred then 5 else 7
    case _ => 0
  }

  /** From `s` the steps of one thread lead to `t`. */
  ghost predicate Path(path: seq<State>, i: nat) {
    && |path| > 0
    && forall n :: 0 <= n < |path| - 1 ==> StepBy(path[n], path[n + 1], i)
  }

  lemma PathBack(s: State, path: seq<State>, i: nat)
    requires Path(path, i) && StepBy(s, path[0], i)
    ensures Path([s] + path, i)
  {
    hide StepBy;
  }

  /** The next step of the owner. */
  ghost function OwnerNext(s: State, i: nat): State
    requires i < |s.threads| && Owns(s.threads[i])
    requires s.threads[i].Execute? && s.threads[i].chain != [] ==> s.threads[i].chain[0] < |s.pushed|
  {
    match s.threads[i]
    case CheckChain(x, k, id) => At(s, i, if s.chainId != id then SetFree(x) else Cancel(x, k))
    case Cancel(x, k) => At(s, i, DoSplice(x)).(cancelled := s.cancelled + {k})
    case DoSplice(x) => At(s, i, SetFree(x)).(listeners := Spliced(s.listeners, x), done := s.done + [x])
    case SetFree(x) => At(s, i, Idle).(sig := Free, owner := None, returned := s.returned + {x})
    case Running(c) => At(s, i, Leave).(calls := s.calls.(made := s.calls.made + [Made(c, i)]))
    case Leave =>
      if s.sig == Asserting then At(s, i, Idle).(sig := Free, owner := None) else At(s, i, Drain)
    case Drain => if s.sig == Deferred then At(s, i, Release).(sig := Asserting) else At(s, i, Leave)
    case Release =>
      At(s, i, Execute(Reverse(s.list))).(list := [], chainId := s.chainId + 1, released := |s.pushed|)
    case Execute(chain) =>
      if chain == [] then At(s, i, Leave)
      else
        var k := chain[0];
        var n := At(s, i, Execute(chain[1..])).(executed := s.executed + [k]);
        match s.pushed[k]
        case SpliceThunk(x) =>
          if k in s.cancelled then n else n.(listeners := Spliced(s.listeners, x), done := s.done + [x])
        case Callable(c) => n.(calls := s.calls.(made := s.calls.made + [Made(c, i)]))
  }

  lemma OwnerSteps(s: State, i: nat)
    requires i < |s.threads| && Owns(s.threads[i])
    requires s.threads[i].Execute? && s.threads[i].chain != [] ==> s.threads[i].chain[0] < |s.pushed|
    ensures StepBy(s, OwnerNext(s, i), i)
  {
    hide Spliced, Reverse;
  }

  ghost function Last(run: seq<State>): State
    requires |run| > 0
  {
    run[|run| - 1]
  }

  ghost predicate AllIdle(threads: seq<Pc>, j: nat) {
    forall i :: 0 <= i < j && i < |threads| ==> threads[i] == Idle
  }

  /** No operation begins between the two states. */
  ghost predicate SameBegun(s: State, t: State) {
    t.worker == s.worker && t.calls.caller == s.calls.caller
  }

  function ChainLength(pc: Pc): nat {
    if pc.Execute? then |pc.chain| else 0
  }

  /** The step brings the owner closer to freeing the signal. */
  predicate Closer(sig: Sig, pc: Pc, sig': Sig, pc': Pc) {
    || (sig == Deferred && sig' == Asserting)
    || (sig' == sig && Rank(sig', pc') < Rank(sig, pc))
    || (sig' == sig && Rank(sig', pc') == Rank(sig, pc) && ChainLength(pc') < ChainLength(pc))
  }

  lemma OwnerFrame(s: State, i: nat)
    requires i < |s.threads| && Owns(s.threads[i])
    requires s.threads[i].Execute? && s.threads[i].chain != [] ==> s.threads[i].chain[0] < |s.pushed|
    ensures var t := OwnerNext(s, i); SameBegun(s, t) && |t.threads| == |s.threads|
    ensures OwnerNext(s, i).threads == s.threads[i := OwnerNext(s, i).threads[i]]
  {
    hide Spliced, Reverse;
  }

  /** What the owner's next step makes of the signal and of the owner's place. */
  lemma OwnerPlace(s: State, i: nat)
    requires i < |s.threads| && Owns(s.threads[i])
    requires s.threads[i].Execute? && s.threads[i].chain != [] ==> s.threads[i].chain[0] < |s.pushed|
    ensures |OwnerNext(s, i).threads| == |s.threads|
    ensures OwnerNext(s, i).threads[i] ==
      match s.threads[i]
      case CheckChain(x, k, id) => if s.chainId != id then SetFree(x) else Cancel(x, k)
      case Cancel(x, k) => DoSplice(x)
      case DoSplice(x) => SetFree(x)
      case Running(c) => Leave
      case Leave => if s.sig == Asserting then Idle else Drain
      case Drain => if s.sig == Deferred then Release else Leave
      case Release => Execute(Reverse(s.list))
      case Execute(chain) => if chain == [] then Leave else Execute(chain[1..])
      case _ => Idle
    ensures OwnerNext(s, i).sig ==
      if s.threads[i].SetFree? || (s.threads[i] == Leave && s.sig == Asserting) then Free
      else if s.threads[i] == Drain && s.sig == Deferred then Asserting
      else s.sig
  {
    hide Spliced, Reverse;
  }

  lemma OwnerCloser(s: State, i: nat)
    requires i < |s.threads| && Owns(s.threads[i])
    requires AssertOwner(s.threads[i]) ==> s.sig in {Asserting, Deferred}
    requires s.threads[i].Execute? && s.threads[i].chain != [] ==> s.threads[i].chain[0] < |s.pushed|
    ensures var t := OwnerNext(s, i);
      && |t.threads| == |s.threads|
      && (|| (t.sig == Free && t.threads[i] == Idle)
          || (Owns(t.threads[i]) && Closer(s.sig, s.threads[i], t.sig, t.threads[i])))
  {
    hide OwnerNext, Reverse;
    OwnerPlace(s, i);
  }

  /** The owner frees the signal by steps of its own, whatever was pushed meanwhile. */
  lemma {:induction false} OwnerFinishes(s: State, i: nat) returns (path: seq<State>)
    requires Inv(s) && i < |s.threads| && Owns(s.threads[i])
    ensures Path(path, i) && path[0] == s
    ensures var t := Last(path);
      Inv(t) && t.sig == Free && t.threads == s.threads[i := Idle] && SameBegun(s, t)
    decreases if s.sig == Deferred then 1 else 0, Rank(s.sig, s.threads[i]), ChainLength(s.threads[i])
  {
    hide Inv, StepBy, OwnerNext, Rank, OwnerOk, RequestsOk, QueueOk, DutyOk;
    InvParts(s);
    OwnsFacts(s.sig, s.owner, s.threads, i);
    QueueFacts(s, i);
    ChainBelow(s, i);
    OwnerSteps(s, i);
    OwnerFrame(s, i);
    OwnerCloser(s, i);
    var t := OwnerNext(s, i);
    assert Next(s, t);
    NextKeeps(s, t);
    if t.sig == Free && t.threads[i] == Idle {
      path := [t];
      OneState(t, i);
    } else {
      path := OwnerFinishes(t, i);
    }
    PathBack(s, path, i);
    path := [s] + path;
  }

  lemma OneState(s: State, i: nat)
    ensures Path([s], i)
  {}

  lemma ChainBelow(s: State, i: nat)
    requires Inv(s) && i < |s.threads|
    ensures s.threads[i].Execute? && s.threads[i].chain != [] ==> s.threads[i].chain[0] < |s.pushed|
  {
    hide RequestsOk, OwnerOk, QueueOk, DutyOk;
    InvParts(s);
    if s.threads[i].Execute? && s.threads[i].chain != [] {
      ChainOfOwner(s.sig, s.owner, s.threads, i);
      QueueSizes(s.list, s.threads[i].chain, |s.pushed|, s.released, s.executed);
      ExecuteQueue(s.list, s.threads[i].chain, |s.pushed|, s.released, s.executed);
    }
  }

  // ---------------------------------------------------------------- threads that do not own the signal

  /** How far a thread is from taking a free signal. */
  function Distance(pc: Pc): nat {
    match pc
    case PushSplice(_) => 3
    case PushCall(_) => 3
    case TryDefer(_, _, _) => 2
    case CallDefer(_) => 2
    case _ => 1
  }

  /** The next step of a thread that finds the signal free. */
  ghost function FreeNext(s: State, i: nat): State
    requires i < |s.threads| && !Owns(s.threads[i]) && s.threads[i] != Idle
  {
    match s.threads[i]
    case TryUpdate(x) => At(s, i, DoSplice(x)).(sig := Updating, owner := Some(i))
    case PushSplice(x) =>
      At(s, i, TryDefer(x, |s.pushed|, s.chainId)).(list := [|s.pushed|] + s.list,
        pushed := s.pushed + [SpliceThunk(x)], ticket := s.ticket[x := |s.pushed|])
    case TryDefer(x, k, id) => At(s, i, TryTake(x, k, id))
    case TryTake(x, k, id) => At(s, i, CheckChain(x, k, id)).(sig := Updating, owner := Some(i))
    case Enter(c) => At(s, i, Running(c)).(sig := Asserting, owner := Some(i))
    case PushCall(c) =>
      At(s, i, CallDefer(|s.pushed|)).(list := [|s.pushed|] + s.list, pushed := s.pushed + [Callable(c)],
        calls := s.calls.(handed := s.calls.handed[c := |s.pushed|]))
    case CallDefer(k) => At(s, i, CallTake(k))
    case CallTake(k) =>
      At(s, i, Leave).(sig := Asserting, calls := s.calls.(took := s.calls.took + {k}), owner := Some(i))
    case _ => s
  }

  lemma FreeSteps(s: State, i: nat)
    requires i < |s.threads| && !Owns(s.threads[i]) && s.threads[i] != Idle && s.sig == Free
    ensures StepBy(s, FreeNext(s, i), i)
  {}

  lemma FreeNextFacts(s: State, i: nat)
    requires i < |s.threads| && !Owns(s.threads[i]) && s.threads[i] != Idle && s.sig == Free
    ensures var t := FreeNext(s, i);
      && SameBegun(s, t) && |t.threads| == |s.threads| && t.threads == s.threads[i := t.threads[i]]
      && (|| Owns(t.threads[i])
          || (t.sig == Free && t.threads[i] != Idle && Distance(t.threads[i]) < Distance(s.threads[i])))
  {}

  lemma {:induction false} ThreadFinishes(s: State, i: nat) returns (path: seq<State>)
    requires Inv(s) && i < |s.threads| && s.sig == Free
    ensures Path(path, i) && path[0] == s
    ensures var t := Last(path);
      Inv(t) && t.sig == Free && t.threads == s.threads[i := Idle] && SameBegun(s, t)
    decreases Distance(s.threads[i])
  {
    hide Inv, StepBy, FreeNext, OwnerOk, Distance, RequestsOk, QueueOk, DutyOk;
    InvParts(s);
    NoOwner(s, i);
    if s.threads[i] == Idle {
      path := [s];
      OneState(s, i);
    } else {
      FreeSteps(s, i);
      FreeNextFacts(s, i);
      var t := FreeNext(s, i);
      assert Next(s, t);
      NextKeeps(s, t);
      if Owns(t.threads[i]) { path := OwnerFinishes(t, i); }
      else { path := ThreadFinishes(t, i); }
      PathBack(s, path, i);
      path := [s] + path;
    }
  }

  lemma NoOwner(s: State, i: nat)
    requires OwnerOk(s.sig, s.owner, s.threads) && s.sig == Free && i < |s.threads|
    ensures !Owns(s.threads[i])
  {}

  lemma RunOn(run: seq<State>, path: seq<State>, i: nat)
    requires IsRun(run) && Path(path, i) && path[0] == Last(run)
    ensures IsRun(run + path[1..]) && run <= run + path[1..]
    ensures Last(run + path[1..]) == Last(path)
  {
    hide StepBy, Init;
    var longer := run + path[1..];
    forall n | 0 <= n < |longer| - 1 ensures Next(longer[n], longer[n + 1]) {
      if n >= |run| - 1 {
        var m := n - (|run| - 1);
        assert longer[n] == path[m] && longer[n + 1] == path[m + 1];
        assert StepBy(path[m], path[m + 1], i);
      } else {
        assert Next(run[n], run[n + 1]);
      }
    }
  }

  lemma {:induction false} ThreadsFinish(run: seq<State>, j: nat) returns (longer: seq<State>)
    requires IsRun(run) && Last(run).sig == Free && j <= |Last(run).threads| && AllIdle(Last(run).threads, j)
    ensures IsRun(longer) && run <= longer && SameBegun(Last(run), Last(longer))
    ensures Last(longer).sig == Free && AllIdle(Last(longer).threads, |Last(longer).threads|)
    decreases |Last(run).threads| - j
  {
    hide Inv, Next, StepBy, Init;
    var s := Last(run);
    if j == |s.threads| {
      longer := run;
    } else {
      RunKeepsInv(run, |run| - 1);
      var path := ThreadFinishes(s, j);
      RunOn(run, path, j);
      longer := ThreadsFinish(run + path[1..], j + 1);
    }
  }

  /** Every run can go on, without an operation being begun, until every thread has returned. Then every
      request that was begun has been performed, and every call was made, except those whose own thread took
      the signal and left their thunk in the list. */
  lemma EveryRunCanEnd(run: seq<State>) returns (longer: seq<State>)
    requires IsRun(run)
    ensures IsRun(longer) && run <= longer && SameBegun(Last(run), Last(longer))
    ensures var t := Last(longer);
      && t.sig == Free && AllIdle(t.threads, |t.threads|)
      && (forall x :: x in t.worker ==> x in t.returned && x in t.done)
      && (forall c :: c in t.calls.caller ==>
            || IsMade(t.calls.made, c)
            || (exists k: nat :: PushedOnce(t, c, k) && k in t.calls.took && k in t.list))
  {
    hide Inv, Next, StepBy, Init, IsMade, PushedOnce, MadeBy, NeverPushed;
    var s := Last(run);
    RunKeepsInv(run, |run| - 1);
    if s.sig != Free {
      var i := OwnerThread(s);
      var path := OwnerFinishes(s, i);
      RunOn(run, path, i);
      longer := ThreadsFinish(run + path[1..], 0);
    } else {
      longer := ThreadsFinish(run, 0);
    }
    AllSeenTo(longer);
  }

  lemma OwnerThread(s: State) returns (i: nat)
    requires Inv(s) && s.sig != Free
    ensures i < |s.threads| && Owns(s.threads[i])
  {
    hide RequestsOk, QueueOk, DutyOk;
    InvParts(s);
    i := s.owner.value;
  }

  lemma AllSeenTo(run: seq<State>)
    requires IsRun(run)
    requires Last(run).sig == Free && AllIdle(Last(run).threads, |Last(run).threads|)
    ensures var t := Last(run);
      && (forall x :: x in t.worker ==> x in t.returned && x in t.done)
      && (forall c :: c in t.calls.caller ==>
            || IsMade(t.calls.made, c)
            || (exists k: nat :: PushedOnce(t, c, k) && k in t.calls.took && k in t.list))
  {
    hide Inv, CallInv, Next, Init, PushedOnce;
    var n := |run| - 1;
    var t := run[n];
    RunKeepsInv(run, n);
    RequestsPerformedOnce(run, n);
    forall x | x in t.worker ensures x in t.returned && x in t.done { AllReturned(t, x); }
    forall c | c in t.calls.caller
      ensures IsMade(t.calls.made, c) || (exists k: nat :: PushedOnce(t, c, k) && k in t.calls.took && k in t.list)
    {
      CallsAccounted(run, n, c);
      ReturnedCall(run, n, c);
      if !IsMade(t.calls.made, c) {
        var k: nat :| PushedOnce(t, c, k) && !(k < |t.executed|) && (k in t.relied <==> k !in t.calls.took)
          && (k in t.relied && t.sig in {Free, Updating} ==> IsMade(t.calls.made, c));
        Pushed(t, c, k);
        StillListed(t, k);
      }
    }
  }

  lemma Pushed(s: State, c: nat, k: nat)
    requires PushedOnce(s, c, k)
    ensures k < |s.pushed|
  {}

  lemma AllReturned(s: State, x: Splice)
    requires Inv(s) && x in s.worker && AllIdle(s.threads, |s.threads|)
    ensures x in s.returned
  {
    hide RequestsOk, OwnerOk, QueueOk, DutyOk, TicketsOk, CallsOk, SpliceOk, DoneOk, OrderOk, ListenersOk;
    ReturnedOrHeld(s.threads, s.worker, s.returned, x);
  }

  /** While nobody asserts, a thunk that was not executed is in the list. */
  lemma StillListed(s: State, k: nat)
    requires Inv(s) && s.sig == Free && |s.executed| <= k < |s.pushed|
    ensures k in s.list
  {
    hide RequestsOk, OwnerOk, DutyOk, ThreadsOk, TicketsOk, CallsOk, SpliceOk, DoneOk, OrderOk, ListenersOk;
    QuietQueue(s);
    ExecutedBelow(s, k);
    var r := Range(s.released, |s.pushed|);
    assert r[k - s.released] == k;
    assert s.list[|r| - 1 - (k - s.released)] == k;
  }
}
