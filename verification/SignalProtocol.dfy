/** The non-blocking protocol of a signal, as a transition system: any number of threads, one atomic
    step per compare-exchange, push, release or store, and compare-exchanges that may fail
    spuriously. A callback that uses the signal again counts as a thread of its own. */
module SignalProtocol {
  import opened Prelude

  datatype Sig = Free | Updating | Asserting | Deferred

  datatype Op = Link | Unlink

  /** A request to link or unlink one entry. */
  datatype Splice = Splice(op: Op, entry: nat)

  datatype Thunk = SpliceThunk(x: Splice) | Callable(id: nat)

  /** Where a thread is. `k` is the ticket of the thunk it pushed, `id` the chain id it was given. */
  datatype Pc =
    | Idle
    // Link and Unlink
    | TryUpdate(x: Splice)
    | PushSplice(x: Splice)
    | TryDefer(x: Splice, k: nat, id: nat)
    | TryTake(x: Splice, k: nat, id: nat)
    | CheckChain(x: Splice, k: nat, id: nat)
    | Cancel(x: Splice, k: nat)
    | DoSplice(x: Splice)
    | SetFree(x: Splice)
    // invoke and operator()
    | Enter(c: nat)
    | Running(c: nat)
    | PushCall(c: nat)
    | CallDefer(k: nat)
    | CallTake(k: nat)
    | Leave
    | Drain
    | Release
    | Execute(chain: seq<nat>)

  /** A call that was made, and the thread that made it. */
  datatype Made = Made(call: nat, thread: nat)

  /** The history of calls: who began them, the tickets of those that were handed off, the tickets of those
      whose own thread took the signal after all, and the calls made, in order. */
  datatype Calls = Calls(caller: map<nat, nat>, handed: map<nat, nat>, took: set<nat>, made: seq<Made>)

  /** The signal, the threads, and the history of requests and calls. Tickets number the thunks in the
      order they were pushed; `list` is the pending list, latest first; `relied` are the tickets of thunks
      that were left to the owner by way of Deferred. */
  datatype State = State(
    sig: Sig,
    list: seq<nat>,
    chainId: nat,
    listeners: seq<nat>,
    threads: seq<Pc>,
    // history
    pushed: seq<Thunk>,
    released: nat,
    executed: seq<nat>,
    cancelled: set<nat>,
    relied: set<nat>,
    done: seq<Splice>,
    worker: map<Splice, nat>,
    ticket: map<Splice, nat>,
    returned: set<Splice>,
    calls: Calls,
    owner: Option<nat>)

  ghost predicate Init(s: State) {
    && s.sig == Free && s.list == [] && s.listeners == [] && s.pushed == [] && s.released == 0 && s.executed == []
    && s.cancelled == {} && s.relied == {} && s.done == [] && s.worker == map[] && s.ticket == map[]
    && s.returned == {} && s.calls == Calls(map[], map[], {}, []) && s.owner == None
    && forall i :: 0 <= i < |s.threads| ==> s.threads[i] == Idle
  }

  function Range(a: nat, b: nat): (r: seq<nat>)
    requires a <= b
    ensures |r| == b - a && forall i :: 0 <= i < |r| ==> r[i] == a + i
    decreases b - a
  {
    if a == b then [] else [a] + Range(a + 1, b)
  }

  function Reverse<T>(q: seq<T>): (r: seq<T>)
    ensures |r| == |q| && forall i :: 0 <= i < |q| ==> r[i] == q[|q| - 1 - i]
  {
    if q == [] then [] else Reverse(q[1..]) + [q[0]]
  }

  function Remove(q: seq<nat>, e: nat): seq<nat> {
    if q == [] then [] else if q[0] == e then q[1..] else [q[0]] + Remove(q[1..], e)
  }

  /** What linking or unlinking does to the listener list. */
  function Spliced(listeners: seq<nat>, x: Splice): seq<nat> {
    match x.op
    case Link => listeners + [x.entry]
    case Unlink => Remove(listeners, x.entry)
  }

  // ---------------------------------------------------------------- steps

  ghost function At(s: State, i: nat, pc: Pc): State
    requires i < |s.threads|
  {
    s.(threads := s.threads[i := pc])
  }

  /** A thread starts an operation: a link of a new entry, an unlink of an entry whose link has
      returned and that was not unlinked before, or a call. */
  ghost predicate StartSplice(s: State, s': State, i: nat, x: Splice) {
    && i < |s.threads| && s.threads[i] == Idle && x !in s.worker
    && (x.op == Unlink ==> Splice(Link, x.entry) in s.returned)
    && s' == At(s, i, TryUpdate(x)).(worker := s.worker[x := i])
  }

  ghost predicate StartCall(s: State, s': State, i: nat, c: nat) {
    && i < |s.threads| && s.threads[i] == Idle && c !in s.calls.caller
    && s' == At(s, i, Enter(c)).(calls := s.calls.(caller := s.calls.caller[c := i]))
  }

  /** Link and Unlink: the first compare-exchange, Free to Updating. */
  ghost predicate UpdateStep(s: State, s': State, i: nat) {
    && i < |s.threads| && s.threads[i].TryUpdate?
    && var x := s.threads[i].x;
    || (s.sig == Free && s' == At(s, i, DoSplice(x)).(sig := Updating, owner := Some(i)))
    || s' == At(s, i, PushSplice(x))
  }

  ghost predicate PushSpliceStep(s: State, s': State, i: nat) {
    && i < |s.threads| && s.threads[i].PushSplice?
    && var x := s.threads[i].x;
    && var k := |s.pushed|;
    s' == At(s, i, TryDefer(x, k, s.chainId)).(
            list := [k] + s.list, pushed := s.pushed + [SpliceThunk(x)], ticket := s.ticket[x := k])
  }

  /** Asserting to Deferred. Seeing Deferred is as good as setting it. */
  ghost predicate DeferStep(s: State, s': State, i: nat) {
    && i < |s.threads| && s.threads[i].TryDefer?
    && var TryDefer(x, k, id) := s.threads[i];
    || (s.sig in {Asserting, Deferred} &&
        s' == At(s, i, Idle).(sig := Deferred, relied := s.relied + {k}, returned := s.returned + {x}))
    || (s.sig != Deferred && s' == At(s, i, TryTake(x, k, id)))
  }

  ghost predicate TakeStep(s: State, s': State, i: nat) {
    && i < |s.threads| && s.threads[i].TryTake?
    && var TryTake(x, k, id) := s.threads[i];
    || (s.sig == Free && s' == At(s, i, CheckChain(x, k, id)).(sig := Updating, owner := Some(i)))
    || s' == At(s, i, TryDefer(x, k, id))
  }

  ghost predicate CheckStep(s: State, s': State, i: nat) {
    && i < |s.threads| && s.threads[i].CheckChain?
    && var CheckChain(x, k, id) := s.threads[i];
    s' == At(s, i, if s.chainId != id then SetFree(x) else Cancel(x, k))
  }

  ghost predicate CancelStep(s: State, s': State, i: nat) {
    && i < |s.threads| && s.threads[i].Cancel?
    && var Cancel(x, k) := s.threads[i];
    s' == At(s, i, DoSplice(x)).(cancelled := s.cancelled + {k})
  }

  ghost predicate SpliceStep(s: State, s': State, i: nat) {
    && i < |s.threads| && s.threads[i].DoSplice?
    && var x := s.threads[i].x;
    s' == At(s, i, SetFree(x)).(listeners := Spliced(s.listeners, x), done := s.done + [x])
  }

  ghost predicate FreeStep(s: State, s': State, i: nat) {
    && i < |s.threads| && s.threads[i].SetFree?
    && var x := s.threads[i].x;
    s' == At(s, i, Idle).(sig := Free, owner := None, returned := s.returned + {x})
  }

  /** try_enter: Free to Asserting; give up only on seeing another thread asserting. */
  ghost predicate EnterStep(s: State, s': State, i: nat) {
    && i < |s.threads| && s.threads[i].Enter?
    && var c := s.threads[i].c;
    || (s.sig == Free && s' == At(s, i, Running(c)).(sig := Asserting, owner := Some(i)))
    || (s.sig in {Free, Updating} && s' == s)
    || (s.sig in {Asserting, Deferred} && s' == At(s, i, PushCall(c)))
  }

  /** The call itself, by the thread that entered. */
  ghost predicate RunStep(s: State, s': State, i: nat) {
    && i < |s.threads| && s.threads[i].Running?
    && s' == At(s, i, Leave).(calls := s.calls.(made := s.calls.made + [Made(s.threads[i].c, i)]))
  }

  ghost predicate PushCallStep(s: State, s': State, i: nat) {
    && i < |s.threads| && s.threads[i].PushCall?
    && var c := s.threads[i].c;
    && var k := |s.pushed|;
    s' == At(s, i, CallDefer(k)).(
            list := [k] + s.list, pushed := s.pushed + [Callable(c)],
            calls := s.calls.(handed := s.calls.handed[c := k]))
  }

  ghost predicate CallDeferStep(s: State, s': State, i: nat) {
    && i < |s.threads| && s.threads[i].CallDefer?
    && var k := s.threads[i].k;
    || (s.sig in {Asserting, Deferred} && s' == At(s, i, Idle).(sig := Deferred, relied := s.relied + {k}))
    || (s.sig != Deferred && s' == At(s, i, CallTake(k)))
  }

  ghost predicate CallTakeStep(s: State, s': State, i: nat) {
    && i < |s.threads| && s.threads[i].CallTake?
    && var k := s.threads[i].k;
    || (s.sig == Free &&
        s' == At(s, i, Leave).(sig := Asserting, calls := s.calls.(took := s.calls.took + {k}), owner := Some(i)))
    || s' == At(s, i, CallDefer(k))
  }

  /** leave: Asserting to Free, or else Deferred to Asserting and run what was pended. */
  ghost predicate LeaveStep(s: State, s': State, i: nat) {
    && i < |s.threads| && s.threads[i] == Leave
    && (|| (s.sig == Asserting && s' == At(s, i, Idle).(sig := Free, owner := None))
        || s' == At(s, i, Drain))
  }

  ghost predicate DrainStep(s: State, s': State, i: nat) {
    && i < |s.threads| && s.threads[i] == Drain
    && (|| (s.sig == Deferred && s' == At(s, i, Release).(sig := Asserting))
        || s' == At(s, i, Leave))
  }

  ghost predicate ReleaseStep(s: State, s': State, i: nat) {
    && i < |s.threads| && s.threads[i] == Release
    && s' == At(s, i, Execute(Reverse(s.list))).(list := [], chainId := s.chainId + 1, released := |s.pushed|)
  }

  /** Running the next thunk of the chain. A cancelled one does nothing. */
  ghost predicate ExecuteStep(s: State, s': State, i: nat) {
    && i < |s.threads| && s.threads[i].Execute?
    && var chain := s.threads[i].chain;
    if chain == [] then s' == At(s, i, Leave)
    else
      && var k := chain[0];
      && k < |s.pushed|
      && var n := At(s, i, Execute(chain[1..])).(executed := s.executed + [k]);
      match s.pushed[k]
      case SpliceThunk(x) =>
        s' == if k in s.cancelled then n else n.(listeners := Spliced(s.listeners, x), done := s.done + [x])
      case Callable(c) => s' == n.(calls := s.calls.(made := s.calls.made + [Made(c, i)]))
  }

  /** One step of thread `i`. */
  ghost predicate StepBy(s: State, s': State, i: nat) {
    || (exists x :: StartSplice(s, s', i, x)) || (exists c :: StartCall(s, s', i, c))
    || UpdateStep(s, s', i) || PushSpliceStep(s, s', i) || DeferStep(s, s', i) || TakeStep(s, s', i)
    || CheckStep(s, s', i) || CancelStep(s, s', i) || SpliceStep(s, s', i) || FreeStep(s, s', i)
    || EnterStep(s, s', i) || RunStep(s, s', i) || PushCallStep(s, s', i) || CallDeferStep(s, s', i)
    || CallTakeStep(s, s', i) || LeaveStep(s, s', i) || DrainStep(s, s', i) || ReleaseStep(s, s', i)
    || ExecuteStep(s, s', i)
  }

  ghost predicate Next(s: State, s': State) {
    exists i: nat :: StepBy(s, s', i)
  }

  ghost predicate IsRun(run: seq<State>) {
    && |run| > 0 && Init(run[0])
    && forall n :: 0 <= n < |run| - 1 ==> Next(run[n], run[n + 1])
  }
}
