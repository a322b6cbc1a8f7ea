/** The wake-up protocol of a job: pending starts a worker in the thread pool when none is at work, and a worker
    leaves only after finding the queue empty under the lock. One atomic step per critical section. Thunks do
    not throw, the context is not stopped; a thunk that pends more is a thread that pends. */
module CoreJobs {
  datatype Worker = Looping | Executing(k: nat) | Checking | Gone

  /** OnStart sets the flag first and looks at the queue later. */
  datatype Start = NotStarted | FlagSet | Started

  /** Tickets number the thunks in the order they were pended. */
  datatype State = State(
    running: bool,
    teardown: bool,
    start: Start,
    ready: seq<nat>,
    workers: seq<Worker>,
    // history
    pended: nat,
    begun: seq<nat>,
    finished: seq<nat>)

  ghost predicate Init(s: State) {
    s == State(false, true, NotStarted, [], [], 0, [], [])
  }

  /** A new worker, unless one is outstanding or the job has not been started. */
  ghost function OnPended(s: State): State {
    if !s.teardown || !s.running then s else s.(teardown := false, workers := s.workers + [Looping])
  }

  ghost predicate PendStep(s: State, s': State) {
    s' == OnPended(s.(ready := s.ready + [s.pended], pended := s.pended + 1))
  }

  ghost predicate SetFlagStep(s: State, s': State) {
    s.start == NotStarted && s' == s.(running := true, start := FlagSet)
  }

  ghost predicate StartStep(s: State, s': State) {
    && s.start == FlagSet
    && var n := s.(start := Started);
    s' == if s.ready != [] then OnPended(n) else n
  }

  ghost function At(s: State, i: nat, w: Worker): State
    requires i < |s.workers|
  {
    s.(workers := s.workers[i := w])
  }

  /** The worker takes the next thunk, or finds nothing and goes on to check. */
  ghost predicate TakeStep(s: State, s': State, i: nat) {
    && i < |s.workers| && s.workers[i] == Looping
    && s' == if s.ready == [] then At(s, i, Checking)
             else At(s, i, Executing(s.ready[0])).(ready := s.ready[1..], begun := s.begun + [s.ready[0]])
  }

  ghost predicate FinishStep(s: State, s': State, i: nat) {
    && i < |s.workers| && s.workers[i].Executing?
    && s' == At(s, i, Looping).(finished := s.finished + [s.workers[i].k])
  }

  ghost predicate CheckStep(s: State, s': State, i: nat) {
    && i < |s.workers| && s.workers[i] == Checking
    && s' == if s.ready != [] then At(s, i, Looping) else At(s, i, Gone).(teardown := true)
  }

  ghost predicate WorkerStep(s: State, s': State, i: nat) {
    TakeStep(s, s', i) || FinishStep(s, s', i) || CheckStep(s, s', i)
  }

  ghost predicate Next(s: State, s': State) {
    PendStep(s, s') || SetFlagStep(s, s') || StartStep(s, s') || exists i: nat :: WorkerStep(s, s', i)
  }

  ghost predicate IsRun(run: seq<State>) {
    && |run| > 0 && Init(run[0])
    && forall n :: 0 <= n < |run| - 1 ==> Next(run[n], run[n + 1])
  }

  // ---------------------------------------------------------------- invariant

  ghost predicate Active(s: State, i: int) {
    0 <= i < |s.workers| && s.workers[i] != Gone
  }

  ghost predicate OneWorker(s: State) {
    && (forall i, j :: Active(s, i) && Active(s, j) ==> i == j)
    && (s.teardown <==> forall i :: !Active(s, i))
    && (s.running <==> s.start != NotStarted)
    && (!s.teardown ==> s.running)
  }

  ghost predicate Awake(s: State) {
    s.ready != [] && s.teardown && s.running ==> s.start == FlagSet
  }

  ghost predicate InOrder(s: State) {
    && |s.begun| + |s.ready| == s.pended
    && (forall k :: 0 <= k < |s.begun| ==> s.begun[k] == k)
    && (forall k :: 0 <= k < |s.ready| ==> s.ready[k] == |s.begun| + k)
    && s.finished <= s.begun && |s.begun| <= |s.finished| + 1
    && (forall i :: Active(s, i) ==>
          if s.workers[i].Executing? then s.begun == s.finished + [s.workers[i].k] else s.begun == s.finished)
    && (s.teardown ==> s.begun == s.finished)
  }

  ghost predicate Inv(s: State) {
    OneWorker(s) && Awake(s) && InOrder(s)
  }

  lemma OnPendedKeeps(s: State)
    requires OneWorker(s) && InOrder(s)
    ensures OneWorker(OnPended(s)) && Awake(OnPended(s)) && InOrder(OnPended(s))
  {
    var s' := OnPended(s);
    if s' != s {
      assert forall i :: Active(s', i) <==> Active(s, i) || i == |s.workers|;
      assert Active(s', |s.workers|);
    }
  }

  lemma PendKeeps(s: State, s': State)
    requires Inv(s) && PendStep(s, s')
    ensures Inv(s')
  {
    var n := s.(ready := s.ready + [s.pended], pended := s.pended + 1);
    assert forall i :: Active(n, i) <==> Active(s, i);
    OnPendedKeeps(n);
  }

  lemma StartKeeps(s: State, s': State)
    requires Inv(s) && (SetFlagStep(s, s') || StartStep(s, s'))
    ensures Inv(s')
  {
    if SetFlagStep(s, s') {
      assert forall i :: Active(s', i) <==> Active(s, i);
    } else {
      var n := s.(start := Started);
      assert forall i :: Active(n, i) <==> Active(s, i);
      OnPendedKeeps(n);
    }
  }

  lemma WorkerKeeps(s: State, s': State, i: nat)
    requires Inv(s) && WorkerStep(s, s', i)
    ensures Inv(s')
  {
    assert Active(s, i);
    assert forall j :: Active(s', j) <==> Active(s, j) && (j != i || s'.workers[i] != Gone);
  }

  lemma NextKeeps(s: State, s': State)
    requires Inv(s) && Next(s, s')
    ensures Inv(s')
  {
    hide Inv, PendStep, SetFlagStep, StartStep, WorkerStep;
    if PendStep(s, s') { PendKeeps(s, s'); }
    else if SetFlagStep(s, s') || StartStep(s, s') { StartKeeps(s, s'); }
    else {
      var i: nat :| WorkerStep(s, s', i);
      WorkerKeeps(s, s', i);
    }
  }

  lemma {:induction false} RunKeeps(run: seq<State>, n: nat)
    requires IsRun(run) && n < |run|
    ensures Inv(run[n])
  {
    hide Next;
    if n > 0 {
      RunKeeps(run, n - 1);
      assert Next(run[n - 1], run[n - 1 + 1]);
      NextKeeps(run[n - 1], run[n]);
    }
  }

  // ---------------------------------------------------------------- results

  /** Once OnStart has returned, thunks in the queue have a worker that has yet to look for them. */
  lemma NoLostWakeUp(run: seq<State>, n: nat)
    requires IsRun(run) && n < |run| && run[n].start == Started && run[n].ready != []
    ensures exists i :: Active(run[n], i)
  {
    RunKeeps(run, n);
  }

  ghost predicate HasWorker(s: State) { exists i :: Active(s, i) }

  /** Whatever is pended goes to the end of the queue, and at once has a worker if the job was started. */
  lemma PendWakes(run: seq<State>, n: nat)
    requires IsRun(run) && n + 1 < |run| && PendStep(run[n], run[n + 1])
    ensures run[n + 1].ready == run[n].ready + [run[n].pended] && run[n + 1].pended == run[n].pended + 1
    ensures HasWorker(run[n + 1]) <==> run[n].start != NotStarted
  {
    hide Next;
    RunKeeps(run, n);
    var s, s' := run[n], run[n + 1];
    if s.teardown && s.running {
      assert Active(s', |s.workers|);
    } else {
      assert s'.workers == s.workers;
      assert forall i :: Active(s', i) <==> Active(s, i);
    }
  }

  /** There is never more than one active worker, and before OnStart there is none. */
  lemma NeverTwoWorkers(run: seq<State>, n: nat, i: int, j: int)
    requires IsRun(run) && n < |run| && Active(run[n], i)
    ensures run[n].start != NotStarted && (Active(run[n], j) ==> i == j)
  {
    RunKeeps(run, n);
  }

  /** Thunks run to their end one at a time, in the order they were pended, and none is skipped. */
  lemma RunInOrder(run: seq<State>, n: nat)
    requires IsRun(run) && n < |run|
    ensures forall k :: 0 <= k < |run[n].finished| ==> run[n].finished[k] == k
    ensures |run[n].finished| <= run[n].pended
    ensures forall i :: Active(run[n], i) && run[n].workers[i].Executing? ==> run[n].workers[i].k == |run[n].finished|
  {
    RunKeeps(run, n);
    var s := run[n];
    forall i | Active(s, i) && s.workers[i].Executing? ensures s.workers[i].k == |s.finished| {
      assert s.begun[|s.finished|] == s.workers[i].k;
    }
  }

  /** How many steps a worker needs at most to empty the queue. */
  ghost function Work(s: State, i: nat): nat
    requires i < |s.workers|
  {
    3 * |s.ready| +
    match s.workers[i]
    case Looping => 2
    case Executing(_) => 3
    case Checking => if s.ready == [] then 1 else 3
    case Gone => 0
  }

  /** From any state the run can go on, by steps of the worker alone, until everything pended has finished. */
  lemma {:induction false} WorkerDrains(run: seq<State>, i: nat) returns (longer: seq<State>)
    requires IsRun(run) && Active(run[|run| - 1], i)
    ensures IsRun(longer) && run <= longer
    ensures forall n :: |run| - 1 <= n < |longer| - 1 ==> WorkerStep(longer[n], longer[n + 1], i)
    ensures var s := longer[|longer| - 1];
      s.ready == [] && |s.finished| == s.pended && s.pended == run[|run| - 1].pended
    decreases Work(run[|run| - 1], i)
  {
    var s := run[|run| - 1];
    RunKeeps(run, |run| - 1);
    var w := s.workers[i];
    var s' :=
      if w.Executing? then At(s, i, Looping).(finished := s.finished + [w.k])
      else if w == Looping && s.ready == [] then At(s, i, Checking)
      else if w == Looping then At(s, i, Executing(s.ready[0])).(ready := s.ready[1..], begun := s.begun + [s.ready[0]])
      else if s.ready != [] then At(s, i, Looping)
      else At(s, i, Gone).(teardown := true);
    assert WorkerStep(s, s', i);
    var next := run + [s'];
    assert IsRun(next);
    if s'.workers[i] == Gone {
      longer := next;
    } else {
      longer := WorkerDrains(next, i);
    }
  }

  /** Once OnStart has returned, everything that was pended can still be finished, without anyone pending again. */
  lemma EverythingRuns(run: seq<State>) returns (longer: seq<State>)
    requires IsRun(run) && run[|run| - 1].start == Started
    ensures IsRun(longer) && run <= longer
    ensures var s := longer[|longer| - 1]; |s.finished| == s.pended == run[|run| - 1].pended
  {
    RunKeeps(run, |run| - 1);
    var s := run[|run| - 1];
    if i :| Active(s, i) {
      longer := WorkerDrains(run, i);
    } else {
      longer := run;
    }
  }
}
