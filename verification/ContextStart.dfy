/** Creating children of a context while another thread brings it to Running. A child looks at its parent outside
    the lock, and goes into its place later; the parent passes over places that are still empty. One atomic step
    per critical section, and one for the look. */
module ContextStart {
  datatype Life = NotStarted | CanRun

  /** A place in the list of children. */
  datatype Slot = Reserved | Child(life: Life)

  datatype Pc =
    | Idle
    // CreateInternal
    | Reserve
    | Look(slot: nat)
    | Publish(slot: nat)
    // Initiate, and TryTransitionChildrenState
    | Raise
    | Walk(slot: nat)

  datatype State = State(
    running: bool,
    slots: seq<Slot>,
    threads: seq<Pc>,
    // history
    looked: map<nat, bool>,    // whether the parent was seen to be running
    visited: map<nat, bool>)   // whether the child was in its place when the parent came by

  ghost predicate Init(s: State) {
    && !s.running && s.slots == [] && s.looked == map[] && s.visited == map[]
    && forall i :: 0 <= i < |s.threads| ==> s.threads[i] == Idle
  }

  ghost function At(s: State, i: nat, pc: Pc): State
    requires i < |s.threads|
  {
    s.(threads := s.threads[i := pc])
  }

  ghost predicate BeginStep(s: State, s': State, i: nat) {
    i < |s.threads| && s.threads[i] == Idle && (s' == At(s, i, Reserve) || s' == At(s, i, Raise))
  }

  ghost predicate ReserveStep(s: State, s': State, i: nat) {
    && i < |s.threads| && s.threads[i] == Reserve
    && s' == At(s, i, Look(|s.slots|)).(slots := s.slots + [Reserved])
  }

  /** The child sees whether its parent runs. */
  ghost predicate LookStep(s: State, s': State, i: nat) {
    && i < |s.threads| && s.threads[i].Look?
    && var k := s.threads[i].slot; s' == At(s, i, Publish(k)).(looked := s.looked[k := s.running])
  }

  /** The child goes into its place. */
  ghost predicate PublishStep(s: State, s': State, i: nat) {
    && i < |s.threads| && s.threads[i].Publish?
    && var k := s.threads[i].slot;
       && k < |s.slots| && k in s.looked
       && s' == At(s, i, Idle).(slots := s.slots[k := Child(if s.looked[k] then CanRun else NotStarted)])
  }

  /** Only the first to initiate the parent goes on to its children. */
  ghost predicate RaiseStep(s: State, s': State, i: nat) {
    && i < |s.threads| && s.threads[i] == Raise
    && s' == if s.running then At(s, i, Idle) else At(s, i, Walk(0)).(running := true)
  }

  /** The parent comes by a place, or is done: a child that has not started may run, an empty place is left. */
  ghost predicate WalkStep(s: State, s': State, i: nat) {
    && i < |s.threads| && s.threads[i].Walk?
    && var k := s.threads[i].slot;
       s' == if k >= |s.slots| then At(s, i, Idle)
             else At(s, i, Walk(k + 1)).(
               slots := if s.slots[k].Child? then s.slots[k := Child(CanRun)] else s.slots,
               visited := s.visited[k := s.slots[k].Child?])
  }

  ghost predicate StepBy(s: State, s': State, i: nat) {
    || BeginStep(s, s', i) || ReserveStep(s, s', i) || LookStep(s, s', i)
    || PublishStep(s, s', i) || RaiseStep(s, s', i) || WalkStep(s, s', i)
  }

  ghost predicate Next(s: State, s': State) {
    exists i: nat :: StepBy(s, s', i)
  }

  ghost predicate IsRun(run: seq<State>) {
    && |run| > 0 && Init(run[0])
    && forall n :: 0 <= n < |run| - 1 ==> Next(run[n], run[n + 1])
  }

  // ---------------------------------------------------------------- invariant

  function Place(pc: Pc): int {
    match pc
    case Look(k) => k
    case Publish(k) => k
    case _ => -1
  }

  /** Each creation under way has an empty place of its own, and has looked exactly if it is about to publish. */
  ghost predicate PlacesOk(threads: seq<Pc>, slots: seq<Slot>, looked: map<nat, bool>) {
    && (forall i :: 0 <= i < |threads| && Place(threads[i]) >= 0 ==> PlaceOk(threads[i], slots, looked))
    && (forall i, j :: 0 <= i < j < |threads| && Place(threads[i]) >= 0 ==> Place(threads[i]) != Place(threads[j]))
    && (forall k :: k in looked ==> k < |slots|)
  }

  ghost predicate PlaceOk(pc: Pc, slots: seq<Slot>, looked: map<nat, bool>)
    requires Place(pc) >= 0
  {
    Place(pc) < |slots| && slots[Place(pc)] == Reserved && (Place(pc) in looked <==> pc.Publish?)
  }

  /** The parent came by the child when it was in its place. */
  predicate Met(visited: map<nat, bool>, k: nat) { k in visited && visited[k] }

  /** A child may run exactly if it saw its parent running or its parent met it. */
  ghost predicate LivesOk(slots: seq<Slot>, looked: map<nat, bool>, visited: map<nat, bool>) {
    && (forall k :: 0 <= k < |slots| && slots[k].Child? ==>
          k in looked && (slots[k].life == CanRun <==> looked[k] || Met(visited, k)))
    && (forall k :: k in visited ==> k < |slots| && (visited[k] ==> slots[k].Child?))
  }

  ghost predicate Walking(threads: seq<Pc>) {
    exists i :: 0 <= i < |threads| && threads[i].Walk?
  }

  /** Before the parent runs nobody has seen it run. Once it does, it comes by the places there are, in order; those
      that are made later belong to children that see it running. */
  ghost predicate WalkOk(s: State) {
    && (forall i :: 0 <= i < |s.threads| && s.threads[i].Walk? ==>
          s.running && forall k :: 0 <= k < s.threads[i].slot ==> k in s.visited)
    && (forall i, j :: 0 <= i < j < |s.threads| && s.threads[i].Walk? ==> !s.threads[j].Walk?)
    && (!s.running ==> forall k :: k in s.looked ==> !s.looked[k])
    && (s.running && !Walking(s.threads) ==> forall k :: k in s.looked && !s.looked[k] ==> k in s.visited)
  }

  ghost predicate Inv(s: State) {
    PlacesOk(s.threads, s.slots, s.looked) && LivesOk(s.slots, s.looked, s.visited) && WalkOk(s)
  }

  lemma ThreadPlaces(threads: seq<Pc>, slots: seq<Slot>, looked: map<nat, bool>, i: nat, pc: Pc)
    requires PlacesOk(threads, slots, looked) && i < |threads| && Place(pc) < 0
    ensures PlacesOk(threads[i := pc], slots, looked)
  {
    hide PlaceOk;
  }

  lemma StepKeepsPlaces(s: State, s': State, i: nat)
    requires PlacesOk(s.threads, s.slots, s.looked) && StepBy(s, s', i)
    ensures PlacesOk(s'.threads, s'.slots, s'.looked)
  {
    hide PlacesOk, ReserveStep, LookStep, PublishStep, WalkStep;
    if ReserveStep(s, s', i) { ReservePlaces(s, s', i); }
    else if LookStep(s, s', i) { LookPlaces(s, s', i); }
    else if PublishStep(s, s', i) { PublishPlaces(s, s', i); }
    else if WalkStep(s, s', i) { WalkPlaces(s, s', i); }
    else { ThreadPlaces(s.threads, s.slots, s.looked, i, s'.threads[i]); }
  }

  lemma ReservePlaces(s: State, s': State, i: nat)
    requires PlacesOk(s.threads, s.slots, s.looked) && ReserveStep(s, s', i)
    ensures PlacesOk(s'.threads, s'.slots, s'.looked)
  {}

  lemma LookPlaces(s: State, s': State, i: nat)
    requires PlacesOk(s.threads, s.slots, s.looked) && LookStep(s, s', i)
    ensures PlacesOk(s'.threads, s'.slots, s'.looked)
  {
    assert Place(s.threads[i]) >= 0;
  }

  lemma PublishPlaces(s: State, s': State, i: nat)
    requires PlacesOk(s.threads, s.slots, s.looked) && PublishStep(s, s', i)
    ensures PlacesOk(s'.threads, s'.slots, s'.looked)
  {
    assert Place(s.threads[i]) >= 0;
  }

  lemma WalkPlaces(s: State, s': State, i: nat)
    requires PlacesOk(s.threads, s.slots, s.looked) && WalkStep(s, s', i)
    ensures PlacesOk(s'.threads, s'.slots, s'.looked)
  {}

  lemma StepKeepsLives(s: State, s': State, i: nat)
    requires PlacesOk(s.threads, s.slots, s.looked) && LivesOk(s.slots, s.looked, s.visited) && StepBy(s, s', i)
    ensures LivesOk(s'.slots, s'.looked, s'.visited)
  {
    hide LookStep, PublishStep, WalkStep;
    if LookStep(s, s', i) { LookLives(s, s', i); }
    else if PublishStep(s, s', i) { PublishLives(s, s', i); }
    else if WalkStep(s, s', i) { WalkLives(s, s', i); }
  }

  lemma LookLives(s: State, s': State, i: nat)
    requires PlacesOk(s.threads, s.slots, s.looked) && LivesOk(s.slots, s.looked, s.visited) && LookStep(s, s', i)
    ensures LivesOk(s'.slots, s'.looked, s'.visited)
  {
    assert Place(s.threads[i]) >= 0;
  }

  lemma PublishLives(s: State, s': State, i: nat)
    requires PlacesOk(s.threads, s.slots, s.looked) && LivesOk(s.slots, s.looked, s.visited) && PublishStep(s, s', i)
    ensures LivesOk(s'.slots, s'.looked, s'.visited)
  {
    assert Place(s.threads[i]) >= 0;
  }

  lemma WalkLives(s: State, s': State, i: nat)
    requires LivesOk(s.slots, s.looked, s.visited) && WalkStep(s, s', i)
    ensures LivesOk(s'.slots, s'.looked, s'.visited)
  {}

  lemma StepKeepsWalk(s: State, s': State, i: nat)
    requires Inv(s) && StepBy(s, s', i)
    ensures WalkOk(s')
  {
    hide WalkOk, LivesOk, PlacesOk, BeginStep, ReserveStep, LookStep, PublishStep;
    if WalkStep(s, s', i) { WalkWalk(s, s', i); }
    else if RaiseStep(s, s', i) && !s.running { RaiseWalk(s, s', i); }
    else { CalmWalk(s, s', i); }
  }

  lemma WalkWalk(s: State, s': State, i: nat)
    requires PlacesOk(s.threads, s.slots, s.looked) && WalkOk(s) && WalkStep(s, s', i)
    ensures WalkOk(s')
  {
    hide PlaceOk;
    var k := s.threads[i].slot;
    if k < |s.slots| { assert s'.threads[i].Walk?; }
  }

  lemma RaiseWalk(s: State, s': State, i: nat)
    requires WalkOk(s) && RaiseStep(s, s', i) && !s.running
    ensures WalkOk(s')
  {
    assert s'.threads[i].Walk?;
  }

  /** A step that neither starts nor continues the walk. */
  lemma CalmWalk(s: State, s': State, i: nat)
    requires PlacesOk(s.threads, s.slots, s.looked) && WalkOk(s)
    requires BeginStep(s, s', i) || ReserveStep(s, s', i) || LookStep(s, s', i) || PublishStep(s, s', i) ||
             (RaiseStep(s, s', i) && s.running)
    ensures WalkOk(s')
  {
    hide PlacesOk, Walking;
    CalmThreads(s, s', i);
    WalkingKept(s.threads, i, s'.threads[i]);
  }

  lemma CalmThreads(s: State, s': State, i: nat)
    requires PlacesOk(s.threads, s.slots, s.looked)
    requires BeginStep(s, s', i) || ReserveStep(s, s', i) || LookStep(s, s', i) || PublishStep(s, s', i) ||
             (RaiseStep(s, s', i) && s.running)
    ensures i < |s.threads| == |s'.threads| && s'.threads == s.threads[i := s'.threads[i]]
    ensures !s.threads[i].Walk? && !s'.threads[i].Walk? && s'.running == s.running && s'.visited == s.visited
    ensures forall k :: k in s'.looked ==>
      (k in s.looked && s'.looked[k] == s.looked[k]) || s'.looked[k] == s.running
  {
    hide PlacesOk;
  }

  lemma WalkingKept(threads: seq<Pc>, i: nat, pc: Pc)
    requires i < |threads| && (threads[i].Walk? <==> pc.Walk?)
    ensures Walking(threads[i := pc]) <==> Walking(threads)
  {
    var threads' := threads[i := pc];
    if j :| 0 <= j < |threads| && threads[j].Walk? { assert threads'[j].Walk?; }
    if j :| 0 <= j < |threads'| && threads'[j].Walk? { assert threads[j].Walk?; }
  }

  lemma StepKeeps(s: State, s': State, i: nat)
    requires Inv(s) && StepBy(s, s', i)
    ensures Inv(s')
  {
    hide PlacesOk, LivesOk, WalkOk, StepBy;
    StepKeepsPlaces(s, s', i);
    StepKeepsLives(s, s', i);
    StepKeepsWalk(s, s', i);
  }

  lemma {:induction false} RunKeeps(run: seq<State>, n: nat)
    requires IsRun(run) && n < |run|
    ensures Inv(run[n])
  {
    hide StepBy;
    if n > 0 {
      RunKeeps(run, n - 1);
      assert Next(run[n - 1], run[n - 1 + 1]);
      var i: nat :| StepBy(run[n - 1], run[n], i);
      StepKeeps(run[n - 1], run[n], i);
    }
  }

  // ---------------------------------------------------------------- what becomes of a child

  /** The child is lost: it looked before the parent ran, and the parent came by its place before it was there. */
  ghost predicate Lost(s: State, k: nat) {
    k in s.looked && !s.looked[k] && k in s.visited && !s.visited[k]
  }

  /** In every interleaving, once the parent runs and has come by all its children, a child that was created may
      run, unless it is lost: then it stays as if its parent had never started. */
  lemma MayRunUnlessLost(run: seq<State>, n: nat, k: nat)
    requires IsRun(run) && n < |run| && run[n].running && !Walking(run[n].threads)
    requires k < |run[n].slots| && run[n].slots[k].Child?
    ensures run[n].slots[k].life == NotStarted <==> Lost(run[n], k)
  {
    RunKeeps(run, n);
  }

  lemma OneMore(run: seq<State>, s: State, i: nat)
    requires IsRun(run) && StepBy(run[|run| - 1], s, i)
    ensures IsRun(run + [s])
  {
    hide StepBy;
    var run' := run + [s];
    forall n | 0 <= n < |run'| - 1 ensures Next(run'[n], run'[n + 1]) {
      if n < |run| - 1 { assert Next(run[n], run[n + 1]); }
    }
  }

  /** It does happen. */
  lemma ChildLost() returns (run: seq<State>)
    ensures IsRun(run)
    ensures var s := run[|run| - 1];
            && s.running && (forall i :: 0 <= i < |s.threads| ==> s.threads[i] == Idle)
            && s.slots == [Child(NotStarted)] && Lost(s, 0)
  {
    hide IsRun;
    var none: map<nat, bool> := map[];
    run := [State(false, [], [Idle, Idle], none, none)];
    assert IsRun(run) by { Alone(run[0]); }
    OneMore(run, State(false, [], [Reserve, Idle], none, none), 0);
    run := run + [State(false, [], [Reserve, Idle], none, none)];
    OneMore(run, State(false, [Reserved], [Look(0), Idle], none, none), 0);
    run := run + [State(false, [Reserved], [Look(0), Idle], none, none)];
    OneMore(run, State(false, [Reserved], [Publish(0), Idle], map[0 := false], none), 0);
    run := run + [State(false, [Reserved], [Publish(0), Idle], map[0 := false], none)];
    OneMore(run, State(false, [Reserved], [Publish(0), Raise], map[0 := false], none), 1);
    run := run + [State(false, [Reserved], [Publish(0), Raise], map[0 := false], none)];
    run := Missed(run);
  }

  lemma Alone(s: State)
    requires Init(s)
    ensures IsRun([s])
  {}

  /** The parent starts and comes by while the child is about to go into its place. */
  lemma Missed(before: seq<State>) returns (run: seq<State>)
    requires IsRun(before)
    requires before[|before| - 1] == State(false, [Reserved], [Publish(0), Raise], map[0 := false], map[])
    ensures IsRun(run)
    ensures run[|run| - 1] == State(true, [Child(NotStarted)], [Idle, Idle], map[0 := false], map[0 := false])
  {
    hide IsRun;
    run := before;
    OneMore(run, State(true, [Reserved], [Publish(0), Walk(0)], map[0 := false], map[]), 1);
    run := run + [State(true, [Reserved], [Publish(0), Walk(0)], map[0 := false], map[])];
    OneMore(run, State(true, [Reserved], [Publish(0), Walk(1)], map[0 := false], map[0 := false]), 1);
    run := run + [State(true, [Reserved], [Publish(0), Walk(1)], map[0 := false], map[0 := false])];
    OneMore(run, State(true, [Reserved], [Publish(0), Idle], map[0 := false], map[0 := false]), 1);
    run := run + [State(true, [Reserved], [Publish(0), Idle], map[0 := false], map[0 := false])];
    OneMore(run, State(true, [Child(NotStarted)], [Idle, Idle], map[0 := false], map[0 := false]), 0);
    run := run + [State(true, [Child(NotStarted)], [Idle, Idle], map[0 := false], map[0 := false])];
  }

  // ---------------------------------------------------------------- no child is forgotten in creation

  /** Some thread is about to put a child there. */
  ghost predicate Filling(threads: seq<Pc>, k: nat) {
    exists i :: 0 <= i < |threads| && Place(threads[i]) == k
  }

  ghost predicate EmptiesOk(s: State) {
    forall k :: 0 <= k < |s.slots| && s.slots[k] == Reserved ==> Filling(s.threads, k)
  }

  lemma FillingStays(threads: seq<Pc>, i: nat, pc: Pc, k: nat)
    requires Filling(threads, k) && i < |threads| && (Place(threads[i]) == k ==> Place(pc) == k)
    ensures Filling(threads[i := pc], k)
  {
    var j :| 0 <= j < |threads| && Place(threads[j]) == k;
    assert Place(threads[i := pc][j]) == k;
  }

  lemma FillingNow(threads: seq<Pc>, i: nat)
    requires i < |threads| && Place(threads[i]) >= 0
    ensures Filling(threads, Place(threads[i]))
  {}

  lemma StepKeepsEmpties(s: State, s': State, i: nat)
    requires EmptiesOk(s) && StepBy(s, s', i)
    ensures EmptiesOk(s')
  {
    hide Filling;
    if ReserveStep(s, s', i) { assert Place(s'.threads[i]) == |s.slots|; FillingNow(s'.threads, i); }
    forall k | 0 <= k < |s'.slots| && s'.slots[k] == Reserved ensures Filling(s'.threads, k) {
      if k < |s.slots| { FillingStays(s.threads, i, s'.threads[i], k); }
    }
  }

  /** In every interleaving an empty place has a thread that is about to fill it: a creation that has returned has
      left its child. */
  lemma {:induction false} NoChildForgotten(run: seq<State>, n: nat)
    requires IsRun(run) && n < |run|
    ensures forall k :: 0 <= k < |run[n].slots| && run[n].slots[k] == Reserved ==> Filling(run[n].threads, k)
  {
    hide StepBy, Filling;
    if n > 0 {
      NoChildForgotten(run, n - 1);
      assert Next(run[n - 1], run[n - 1 + 1]);
      var i: nat :| StepBy(run[n - 1], run[n], i);
      StepKeepsEmpties(run[n - 1], run[n], i);
    }
  }
}
