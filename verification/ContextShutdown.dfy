/** Creating children of a context while other threads shut it down. One atomic step per critical section. */
module ContextShutdown {
  /** A place in the list of children: reserved, or filled with a context that is shut down or not. */
  datatype Slot = Reserved | Child(shut: bool)

  datatype Pc =
    | Idle
    // CreateInternal
    | Reserve
    | Make(slot: nat)
    | Publish(slot: nat)
    // SignalShutdown
    | Mark
    | Collect
    | Close(todo: seq<nat>)

  datatype State = State(down: bool, slots: seq<Slot>, threads: seq<Pc>, created: set<nat>)

  ghost predicate Init(s: State) {
    !s.down && s.slots == [] && s.created == {} && forall i :: 0 <= i < |s.threads| ==> s.threads[i] == Idle
  }

  ghost function At(s: State, i: nat, pc: Pc): State
    requires i < |s.threads|
  {
    s.(threads := s.threads[i := pc])
  }

  /** Creation is refused when the parent is seen to be shut down. */
  ghost predicate BeginStep(s: State, s': State, i: nat) {
    && i < |s.threads| && s.threads[i] == Idle
    && ((!s.down && s' == At(s, i, Reserve)) || s' == At(s, i, Mark))
  }

  ghost predicate ReserveStep(s: State, s': State, i: nat) {
    && i < |s.threads| && s.threads[i] == Reserve
    && s' == At(s, i, Make(|s.slots|)).(slots := s.slots + [Reserved])
  }

  ghost predicate MakeStep(s: State, s': State, i: nat) {
    i < |s.threads| && s.threads[i].Make? && s' == At(s, i, Publish(s.threads[i].slot))
  }

  /** The child goes into its place, and is shut down at once if the parent is. */
  ghost predicate PublishStep(s: State, s': State, i: nat) {
    && i < |s.threads| && s.threads[i].Publish?
    && var k := s.threads[i].slot;
    k < |s.slots| && s' == At(s, i, Idle).(slots := s.slots[k := Child(s.down)], created := s.created + {k})
  }

  ghost predicate MarkStep(s: State, s': State, i: nat) {
    && i < |s.threads| && s.threads[i] == Mark
    && s' == if s.down then At(s, i, Idle) else At(s, i, Collect).(down := true)
  }

  ghost function Filled(slots: seq<Slot>): (r: seq<nat>)
    ensures forall k :: 0 <= k < |slots| && slots[k].Child? ==> k in r
    ensures forall m :: 0 <= m < |r| ==> r[m] < |slots| && slots[r[m]].Child?
  {
    if slots == [] then []
    else
      var r := Filled(slots[..|slots| - 1]);
      if slots[|slots| - 1].Child? then r + [|slots| - 1] else r
  }

  ghost predicate CollectStep(s: State, s': State, i: nat) {
    i < |s.threads| && s.threads[i] == Collect && s' == At(s, i, Close(Filled(s.slots)))
  }

  /** Children are shut down from the last one to the first. */
  ghost predicate CloseStep(s: State, s': State, i: nat) {
    && i < |s.threads| && s.threads[i].Close?
    && var todo := s.threads[i].todo;
    if todo == [] then s' == At(s, i, Idle)
    else
      var k := todo[|todo| - 1];
      k < |s.slots| && s' == At(s, i, Close(todo[..|todo| - 1])).(slots := s.slots[k := Child(true)])
  }

  ghost predicate StepBy(s: State, s': State, i: nat) {
    || BeginStep(s, s', i) || ReserveStep(s, s', i) || MakeStep(s, s', i) || PublishStep(s, s', i)
    || MarkStep(s, s', i) || CollectStep(s, s', i) || CloseStep(s, s', i)
  }

  ghost predicate Next(s: State, s': State) {
    exists i: nat :: StepBy(s, s', i)
  }

  ghost predicate IsRun(run: seq<State>) {
    && |run| > 0 && Init(run[0])
    && forall n :: 0 <= n < |run| - 1 ==> Next(run[n], run[n + 1])
  }

  // ---------------------------------------------------------------- invariant

  function Place(pc: Pc): int {
    match pc
    case Make(k) => k
    case Publish(k) => k
    case _ => -1
  }

  predicate Closing(pc: Pc) { pc == Collect || pc.Close? }

  /** Some thread has this child still to shut down. */
  ghost predicate Awaited(threads: seq<Pc>, k: nat) {
    exists i :: 0 <= i < |threads| && (threads[i] == Collect || (threads[i].Close? && k in threads[i].todo))
  }

  ghost predicate AllFilled(todo: seq<nat>, slots: seq<Slot>) {
    forall m :: 0 <= m < |todo| ==> todo[m] < |slots| && slots[todo[m]].Child?
  }

  lemma FilledStays(todo: seq<nat>, slots: seq<Slot>, k: nat, shut: bool)
    requires AllFilled(todo, slots) && k < |slots|
    ensures AllFilled(todo, slots[k := Child(shut)])
    ensures todo != [] ==> AllFilled(todo[..|todo| - 1], slots[k := Child(shut)])
  {}

  ghost predicate PlacesOk(s: State) {
    && (forall i :: 0 <= i < |s.threads| && Place(s.threads[i]) >= 0 ==>
          Place(s.threads[i]) < |s.slots| && s.slots[Place(s.threads[i])] == Reserved &&
            Place(s.threads[i]) !in s.created)
    && (forall i, j :: 0 <= i < j < |s.threads| && Place(s.threads[i]) >= 0 ==>
        Place(s.threads[i]) != Place(s.threads[j]))
    && (forall k :: k in s.created ==> k < |s.slots| && s.slots[k].Child?)
    && TodosOk(s.threads, s.slots)
  }

  ghost predicate Inv(s: State) {
    && PlacesOk(s)
    && (forall i :: 0 <= i < |s.threads| && Closing(s.threads[i]) ==> s.down)
    && (s.down ==> forall k :: 0 <= k < |s.slots| && s.slots[k] == Child(false) ==> Awaited(s.threads, k))
  }

  lemma AwaitedStays(threads: seq<Pc>, i: nat, pc: Pc, k: nat)
    requires Awaited(threads, k) && i < |threads|
    requires !Closing(threads[i]) || pc == threads[i] || (pc.Close? && k in pc.todo)
    ensures Awaited(threads[i := pc], k)
  {
    var j :| 0 <= j < |threads| && (threads[j] == Collect || (threads[j].Close? && k in threads[j].todo));
    assert threads[i := pc][j] == if j == i then pc else threads[j];
  }

  ghost predicate TodosOk(threads: seq<Pc>, slots: seq<Slot>) {
    forall i :: 0 <= i < |threads| && threads[i].Close? ==> AllFilled(threads[i].todo, slots)
  }

  lemma TodosStay(threads: seq<Pc>, slots: seq<Slot>, i: nat, pc: Pc, k: nat, shut: bool)
    requires TodosOk(threads, slots) && i < |threads| && k < |slots|
    requires pc.Close? ==>
        threads[i].Close? && threads[i].todo != [] && pc.todo == threads[i].todo[..|threads[i].todo| - 1]
    ensures TodosOk(threads[i := pc], slots[k := Child(shut)])
  {
    hide AllFilled;
    var threads' := threads[i := pc];
    forall j | 0 <= j < |threads'| && threads'[j].Close? ensures AllFilled(threads'[j].todo, slots[k := Child(shut)]) {
      FilledStays(threads[j].todo, slots, k, shut);
    }
  }

  lemma PublishPlaces(s: State, s': State, i: nat)
    requires PlacesOk(s) && PublishStep(s, s', i)
    ensures PlacesOk(s')
  {
    hide AllFilled, TodosOk;
    TodosStay(s.threads, s.slots, i, Idle, s.threads[i].slot, s.down);
  }

  lemma ClosePlaces(s: State, s': State, i: nat)
    requires PlacesOk(s) && CloseStep(s, s', i)
    ensures PlacesOk(s')
  {
    hide AllFilled;
    var todo := s.threads[i].todo;
    if todo != [] {
      LastFilled(todo, s.slots);
      TodosStay(s.threads, s.slots, i, s'.threads[i], todo[|todo| - 1], true);
    }
  }

  lemma LastFilled(todo: seq<nat>, slots: seq<Slot>)
    requires AllFilled(todo, slots) && todo != []
    ensures todo[|todo| - 1] < |slots| && slots[todo[|todo| - 1]].Child?
  {}

  lemma ReservePlaces(s: State, s': State, i: nat)
    requires PlacesOk(s) && ReserveStep(s, s', i)
    ensures PlacesOk(s')
  {
    hide AllFilled;
    forall j | 0 <= j < |s'.threads| && s'.threads[j].Close? ensures AllFilled(s'.threads[j].todo, s'.slots) {
      assert s.threads[j].Close?;
      MoreSlots(s.threads[j].todo, s.slots);
    }
  }

  lemma StepKeepsPlaces(s: State, s': State, i: nat)
    requires PlacesOk(s) && StepBy(s, s', i)
    ensures PlacesOk(s')
  {
    hide PlacesOk, BeginStep, ReserveStep, MakeStep, PublishStep, MarkStep, CollectStep, CloseStep;
    if CloseStep(s, s', i) { ClosePlaces(s, s', i); }
    else if PublishStep(s, s', i) { PublishPlaces(s, s', i); }
    else if ReserveStep(s, s', i) { ReservePlaces(s, s', i); }
    else if CollectStep(s, s', i) { CollectPlaces(s, s', i); }
    else { OtherPlaces(s, s', i); }
  }

  lemma CollectPlaces(s: State, s': State, i: nat)
    requires PlacesOk(s) && CollectStep(s, s', i)
    ensures PlacesOk(s')
  {
    hide AllFilled;
    FilledAll(s.slots);
  }

  lemma OtherPlaces(s: State, s': State, i: nat)
    requires PlacesOk(s) && (BeginStep(s, s', i) || MakeStep(s, s', i) || MarkStep(s, s', i))
    ensures PlacesOk(s')
  {
    hide AllFilled;
  }

  lemma FilledAll(slots: seq<Slot>)
    ensures AllFilled(Filled(slots), slots)
  {}

  lemma MoreSlots(todo: seq<nat>, slots: seq<Slot>)
    requires AllFilled(todo, slots)
    ensures AllFilled(todo, slots + [Reserved])
  {}

  lemma StepKeepsAwaited(s: State, s': State, i: nat, k: nat)
    requires Inv(s) && StepBy(s, s', i) && s'.down && k < |s'.slots| && s'.slots[k] == Child(false)
    ensures Awaited(s'.threads, k)
  {
    if MarkStep(s, s', i) && !s.down {
      assert s'.threads[i] == Collect;
    } else {
      assert s.down && k < |s.slots| && s.slots[k] == Child(false);
      if CollectStep(s, s', i) {
        AwaitedStays(s.threads, i, s'.threads[i], k);
      } else if CloseStep(s, s', i) {
        var todo := s.threads[i].todo;
        if todo == [] { EmptyAwaits(s.threads, i, k); }
        else if k in todo { ShorterTodo(todo, k); AwaitedStays(s.threads, i, s'.threads[i], k); }
        else { OtherAwaits(s.threads, i, s'.threads[i], k); }
      } else {
        AwaitedStays(s.threads, i, s'.threads[i], k);
      }
    }
  }

  lemma ShorterTodo(todo: seq<nat>, k: nat)
    requires k in todo && k != todo[|todo| - 1]
    ensures k in todo[..|todo| - 1]
  {}

  lemma OtherAwaits(threads: seq<Pc>, i: nat, pc: Pc, k: nat)
    requires Awaited(threads, k) && i < |threads| && threads[i].Close? && k !in threads[i].todo
    ensures Awaited(threads[i := pc], k)
  {
    var j :| 0 <= j < |threads| && (threads[j] == Collect || (threads[j].Close? && k in threads[j].todo));
    assert threads[i := pc][j] == threads[j];
  }

  lemma EmptyAwaits(threads: seq<Pc>, i: nat, k: nat)
    requires Awaited(threads, k) && i < |threads| && threads[i] == Close([])
    ensures Awaited(threads[i := Idle], k)
  {
    OtherAwaits(threads, i, Idle, k);
  }

  lemma StepKeeps(s: State, s': State, i: nat)
    requires Inv(s) && StepBy(s, s', i)
    ensures Inv(s')
  {
    hide PlacesOk, Awaited, StepBy;
    StepKeepsPlaces(s, s', i);
    StepClosing(s, s', i);
    if s'.down {
      forall k | 0 <= k < |s'.slots| && s'.slots[k] == Child(false) ensures Awaited(s'.threads, k) {
        StepKeepsAwaited(s, s', i, k);
      }
    }
  }

  lemma StepClosing(s: State, s': State, i: nat)
    requires Inv(s) && StepBy(s, s', i)
    ensures forall j :: 0 <= j < |s'.threads| && Closing(s'.threads[j]) ==> s'.down
  {
    hide PlacesOk, Awaited;
  }

  lemma {:induction false} RunKeeps(run: seq<State>, n: nat)
    requires IsRun(run) && n < |run|
    ensures Inv(run[n])
  {
    hide StepBy;
    if n > 0 {
      RunKeeps(run, n - 1);
      assert Next(run[n - 1], run[n - 1 + 1]);
      var i: nat :| StepBy(run[n - 1], run[n], i);
      StepKeeps(run[n - 1], run[n], i);
    }
  }

  /** No child escapes: when no thread is in an operation and the parent is shut down, every child that was
      created is shut down, whether it came before the children were collected or after. */
  lemma NoChildEscapes(run: seq<State>, n: nat, k: nat)
    requires IsRun(run) && n < |run| && run[n].down && k in run[n].created
    requires forall i :: 0 <= i < |run[n].threads| ==> !Closing(run[n].threads[i])
    ensures k < |run[n].slots| && run[n].slots[k] == Child(true)
  {
    RunKeeps(run, n);
  }

  // ---------------------------------------------------------------- no child is lost

  /** Some thread is about to put a child there. */
  ghost predicate Filling(threads: seq<Pc>, k: nat) {
    exists i :: 0 <= i < |threads| && Place(threads[i]) == k
  }

  /** An empty place has a thread that is about to fill it, a full one a child that was created, and no child is shut
      down while its parent is not. */
  ghost predicate SlotsOk(s: State) {
    forall k :: 0 <= k < |s.slots| ==>
      && (s.slots[k] == Reserved ==> Filling(s.threads, k))
      && (s.slots[k].Child? ==> k in s.created && (s.slots[k].shut ==> s.down))
  }

  lemma FillingStays(threads: seq<Pc>, i: nat, pc: Pc, k: nat)
    requires Filling(threads, k) && i < |threads| && (Place(threads[i]) == k ==> Place(pc) == k)
    ensures Filling(threads[i := pc], k)
  {
    var j :| 0 <= j < |threads| && Place(threads[j]) == k;
    assert Place(threads[i := pc][j]) == k;
  }

  lemma StepKeepsSlots(s: State, s': State, i: nat)
    requires Inv(s) && SlotsOk(s) && StepBy(s, s', i)
    ensures SlotsOk(s')
  {
    hide AllFilled, TodosOk, Filling, Awaited, Filled;
    if ReserveStep(s, s', i) { assert Place(s'.threads[i]) == |s.slots|; FillingNow(s'.threads, i); }
    if CloseStep(s, s', i) { ClosesChild(s, i); }
    forall k | 0 <= k < |s'.slots| && s'.slots[k] == Reserved ensures Filling(s'.threads, k) {
      if k < |s.slots| { FillingStays(s.threads, i, s'.threads[i], k); }
    }
  }

  lemma ClosesChild(s: State, i: nat)
    requires Inv(s) && i < |s.threads| && s.threads[i].Close?
    ensures s.down
    ensures var todo := s.threads[i].todo;
      todo != [] ==> todo[|todo| - 1] < |s.slots| && s.slots[todo[|todo| - 1]].Child?
  {
    hide Awaited, AllFilled;
    if s.threads[i].todo != [] { LastFilled(s.threads[i].todo, s.slots); }
  }

  lemma FillingNow(threads: seq<Pc>, i: nat)
    requires i < |threads| && Place(threads[i]) >= 0
    ensures Filling(threads, Place(threads[i]))
  {}

  /** In every interleaving a creation that is under way or has returned has its place or its child, and children
      are shut down only after their parent is. */
  lemma {:induction false} NoChildLost(run: seq<State>, n: nat)
    requires IsRun(run) && n < |run|
    ensures forall k :: 0 <= k < |run[n].slots| && run[n].slots[k] == Reserved ==> Filling(run[n].threads, k)
    ensures forall k :: 0 <= k < |run[n].slots| && run[n].slots[k].Child? ==> k in run[n].created
    ensures forall k :: 0 <= k < |run[n].slots| && run[n].slots[k] == Child(true) ==> run[n].down
  {
    hide StepBy, Inv, Filling;
    if n > 0 {
      NoChildLost(run, n - 1);
      RunKeeps(run, n - 1);
      assert Next(run[n - 1], run[n - 1 + 1]);
      var i: nat :| StepBy(run[n - 1], run[n], i);
      StepKeepsSlots(run[n - 1], run[n], i);
    }
  }
}
