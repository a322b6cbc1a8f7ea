/** The order of calls: the filters that one completed type satisfies are called in the order of their altitudes. */
module CallOrder {
  import opened Prelude
  import opened FilterNetwork
  import opened PacketState
  import opened PacketSteps
  import opened PacketPropagation
  import opened PacketFacts
  import opened PacketSetup
  import opened Wiring
  import opened Immediates
  import opened PacketFlags

  /** Both were called, `f` first. */
  ghost predicate CalledBefore(calls: seq<FilterId>, f: FilterId, g: FilterId) {
    exists p, q :: 0 <= p < q < |calls| && calls[p] == f && calls[q] == g
  }

  /** `f` misses only `t`, and can be called once `t` is complete, with a value or without one. */
  ghost predicate Candidate(net: Network, s: State, t: TypeId, value: bool, f: FilterId) {
    Untold(net, s, f, t) && 0 <= f < |s.remaining| && s.remaining[f] == 1 && (value || !Needs(net, f, t))
  }

  /** Of two candidates the one of higher altitude is called first. */
  ghost predicate CalledInTurn(net: Network, s: State, t: TypeId, value: bool, calls: seq<FilterId>) {
    forall f, g ::
      Candidate(net, s, t, value, f) && Candidate(net, s, t, value, g) && Above(net.filters, f, g) ==>
        CalledBefore(calls, f, g)
  }

  /** `f` is of the higher altitude, which is the lower number. */
  predicate Above(filters: seq<Filter>, f: FilterId, g: FilterId) {
    0 <= f < |filters| && 0 <= g < |filters| && filters[f].altitude < filters[g].altitude
  }

  // ---------------------------------------------------------------- candidates are queued

  /** All inputs but one have been delivered. */
  lemma OthersDelivered(net: Network, s: State, t: TypeId, f: FilterId)
    requires WellFormed(net) && Inv(net, s) && Untold(net, s, f, t) && 0 <= f < |s.remaining| && s.remaining[f] == 1
    ensures forall u :: Consumes(net, f, u) && u != t ==> (f, u) in s.delivered
  {
    hide WellFormed, SlotsOk, EmittedOk, SoundOk, CallsOk, DoomedOk, DeliveredOk;
    ArgumentsOf(net, f);
    var args := net.filters[f].args;
    MissingDeliver(args, f, s.delivered, t);
    MissingZero(args, f, s.delivered + {(f, t)});
    forall u | Consumes(net, f, u) && u != t ensures (f, u) in s.delivered {
      assert ArgumentFor(args, u).value in args;
    }
  }

  lemma CandidateQueued(net: Network, start: State, s: State, t: TypeId, told: set<FilterId>,
      queue: seq<FilterId>, unsat: seq<(FilterId, TypeId)>, value: bool, f: FilterId)
    requires WellFormed(net) && Inv(net, start) && Telling(net, start, s, t, told, queue, unsat) && f in told
    requires Candidate(net, start, t, value, f) && (value ==> At(start.slots, t).decorations != [])
    ensures f in queue
  {
    hide WellFormed, SlotsOk, EmittedOk, SoundOk, Owes, CountersOk, Inv;
    OthersDelivered(net, start, t, f);
    NotStarved(net, start, t, value, f);
    TellingNow(net, start, s, t, told, queue, unsat);
    StillNotDoomed(net, s, f);
    assert !Untold(net, s, f, t);
    forall u | Consumes(net, f, u) ensures (f, u) in s.delivered {}
    NotCalledYet(net, start, f, t);
    assert Queued(net, s, f) && !Queued(net, start, f);
  }

  lemma TellingNow(net: Network, start: State, s: State, t: TypeId, told: set<FilterId>,
      queue: seq<FilterId>, unsat: seq<(FilterId, TypeId)>)
    requires Telling(net, start, s, t, told, queue, unsat)
    ensures Inv(net, s) && s.slots == start.slots && s.calls == start.calls && start.delivered <= s.delivered
    ensures forall f :: Queued(net, s, f) <==> Queued(net, start, f) || f in queue
  {
    hide Inv, Owes, Untold, Queued;
  }

  /** None of its inputs is complete without a value it needs. */
  lemma NotStarved(net: Network, s: State, t: TypeId, value: bool, f: FilterId)
    requires Inv(net, s) && Candidate(net, s, t, value, f) && (value ==> At(s.slots, t).decorations != [])
    requires forall u :: Consumes(net, f, u) && u != t ==> (f, u) in s.delivered
    ensures !Starved(net, s.slots, f)
  {
    hide SlotsOk, EmittedOk, SoundOk, CallsOk, DoomedOk, CountersOk, KindOf, Consumes;
    forall u | Needs(net, f, u) ensures Consumes(net, f, u) { NeedsConsumes(net, f, u); }
  }

  lemma NeedsConsumes(net: Network, f: FilterId, u: TypeId)
    requires Needs(net, f, u)
    ensures Consumes(net, f, u)
  {}

  lemma StillNotDoomed(net: Network, s: State, f: FilterId)
    requires Inv(net, s) && !Starved(net, s.slots, f)
    ensures f !in s.doomed
  {
    hide SlotsOk, EmittedOk, SoundOk, CallsOk, DeliveredOk, CountersOk, Starved;
  }

  lemma NotCalledYet(net: Network, s: State, f: FilterId, t: TypeId)
    requires Inv(net, s) && Untold(net, s, f, t)
    ensures f !in s.calls && !Queued(net, s, f)
  {
    hide SlotsOk, EmittedOk, SoundOk, DoomedOk, DeliveredOk, CountersOk, Consumes;
  }

  // ---------------------------------------------------------------- the queue is in order

  /** The queue is in order of altitude, and nobody in it comes after the subscribers from `i` on. */
  ghost predicate QueueRises(filters: seq<Filter>, subs: seq<Subscriber>, i: nat, queue: seq<FilterId>) {
    && (forall a :: 0 <= a < |queue| ==> 0 <= queue[a] < |filters|)
    && (forall a, b :: 0 <= a < b < |queue| ==> filters[queue[a]].altitude <= filters[queue[b]].altitude)
    && (forall a, j :: 0 <= a < |queue| && i <= j < |subs| && 0 <= subs[j].counter < |filters| ==>
          filters[queue[a]].altitude <= filters[subs[j].counter].altitude)
  }

  lemma EmptyRises(filters: seq<Filter>, subs: seq<Subscriber>)
    ensures QueueRises(filters, subs, 0, [])
  {}

  lemma QueueRisesNext(filters: seq<Filter>, subs: seq<Subscriber>, i: nat, queue: seq<FilterId>, queue': seq<FilterId>)
    requires AltitudesRise(filters, subs) && i < |subs| && QueueRises(filters, subs, i, queue)
    requires queue' == queue || queue' == queue + [subs[i].counter]
    ensures QueueRises(filters, subs, i + 1, queue')
  {}

  ghost predicate Rises(filters: seq<Filter>, queue: seq<FilterId>) {
    && (forall a :: 0 <= a < |queue| ==> 0 <= queue[a] < |filters|)
    && (forall a, b :: 0 <= a < b < |queue| ==> filters[queue[a]].altitude <= filters[queue[b]].altitude)
  }

  lemma QueueIsRising(filters: seq<Filter>, subs: seq<Subscriber>, i: nat, queue: seq<FilterId>)
    requires QueueRises(filters, subs, i, queue)
    ensures Rises(filters, queue)
  {}

  // ---------------------------------------------------------------- the calls follow the queue

  /** The first `i` of the queue have been called, in that order. */
  ghost predicate CalledThrough(calls: seq<FilterId>, queue: seq<FilterId>, i: nat) {
    && i <= |queue|
    && (forall a :: 0 <= a < i ==> queue[a] in calls)
    && (forall a, b :: 0 <= a < b < i ==> CalledBefore(calls, queue[a], queue[b]))
  }

  lemma CalledLater(calls: seq<FilterId>, calls': seq<FilterId>, queue: seq<FilterId>, i: nat)
    requires CalledThrough(calls, queue, i) && calls <= calls'
    ensures CalledThrough(calls', queue, i)
  {
    forall a | 0 <= a < i ensures queue[a] in calls' { StillIn(calls, calls', queue[a]); }
    forall a, b | 0 <= a < b < i ensures CalledBefore(calls', queue[a], queue[b]) {
      var p, q :| 0 <= p < q < |calls| && calls[p] == queue[a] && calls[q] == queue[b];
      assert calls'[p] == queue[a] && calls'[q] == queue[b];
    }
  }

  lemma StillIn(calls: seq<FilterId>, calls': seq<FilterId>, f: FilterId)
    requires calls <= calls' && f in calls
    ensures f in calls'
  {
    var p :| 0 <= p < |calls| && calls[p] == f;
    assert calls'[p] == f;
  }

  lemma CalledNext(calls: seq<FilterId>, calls': seq<FilterId>, queue: seq<FilterId>, i: nat)
    requires CalledThrough(calls, queue, i) && calls <= calls' && i < |queue|
    requires queue[i] !in calls && queue[i] in calls'
    ensures CalledThrough(calls', queue, i + 1)
  {
    hide CalledBefore;
    CalledLater(calls, calls', queue, i);
    forall a | 0 <= a < i ensures CalledBefore(calls', queue[a], queue[i]) {
      NewIsLater(calls, calls', queue[a], queue[i]);
    }
  }

  lemma NewIsLater(calls: seq<FilterId>, calls': seq<FilterId>, f: FilterId, g: FilterId)
    requires calls <= calls' && f in calls && g !in calls && g in calls'
    ensures CalledBefore(calls', f, g)
  {
    var p :| 0 <= p < |calls| && calls[p] == f;
    var q :| 0 <= q < |calls'| && calls'[q] == g;
    assert forall k :: 0 <= k < |calls| ==> calls[k] != g;
    assert calls'[p] == f;
  }

  /** Candidates stand in the queue in order of altitude, and so they are called. */
  lemma CandidatesInTurn(net: Network, start: State, s: State, t: TypeId, told: set<FilterId>,
      queue: seq<FilterId>, unsat: seq<(FilterId, TypeId)>, value: bool, calls: seq<FilterId>)
    requires WellFormed(net) && Inv(net, start) && Telling(net, start, s, t, told, queue, unsat)
    requires forall f :: Consumes(net, f, t) ==> f in told
    requires value ==> At(start.slots, t).decorations != []
    requires Rises(net.filters, queue) && CalledThrough(calls, queue, |queue|)
    ensures CalledInTurn(net, start, t, value, calls)
  {
    hide WellFormed, Inv, Telling, Consumes, CalledBefore, Needs;
    forall f, g |
      Candidate(net, start, t, value, f) && Candidate(net, start, t, value, g) && Above(net.filters, f, g)
      ensures CalledBefore(calls, f, g)
    {
      CandidateQueued(net, start, s, t, told, queue, unsat, value, f);
      CandidateQueued(net, start, s, t, told, queue, unsat, value, g);
      var a :| 0 <= a < |queue| && queue[a] == f;
      var b :| 0 <= b < |queue| && queue[b] == g;
      assert a < b;
    }
  }

  lemma EffectiveRises(plain: Network, given: Given, queue: seq<FilterId>)
    requires Rises(plain.filters, queue)
    ensures Rises(Effective(plain, given).filters, queue)
  {}

  lemma CallsGrow(net: Network, s: State, s': State, f: FilterId)
    requires Inv(net, s) && Queued(net, s, f) && CalledOne(net, s, s', f)
    ensures s.calls <= s'.calls && f !in s.calls && f in s'.calls
  {
    hide Inv, Queued, Owes, Untold;
    StartingCalled(net, s, s', f);
  }

  lemma OutputsGrow(net: Network, s: State, s': State, f: FilterId, t: TypeId)
    requires ConcludedOne(net, s, s', f, t)
    ensures s.calls <= s'.calls
  {
    hide Inv, Queued, Owes, Untold;
  }

  lemma NoneCalled(calls: seq<FilterId>, queue: seq<FilterId>)
    ensures CalledThrough(calls, queue, 0)
  {}

  // ---------------------------------------------------------------- decisions of the caller

  /** By the flags of its arguments: `f` misses no input but `t`, and can be called once `t` is decided, with a value or
      without one. */
  ghost predicate WaitsFor(plain: Network, given: Given, s: State, t: TypeId, value: bool, f: FilterId) {
    && 0 <= f < |plain.filters| && f !in s.doomed && 0 <= f < |s.remaining| && s.remaining[f] == 1
    && !(f in given && t in given[f])
    && exists a :: a in plain.filters[f].args && a.isInput && !a.isRvalue && a.id == t &&
         (value || a.isMulti || a.isShared)
  }

  /** The filters that waited for `t` only are called in the order of their altitudes. */
  ghost predicate CallsInTurn(
    plain: Network, given: Given, s: State, t: TypeId, value: bool, calls: seq<FilterId>)
  {
    forall f, g ::
      WaitsFor(plain, given, s, t, value, f) && WaitsFor(plain, given, s, t, value, g) && Above(plain.filters, f, g) ==>
        CalledBefore(calls, f, g)
  }

  lemma WaitsIsCandidate(plain: Network, given: Given, s: State, m: State, t: TypeId, value: bool, f: FilterId)
    requires WellFormed(plain) && WaitsFor(plain, given, s, t, value, f)
    requires m.remaining == s.remaining && m.doomed == s.doomed && m.delivered == s.delivered
    requires Completed(m.slots, t) && (f, t) !in s.delivered
    ensures Candidate(Effective(plain, given), m, t, value, f)
  {
    hide WellFormed, Effective, Consumes, Needs;
    var a :| a in plain.filters[f].args && a.isInput && !a.isRvalue && a.id == t &&
      (value || a.isMulti || a.isShared);
    InputFlags(plain, given, f, a);
  }

  lemma RootsInTurn(plain: Network, given: Given, s: State, m: State, t: TypeId, value: bool, calls: seq<FilterId>)
    requires WellFormed(plain) && CalledInTurn(Effective(plain, given), m, t, value, calls)
    requires m.remaining == s.remaining && m.doomed == s.doomed && m.delivered == s.delivered
    requires Completed(m.slots, t) && forall f :: (f, t) !in s.delivered
    ensures CallsInTurn(plain, given, s, t, value, calls)
  {
    hide WellFormed, WaitsFor, Candidate, CalledBefore;
    forall f, g |
      WaitsFor(plain, given, s, t, value, f) && WaitsFor(plain, given, s, t, value, g) && Above(plain.filters, f, g)
      ensures CalledBefore(calls, f, g)
    {
      WaitsIsCandidate(plain, given, s, m, t, value, f);
      WaitsIsCandidate(plain, given, s, m, t, value, g);
    }
  }

  /** It does not matter which entries there are. */
  lemma SlotsDoNotMatter(
    plain: Network, given: Given, s: State, s': State, t: TypeId, value: bool, calls: seq<FilterId>)
    requires s'.remaining == s.remaining && s'.doomed == s.doomed
    ensures CallsInTurn(plain, given, s, t, value, calls) == CallsInTurn(plain, given, s', t, value, calls)
  {
    hide CalledBefore;
    forall f ensures WaitsFor(plain, given, s, t, value, f) == WaitsFor(plain, given, s', t, value, f) {}
  }

  // ---------------------------------------------------------------- filters that need no input

  predicate NoInputs(x: Filter) { forall a :: a in x.args ==> !a.isInput }

  lemma {:induction false} NothingRequired(args: seq<Argument>)
    ensures RequiredCount(args) == 0 <==> forall a :: a in args ==> !a.isInput
  {
    if args != [] {
      var n := |args| - 1;
      NothingRequired(args[..n]);
      assert args == args[..n] + [args[n]];
      assert forall a :: a in args <==> a in args[..n] || a == args[n];
    }
  }

  /** The filters that need no input are called in the order in which they are listed. */
  ghost predicate StartersInTurn(filters: seq<Filter>, calls: seq<FilterId>) {
    forall f, g :: 0 <= f < g < |filters| && NoInputs(filters[f]) && NoInputs(filters[g]) ==> CalledBefore(calls, f, g)
  }

  ghost predicate Ascending(queue: seq<FilterId>) {
    forall a, b :: 0 <= a < b < |queue| ==> queue[a] < queue[b]
  }

  lemma AscendingNext(queue: seq<FilterId>, i: nat)
    requires Ascending(queue) && forall f :: f in queue ==> f < i
    ensures Ascending(queue + [i])
  {
    forall a | 0 <= a < |queue| ensures queue[a] < i { assert queue[a] in queue; }
  }

  lemma StartersCalled(filters: seq<Filter>, s: State, queue: seq<FilterId>, calls: seq<FilterId>)
    requires Pristine(filters, s) && Ascending(queue) && CalledThrough(calls, queue, |queue|)
    requires forall f :: f in queue <==> 0 <= f < |filters| && 0 <= f < |s.remaining| && s.remaining[f] == 0
    ensures StartersInTurn(filters, calls)
  {
    hide CalledBefore, RequiredCount;
    forall f, g | 0 <= f < g < |filters| && NoInputs(filters[f]) && NoInputs(filters[g])
      ensures CalledBefore(calls, f, g)
    {
      NothingRequired(filters[f].args);
      NothingRequired(filters[g].args);
      var a :| 0 <= a < |queue| && queue[a] == f;
      var b :| 0 <= b < |queue| && queue[b] == g;
      assert a < b;
    }
  }

  lemma StarterCalled(net: Network, s: State, s': State, queue: seq<FilterId>, i: nat)
    requires i < |queue| && Starting(net, s, queue[i..]) && CalledOne(net, s, s', queue[i])
    requires CalledThrough(s.calls, queue, i)
    ensures CalledThrough(s'.calls, queue, i + 1)
  {
    hide Inv, Owes, Untold, CalledOne, CalledThrough;
    StartingFirst(net, s, queue[i..]);
    StartingInv(net, s, queue[i..]);
    CallsGrow(net, s, s', queue[i]);
    CalledNext(s.calls, s'.calls, queue, i);
  }

  lemma StartingInv(net: Network, s: State, queue: seq<FilterId>)
    requires Starting(net, s, queue)
    ensures Inv(net, s)
  {
    hide Inv, Owes, Untold, Queued;
  }
}
