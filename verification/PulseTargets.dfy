/** Which filters a pulse calls, in terms of the network: those that miss immediates and nothing else. */
module PulseTargets {
  import opened Prelude
  import opened FilterNetwork
  import opened PacketState
  import opened PacketSteps
  import opened PacketOutcome
  import opened PacketFacts
  import opened PacketPropagation
  import opened PacketSetup
  import opened Wiring
  import opened PacketPulse
  import opened Immediates

  /** The immediates of a pulse. */
  type Immeds = map<TypeId, Value>

  /** An immediate serves the inputs of its type that do not ask for a shared pointer. */
  predicate Serves(plain: Network, imms: Immeds, f: FilterId, t: TypeId) {
    t in imms && Consumes(plain, f, t) && !SharedInput(plain, f, t)
  }

  /** What a filter is handed of the immediates. */
  ghost function Handout(plain: Network, imms: Immeds, f: FilterId): (r: View)
    ensures forall t :: t in r <==> t in imms && Consumes(plain, f, t)
    ensures forall t :: t in r ==> r[t] == HandedValues(KindOf(plain, f, t), imms[t])
  {
    map t | t in InputTypes(plain, f) && t in imms :: HandedValues(KindOf(plain, f, t), imms[t])
  }

  /** Every input of the filter was delivered or is served, and some input is served. */
  ghost predicate MissesOnly(plain: Network, imms: Immeds, delivered: Pairs, f: FilterId) {
    && 0 <= f < |plain.filters| && !plain.filters[f].deferred
    && (exists t :: Serves(plain, imms, f, t))
    && (forall t :: Consumes(plain, f, t) ==> (f, t) in delivered || Serves(plain, imms, f, t))
  }

  /** The number of arguments that the first immediates of a list serve. */
  function Served(args: seq<Argument>, types: seq<TypeId>): nat {
    if args == [] then 0
    else (if args[0].Subscribes() && !args[0].isShared && args[0].id in types then 1 else 0) + Served(args[1..], types)
  }

  lemma {:induction false} ServedNone(args: seq<Argument>)
    ensures Served(args, []) == 0
  {
    if args != [] { ServedNone(args[1..]); }
  }

  function ServedBy(args: seq<Argument>, t: TypeId): nat {
    var a := ArgumentFor(args, t); if a.Some? && a.value.Subscribes() && !a.value.isShared then 1 else 0
  }

  lemma {:induction false} ServedNext(args: seq<Argument>, t: TypeId, types: seq<TypeId>)
    requires DistinctTypes(args) && t !in types
    ensures Served(args, [t] + types) == ServedBy(args, t) + Served(args, types)
  {
    if args != [] {
      ServedNext(args[1..], t, types);
      if args[0].id == t { NotAgain(args, t); }
    }
  }

  lemma NotAgain(args: seq<Argument>, t: TypeId)
    requires DistinctTypes(args) && args != [] && args[0].id == t
    ensures ArgumentFor(args[1..], t) == None
  {}

  /** A filter subscribes to a type at most once. */
  lemma {:induction false} CountMatches(net: Network, t: TypeId, subs: seq<Subscriber>, k: nat, f: FilterId)
    requires SubscribersMatch(net, t, subs) && k <= |subs|
    ensures Count(subs[..k], f) ==
            if (exists i :: 0 <= i < k && subs[i].counter == f) && !SharedInput(net, f, t) then 1 else 0
  {
    hide Consumes, KindOf, SharedInput;
    if k > 0 {
      CountMatches(net, t, subs, k - 1, f);
      assert subs[..k][..k - 1] == subs[..k - 1];
      assert subs[k - 1].counter == f ==> forall i :: 0 <= i < k - 1 ==> subs[i].counter != f;
    }
  }

  lemma CountIsServed(net: Network, t: TypeId, subs: seq<Subscriber>, f: FilterId)
    requires SubscribersMatch(net, t, subs) && 0 <= f < |net.filters|
    ensures Count(subs, f) == ServedBy(net.filters[f].args, t)
  {
    hide Count, ArgumentFor;
    CountMatches(net, t, subs, |subs|, f);
    assert subs[..|subs|] == subs;
    if Consumes(net, f, t) {
      var i :| 0 <= i < |subs| && subs[i].counter == f;
    }
  }

  ghost predicate ListsMatch(net: Network, types: seq<TypeId>, lists: seq<seq<Subscriber>>) {
    && |lists| == |types| && Distinct(types)
    && forall i :: 0 <= i < |types| ==> SubscribersMatch(net, types[i], lists[i])
  }

  lemma ListsMatchTail(net: Network, types: seq<TypeId>, lists: seq<seq<Subscriber>>)
    requires ListsMatch(net, types, lists) && types != []
    ensures |lists| == |types|
    ensures ListsMatch(net, types[1..], lists[1..]) && types[0] !in types[1..] && types == [types[0]] + types[1..]
    ensures SubscribersMatch(net, types[0], lists[0])
  {
    hide SubscribersMatch;
  }

  /** A filter is pulsed once for each of its inputs that is served. */
  lemma {:induction false} VisitedServed(net: Network, types: seq<TypeId>, lists: seq<seq<Subscriber>>, f: FilterId)
    requires ListsMatch(net, types, lists) && 0 <= f < |net.filters| && DistinctTypes(net.filters[f].args)
    ensures Count(Visited(lists), f) == Served(net.filters[f].args, types)
  {
    hide Count, Served, SubscribersMatch, ListsMatch, ServedBy;
    if types == [] {
      NothingServed(net, lists, f);
    } else {
      ListsMatchTail(net, types, lists);
      NotEmpty(net, types, lists);
      VisitedServed(net, types[1..], lists[1..], f);
      CountConcat(Visited(lists[1..]), lists[0], f);
      CountIsServed(net, types[0], lists[0], f);
      ServedNext(net.filters[f].args, types[0], types[1..]);
    }
  }

  lemma NothingServed(net: Network, lists: seq<seq<Subscriber>>, f: FilterId)
    requires ListsMatch(net, [], lists) && 0 <= f < |net.filters|
    ensures Count(Visited(lists), f) == Served(net.filters[f].args, []) == 0
  {
    ServedNone(net.filters[f].args);
  }

  lemma NotEmpty(net: Network, types: seq<TypeId>, lists: seq<seq<Subscriber>>)
    requires ListsMatch(net, types, lists) && types != []
    ensures Visited(lists) == Visited(lists[1..]) + lists[0]
  {}

  /** What is served was missing; nothing else is missing exactly if the counts agree. */
  lemma {:induction false} ServedMissing(args: seq<Argument>, types: seq<TypeId>, f: FilterId, delivered: Pairs)
    requires forall t :: t in types ==> (f, t) !in delivered
    ensures Served(args, types) <= Missing(args, f, delivered)
    ensures Served(args, types) == Missing(args, f, delivered) <==>
            forall a :: a in args && a.Subscribes() ==> (f, a.id) in delivered || (a.id in types && !a.isShared)
  {
    if args != [] {
      ServedMissing(args[1..], types, f, delivered);
      assert forall a :: a in args <==> a == args[0] || a in args[1..];
    }
  }

  lemma {:induction false} SomeServed(args: seq<Argument>, types: seq<TypeId>)
    ensures Served(args, types) > 0 <==> exists a :: a in args && a.Subscribes() && !a.isShared && a.id in types
  {
    if args != [] {
      SomeServed(args[1..], types);
      assert forall a :: a in args <==> a == args[0] || a in args[1..];
    }
  }

  /** A filter is a target of the passes exactly if it misses only what is served. */
  lemma TargetMisses(
    plain: Network, imms: Immeds, types: seq<TypeId>, lists: seq<seq<Subscriber>>, delivered: Pairs, f: FilterId)
    requires WellFormed(plain) && ListsMatch(plain, types, lists) && 0 <= f < |plain.filters|
    requires forall t :: t in types <==> t in imms
    requires forall t :: t in imms ==> (f, t) !in delivered
    ensures var missing := Missing(plain.filters[f].args, f, delivered);
            && Count(Visited(lists), f) <= missing
            && (!plain.filters[f].deferred && 0 < missing == Count(Visited(lists), f) <==>
                MissesOnly(plain, imms, delivered, f))
  {
    hide Count, Visited, Served, Missing, SubscribersMatch, ListsMatch, ArgumentFor, WellFormed;
    var args := plain.filters[f].args;
    ArgumentsOf(plain, f);
    VisitedServed(plain, types, lists, f);
    ServedMissing(args, types, f, delivered);
    SomeServed(args, types);
    MissesOnlyArgument(plain, imms, types, delivered, f);
    MissingZero(args, f, delivered);
  }

  lemma MissesOnlyArgument(plain: Network, imms: Immeds, types: seq<TypeId>, delivered: Pairs, f: FilterId)
    requires WellFormed(plain) && 0 <= f < |plain.filters|
    requires forall t :: t in types <==> t in imms
    ensures var args := plain.filters[f].args;
            MissesOnly(plain, imms, delivered, f) <==>
              && !plain.filters[f].deferred
              && (exists a :: a in args && a.Subscribes() && !a.isShared && a.id in types)
              && (forall a :: a in args && a.Subscribes() ==> (f, a.id) in delivered || (a.id in types && !a.isShared))
  {
    hide WellFormed;
    ArgumentsOf(plain, f);
    var args := plain.filters[f].args;
    forall a | a in args && a.Subscribes()
      ensures Consumes(plain, f, a.id) && (Serves(plain, imms, f, a.id) <==> a.id in types && !a.isShared)
    {}
    forall t | Consumes(plain, f, t) ensures exists a :: a in args && a.Subscribes() && a.id == t {
      var a := ArgumentFor(args, t).value;
      assert a in args && a.Subscribes() && a.id == t;
    }
    if exists t :: Serves(plain, imms, f, t) {
      var t :| Serves(plain, imms, f, t);
      var a :| a in args && a.Subscribes() && a.id == t;
      assert !a.isShared && a.id in types;
    }
  }

  // ---------------------------------------------------------------- one round

  /** The immediates are of types nobody publishes and nothing was decided about. */
  ghost predicate OpenImmeds(plain: Network, imms: Immeds, roots: Roots) {
    forall t :: t in imms ==> Publishers(plain, t) == [] && t !in roots
  }

  lemma ImmedsUndelivered(plain: Network, given: Given, imms: Immeds, s: State)
    requires Inv(Effective(plain, given), s) && OpenImmeds(plain, imms, s.roots)
    ensures forall t :: t in imms ==> !Completed(s.slots, t)
    ensures forall f, t :: t in imms ==> (f, t) !in s.delivered
  {
    hide Effective, Publishers, CountersOk, SoundOk, EmittedOk, DoomedOk, CallsOk, Consumes;
    forall t | t in imms ensures !Completed(s.slots, t) {
      EffectivePublishers(plain, given, t);
      RootCompletes(Effective(plain, given), s, t);
    }
  }

  /** Among the filters that were not handed anything, the targets are those that miss only what is served. */
  lemma RoundTarget(
    plain: Network, given: Given, imms: Immeds, types: seq<TypeId>, lists: seq<seq<Subscriber>>, s: State, f: FilterId)
    requires WellFormed(plain) && Inv(Effective(plain, given), s) && GivenOk(plain, given, {}, s)
    requires OpenImmeds(plain, imms, s.roots) && ListsMatch(plain, types, lists)
    requires forall t :: t in types <==> t in imms
    requires 0 <= f < |plain.filters|
    ensures |s.remaining| == |plain.filters|
    ensures s.remaining[f] == 0 || s.remaining[f] >= Count(Visited(lists), f)
    ensures !plain.filters[f].deferred && 0 < s.remaining[f] == Count(Visited(lists), f) <==>
              f !in given && MissesOnly(plain, imms, s.delivered, f)
  {
    hide Count, Visited, Missing, ListsMatch, WellFormed, Publishers, GivenOk, Consumes, SlotsOk, SoundOk, EmittedOk;
    hide MissesOnly;
    ImmedsUndelivered(plain, given, imms, s);
    TargetMisses(plain, imms, types, lists, s.delivered, f);
    if f in given {
      GivenWaitsForNothing(plain, given, {}, s, f);
    } else {
      NoneWithout(plain.filters[f].args);
      if f in s.doomed { DoomedMissesMore(plain, given, imms, s, f); }
    }
  }

  lemma NoneWithout(args: seq<Argument>)
    ensures Without(args, {}) == args
  {}

  /** A filter that was given up misses an input that is not served. */
  lemma DoomedMissesMore(plain: Network, given: Given, imms: Immeds, s: State, f: FilterId)
    requires Inv(Effective(plain, given), s) && OpenImmeds(plain, imms, s.roots) && f in s.doomed
    ensures !MissesOnly(plain, imms, s.delivered, f)
  {
    hide Effective, Publishers, CountersOk, SoundOk, EmittedOk, SlotsOk, CallsOk, Consumes, KindOf;
    ImmedsUndelivered(plain, given, imms, s);
    var net := Effective(plain, given);
    assert Starved(net, s.slots, f);
    var u :| Needs(net, f, u) && Completed(s.slots, u) && At(s.slots, u).decorations == [];
    EffectiveArguments(plain, given, f, u);
    assert (f, u) !in s.delivered;
  }

  /** Each filter in the queue is handed the immediates among its inputs. */
  ghost function Give(plain: Network, given: Given, imms: Immeds, queue: seq<FilterId>): (r: Given)
    ensures forall f :: f in r <==> f in given || f in queue
    ensures forall f :: f in given ==> r[f] == given[f]
    ensures forall f :: f in r && f !in given ==> r[f] == Handout(plain, imms, f)
  {
    map f | f in given.Keys + (set g | g in queue) :: if f in given then given[f] else Handout(plain, imms, f)
  }

  /** A filter that misses only what is served has been neither called nor given up. */
  lemma MissingIsIdle(plain: Network, given: Given, imms: Immeds, s: State, f: FilterId)
    requires Inv(Effective(plain, given), s) && OpenImmeds(plain, imms, s.roots)
    requires f !in given && MissesOnly(plain, imms, s.delivered, f)
    ensures f !in s.calls && f !in s.doomed && exists t :: t in Handout(plain, imms, f)
  {
    hide Effective, Publishers, SlotsOk, SoundOk, EmittedOk, CountersOk, Consumes, SharedInput, DoomedOk;
    ImmedsUndelivered(plain, given, imms, s);
    var u :| Serves(plain, imms, f, u);
    assert u in Handout(plain, imms, f);
    EffectiveArguments(plain, given, f, u);
    if f in s.doomed { DoomedMissesMore(plain, given, imms, s, f); }
    assert f in s.calls ==> AllDelivered(Effective(plain, given), s.delivered, f);
  }

  lemma RoundHandOut(plain: Network, given: Given, imms: Immeds, s: State, queue: seq<FilterId>)
    requires Inv(Effective(plain, given), s) && GivenOk(plain, given, {}, s) && OpenImmeds(plain, imms, s.roots)
    requires forall f :: f in queue ==> f !in given && MissesOnly(plain, imms, s.delivered, f)
    ensures MayHandOut(plain, given, Give(plain, given, imms, queue), s)
  {
    hide Effective, Publishers, Inv, Consumes, SharedInput, Handout;
    var given' := Give(plain, given, imms, queue);
    forall f | f in Newly(given, given')
      ensures 0 <= f < |plain.filters| && f !in s.calls && f !in s.doomed && exists t :: t in given'[f]
      ensures forall t :: Consumes(plain, f, t) ==> t in given'[f] || (f, t) in s.delivered
    {
      assert f in queue;
      MissingIsIdle(plain, given, imms, s, f);
    }
  }

  lemma RoundGivenOk(plain: Network, given: Given, imms: Immeds, s: State, queue: seq<FilterId>)
    requires GivenOk(plain, given, {}, s) && MayHandOut(plain, given, Give(plain, given, imms, queue), s)
    requires forall f :: f in queue ==> f !in given
    ensures var given' := Give(plain, given, imms, queue);
            GivenOk(plain, given', (set f | f in queue), HandedOut(s, Newly(given, given')))
  {
    hide Effective, GivenFits, Consumes, Handout;
    var given' := Give(plain, given, imms, queue);
    forall f | f in given' ensures AllDelivered(Effective(plain, given'), s.delivered, f) {
      forall t | Consumes(Effective(plain, given'), f, t) ensures (f, t) in s.delivered {
        EffectiveArguments(plain, given, f, t);
        EffectiveArguments(plain, given', f, t);
      }
      assert f in Newly(given, given') || f in given;
    }
    assert GivenFits(plain, given');
  }

  // ---------------------------------------------------------------- which filters were pulsed

  /** The input is complete under the decisions made, with a decoration if the filter needs one. */
  ghost predicate Gets(plain: Network, net: Network, roots: Roots, f: FilterId, t: TypeId) {
    exists v :: Completes(net, roots, t, v) && (Needs(plain, f, t) ==> v != multiset{})
  }

  /** The filter takes part in a pulse: some input is served, and every other one is complete in the least fixed
      point. */
  ghost predicate Pulses(plain: Network, net: Network, roots: Roots, imms: Immeds, f: FilterId) {
    && 0 <= f < |plain.filters| && !plain.filters[f].deferred
    && (exists t :: Serves(plain, imms, f, t))
    && (forall t :: Consumes(plain, f, t) ==> Serves(plain, imms, f, t) || Gets(plain, net, roots, f, t))
  }

  lemma PulsesAtRest(plain: Network, given: Given, imms: Immeds, s: State, f: FilterId)
    requires var net := Effective(plain, given); WellFormed(net) && Inv(net, s) && Quiescent(net, s)
    requires OpenImmeds(plain, imms, s.roots) && (f in given ==> forall t :: t in given[f] ==> t in imms)
    ensures MissesOnly(plain, imms, s.delivered, f) <==> Pulses(plain, Effective(plain, given), s.roots, imms, f)
  {
    hide Effective, Publishers, WellFormed, CountersOk, SlotsOk, SoundOk, EmittedOk, CallsOk, Consumes, KindOf, TypeAt;
    var net := Effective(plain, given);
    ImmedsUndelivered(plain, given, imms, s);
    if MissesOnly(plain, imms, s.delivered, f) {
      forall t | Consumes(plain, f, t) && !Serves(plain, imms, f, t) ensures Gets(plain, net, s.roots, f, t) {
        EffectiveArguments(plain, given, f, t);
        DeliveredIsDerivable(net, s, f, t);
        assert Completes(net, s.roots, t, Values(s.slots, t));
      }
    }
    if Pulses(plain, net, s.roots, imms, f) {
      forall t | Consumes(plain, f, t) && !Serves(plain, imms, f, t) ensures (f, t) in s.delivered {
        PulsedIsTold(plain, given, imms, s, f, t);
      }
    }
  }

  lemma GetsIsComplete(plain: Network, net: Network, s: State, f: FilterId, t: TypeId)
    requires WellFormed(net) && Inv(net, s) && Quiescent(net, s) && Gets(plain, net, s.roots, f, t)
    ensures Completed(s.slots, t) && (Needs(plain, f, t) ==> Values(s.slots, t) != multiset{})
  {
    hide Inv, Quiescent, WellFormed, TypeAt, Needs;
    var v :| Completes(net, s.roots, t, v) && (Needs(plain, f, t) ==> v != multiset{});
    var n: nat :| TypeAt(net, s.roots, n, t) == Some(v);
    QuiescentType(net, s, n, t);
  }

  lemma PulsedIsTold(plain: Network, given: Given, imms: Immeds, s: State, f: FilterId, t: TypeId)
    requires var net := Effective(plain, given);
             WellFormed(net) && Inv(net, s) && Quiescent(net, s) && Pulses(plain, net, s.roots, imms, f)
    requires OpenImmeds(plain, imms, s.roots) && (f in given ==> forall u :: u in given[f] ==> u in imms)
    requires Consumes(plain, f, t) && !Serves(plain, imms, f, t)
    ensures (f, t) in s.delivered
  {
    hide Effective, Publishers, WellFormed, CountersOk, SlotsOk, SoundOk, EmittedOk, CallsOk, Consumes, KindOf, TypeAt;
    hide Gets;
    var net := Effective(plain, given);
    ImmedsUndelivered(plain, given, imms, s);
    EffectiveArguments(plain, given, f, t);
    GetsIsComplete(plain, net, s, f, t);
    if f in s.doomed {
      assert Starved(net, s.slots, f);
      var u :| Needs(net, f, u) && Completed(s.slots, u) && At(s.slots, u).decorations == [];
      EffectiveArguments(plain, given, f, u);
      GetsIsComplete(plain, net, s, f, u);
      assert false;
    }
    assert !Untold(net, s, f, t);
  }

  lemma MissesOnlyLater(plain: Network, imms: Immeds, d: Pairs, d': Pairs, f: FilterId)
    requires d <= d'
    ensures MissesOnly(plain, imms, d, f) ==> MissesOnly(plain, imms, d', f)
  {
    hide Consumes, Serves;
  }

  lemma MissesInRange(plain: Network, imms: Immeds, delivered: Pairs)
    ensures forall f :: MissesOnly(plain, imms, delivered, f) ==> 0 <= f < |plain.filters| && !plain.filters[f].deferred
  {}

  lemma {:induction false} VisitedRange(net: Network, types: seq<TypeId>, lists: seq<seq<Subscriber>>)
    requires ListsMatch(net, types, lists)
    ensures forall x :: x in Visited(lists) ==> 0 <= x.counter < |net.filters|
  {
    hide ListsMatch;
    if lists != [] {
      assert types != [] by { SameLength(net, types, lists); }
      ListsMatchTail(net, types, lists);
      VisitedRange(net, types[1..], lists[1..]);
      forall x | x in Visited(lists) ensures 0 <= x.counter < |net.filters| {
        if x in lists[0] {
          var i :| 0 <= i < |lists[0]| && lists[0][i] == x;
          SubscriberFacts(net, types[0], lists[0], i);
        }
      }
    }
  }

  lemma SameLength(net: Network, types: seq<TypeId>, lists: seq<seq<Subscriber>>)
    requires ListsMatch(net, types, lists)
    ensures |types| == |lists|
  {}

  /** The subscribers of the types. */
  ghost function ListsOf(lists: ListMap, types: seq<TypeId>): (r: seq<seq<Subscriber>>)
    requires forall i :: 0 <= i < |types| ==> types[i] in lists
    ensures |r| == |types| && forall i :: 0 <= i < |types| ==> types[i] in lists && r[i] == lists[types[i]].subscribers
  {
    seq(|types|, i requires 0 <= i < |types| => lists[types[i]].subscribers)
  }

  lemma ListsOfMatch(net: Network, lists: ListMap, types: seq<TypeId>)
    requires FullyWired(net, lists) && Distinct(types) && forall i :: 0 <= i < |types| ==> types[i] in lists
    ensures ListsMatch(net, types, ListsOf(lists, types))
  {
    hide SubscribersMatch;
  }

  /** Handing the immediates to the filters in the queue leaves a packet at rest with these calls to make, and
      nothing else. */
  lemma RoundStep(plain: Network, given: Given, imms: Immeds, s: State, queue: seq<FilterId>)
    requires WellFormed(plain) && Inv(Effective(plain, given), s) && GivenOk(plain, given, {}, s)
    requires Quiescent(Effective(plain, given), s) && OpenImmeds(plain, imms, s.roots) && Distinct(queue)
    requires forall f :: f in queue ==> f !in given && MissesOnly(plain, imms, s.delivered, f)
    ensures var given' := Give(plain, given, imms, queue);
            var s' := HandedOut(s, Newly(given, given'));
            && Starting(Effective(plain, given'), s', queue)
            && GivenOk(plain, given', (set f | f in queue), s')
  {
    hide Inv, Quiescent, WellFormed, GivenOk, Effective, OpenImmeds, MissesOnly, Handout, MayHandOut, Queued, Owes;
    hide Untold;
    RoundHandOut(plain, given, imms, s, queue);
    RoundGivenOk(plain, given, imms, s, queue);
    HandOutStep(plain, given, Give(plain, given, imms, queue), s);
    RestingFacts(Effective(plain, given), s);
  }

  // ---------------------------------------------------------------- lists of immediates

  datatype Immediate = Immediate(t: TypeId, value: Value)

  /** Immediates on a packet whose types are not yet marked, with their values while a pulse lasts. */
  type PendingMap = map<TypeId, Option<Value>>

  function TypesOf(imms: seq<Immediate>): (r: seq<TypeId>)
    ensures |r| == |imms| && forall i :: 0 <= i < |imms| ==> r[i] == imms[i].t
  {
    seq(|imms|, i requires 0 <= i < |imms| => imms[i].t)
  }

  function ImmedsOf(imms: seq<Immediate>): Immeds {
    if imms == [] then map[]
    else ImmedsOf(imms[..|imms| - 1])[imms[|imms| - 1].t := imms[|imms| - 1].value]
  }

  function TurnedOn(pending: PendingMap, imms: seq<Immediate>): PendingMap {
    if imms == [] then pending
    else TurnedOn(pending, imms[..|imms| - 1])[imms[|imms| - 1].t := Some(imms[|imms| - 1].value)]
  }

  /** The decisions that no decoration of these types will come. */
  function MarkedRoots(roots: Roots, imms: seq<Immediate>): Roots {
    if imms == [] then roots else MarkedRoots(roots, imms[..|imms| - 1])[imms[|imms| - 1].t := None]
  }

  lemma NothingOn(pending: PendingMap)
    ensures TurnedOn(pending, []) == pending
  {}

  lemma NothingMarked(roots: Roots)
    ensures MarkedRoots(roots, []) == roots && ImmedsOf([]) == map[]
  {}

  lemma ImmedsNext(imms: seq<Immediate>, i: nat)
    requires i < |imms|
    ensures forall t :: t in ImmedsOf(imms[..i + 1]) <==> t in ImmedsOf(imms[..i]) || t == imms[i].t
  {
    var r := imms[..i + 1];
    assert r[..|r| - 1] == imms[..i] && r[|r| - 1] == imms[i];
    assert ImmedsOf(r) == ImmedsOf(imms[..i])[imms[i].t := imms[i].value];
  }

  /** Immediates of distinct types are kept with their values. */
  lemma {:induction false} ImmedsValues(imms: seq<Immediate>)
    requires forall i, j :: 0 <= i < j < |imms| ==> imms[i].t != imms[j].t
    ensures forall i :: 0 <= i < |imms| ==>
      imms[i].t in ImmedsOf(imms) && ImmedsOf(imms)[imms[i].t] == imms[i].value
  {
    if imms != [] {
      var n := |imms| - 1;
      ImmedsValues(imms[..n]);
      forall i | 0 <= i < n
        ensures imms[i].t in ImmedsOf(imms) && ImmedsOf(imms)[imms[i].t] == imms[i].value
      {
        assert imms[..n][i] == imms[i];
      }
    }
  }

  lemma ImmediatesNext(pending: PendingMap, roots: Roots, imms: seq<Immediate>, i: nat)
    requires i < |imms|
    ensures TurnedOn(pending, imms[..i + 1]) == TurnedOn(pending, imms[..i])[imms[i].t := Some(imms[i].value)]
    ensures MarkedRoots(roots, imms[..i + 1]) == MarkedRoots(roots, imms[..i])[imms[i].t := None]
  {
    assert imms[..i + 1][..i] == imms[..i];
  }

  lemma {:induction false} ImmediatesKeys(pending: PendingMap, roots: Roots, imms: seq<Immediate>, t: TypeId)
    ensures t in ImmedsOf(imms) <==> exists i :: 0 <= i < |imms| && imms[i].t == t
    ensures t in TurnedOn(pending, imms) <==> t in pending || t in ImmedsOf(imms)
    ensures t in ImmedsOf(imms) ==> TurnedOn(pending, imms)[t] == Some(ImmedsOf(imms)[t])
    ensures t in pending && t !in ImmedsOf(imms) ==> TurnedOn(pending, imms)[t] == pending[t]
    ensures t in MarkedRoots(roots, imms) <==> t in roots || t in ImmedsOf(imms)
  {
    if imms != [] {
      var n := |imms| - 1;
      ImmediatesKeys(pending, roots, imms[..n], t);
      assert forall i :: 0 <= i < n ==> imms[..n][i] == imms[i];
    }
  }
}
