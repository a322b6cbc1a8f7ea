/** The packet itself: its methods update saturation counters and dispositions in place. Ghost fields hold the
    same data as values, so that what the methods keep is stated by the predicates of PacketState and Wiring. */
module AutoPackets {
  import opened Prelude
  import opened FilterNetwork
  import opened PacketState
  import opened PacketSteps
  import opened PacketOutcome
  import opened PacketPropagation
  import opened PacketSetup
  import opened PacketFacts
  import opened PacketAddition
  import opened PacketDecisions
  import opened PacketFlags
  import opened CallOrder
  import opened Wiring
  import opened Broadcast
  import opened CycleGraph
  import opened SatCounters
  import opened Dispositions
  import opened Immediates
  import opened PacketPulse
  import opened PulseTargets
  import opened Notification

  datatype Error =
    | MultiBroadcastListener
    | SameAltitudeModifiers
    | BroadcastWithSubscriber
    | BroadcastWithModifier
    | CycleDetected
    | AlreadySatisfied
    | MarkedUnsatisfiable
    | DecorationExists
    | SingleInputInBroadcast

  datatype Status = Ok | Threw(error: Error)

  ghost predicate CountersHold(
    counters: seq<SatCounter>, filters: seq<Filter>, handed: set<FilterId>, remaining: seq<nat>)
    reads counters
  {
    && |counters| == |filters| == |remaining|
    && (forall i, j :: 0 <= i < j < |counters| ==> counters[i] != counters[j])
    && (forall i :: 0 <= i < |counters| ==>
          counters[i].filter == filters[i] && (i !in handed ==> counters[i].remaining == remaining[i]))
  }

  lemma DispositionsGrow(
    decorationMap: map<TypeId, DecorationDisposition>, lists: ListMap, slots: Slots, pending: PendingMap,
    dispositions: set<DecorationDisposition>, t: TypeId, d: DecorationDisposition)
    requires DispositionsHold(decorationMap, lists, slots, pending, dispositions)
    requires t !in decorationMap && d !in dispositions
    requires d.AsLists() == NO_LISTS && d.AsSlot() == EMPTY_SLOT && d.immediate == None
    ensures DispositionsHold(
              decorationMap[t := d], lists[t := NO_LISTS], slots[t := EMPTY_SLOT], pending, dispositions + {d})
  {
    hide Holds;
    HoldsEmpty(d);
  }

  lemma CountersFacts(
    counters: seq<SatCounter>, filters: seq<Filter>, handed: set<FilterId>, remaining: seq<nat>)
    requires CountersHold(counters, filters, handed, remaining)
    ensures |counters| == |filters| == |remaining|
    ensures forall i, j :: 0 <= i < j < |counters| ==> counters[i] != counters[j]
    ensures forall i :: 0 <= i < |counters| ==> counters[i].filter == filters[i]
  {}

  function Lookup(pending: PendingMap, t: TypeId): Option<Option<Value>> {
    if t in pending then Some(pending[t]) else None
  }

  /** A disposition holds its slot and lists. An immediate makes it look complete before it counts as decided. */
  ghost predicate Holds(d: DecorationDisposition, slot: Slot, l: Lists, immediate: Option<Option<Value>>)
    reads d
  {
    && d.AsLists() == l && BroadcastOk(slot, |l.publishers|)
    && match immediate {
      case None => d.immediate == None && d.AsSlot() == slot
      case Some(v) =>
        && d.immediate == v && d.AsSlot() == slot.(phase := Complete)
        && slot.phase == Unsatisfied && slot.decorations == []
    }
  }

  lemma HoldsFacts(d: DecorationDisposition, slot: Slot, l: Lists, immediate: Option<Option<Value>>)
    requires Holds(d, slot, l, immediate)
    ensures d.AsLists() == l && d.decorations == slot.decorations && d.producersRun == slot.producersRun
    ensures immediate == None ==> d.phase == slot.phase && d.immediate == None
    ensures immediate.Some? ==> d.phase == Complete && d.immediate == immediate.value
    ensures immediate.Some? ==> slot.phase == Unsatisfied && slot.decorations == []
  {}

  lemma HoldsBroadcast(d: DecorationDisposition, slot: Slot, l: Lists, immediate: Option<Option<Value>>)
    requires Holds(d, slot, l, immediate)
    ensures BroadcastOk(slot, |l.publishers|)
  {}

  lemma HoldsRoot(d: DecorationDisposition, slot: Slot, l: Lists, run: nat, v: Option<Value>)
    requires d.AsLists() == l && d.AsSlot() == slot == RootSlot(run, v) && d.immediate == None
    ensures Holds(d, slot, l, None)
  {}

  lemma HoldsEmpty(d: DecorationDisposition)
    requires d.AsLists() == NO_LISTS && d.AsSlot() == EMPTY_SLOT && d.immediate == None
    ensures Holds(d, EMPTY_SLOT, NO_LISTS, None)
  {}

  ghost predicate DispositionsHold(
    decorationMap: map<TypeId, DecorationDisposition>, lists: ListMap, slots: Slots, pending: PendingMap,
    dispositions: set<DecorationDisposition>)
    reads dispositions
  {
    && decorationMap.Keys == lists.Keys == slots.Keys
    && (forall t :: t in pending ==> t in decorationMap)
    && (forall t :: t in decorationMap ==> decorationMap[t] in dispositions)
    && (forall t, u :: t in decorationMap && u in decorationMap && t != u ==> decorationMap[t] != decorationMap[u])
    && (forall t :: t in decorationMap ==> Holds(decorationMap[t], slots[t], lists[t], Lookup(pending, t)))
  }

  class AutoPacket {
    const body: Body
    var counters: seq<SatCounter>
    var decorationMap: map<TypeId, DecorationDisposition>

    ghost var plain: Network          // the filters as they were added
    ghost var given: Given            // what pulses have handed to them
    ghost var net: Network            // the filters with what they were handed
    ghost var handed: set<FilterId>   // the filters a pulse is about to call
    ghost var pending: PendingMap        // immediates not yet marked unsatisfiable
    ghost var wires: Wires
    ghost var lists: ListMap
    ghost var history: State
    ghost var dispositions: set<DecorationDisposition>

    constructor (body: Body)
      ensures Blank() && this.body == body && dispositions == {}
    {
      this.body := body;
      counters, decorationMap := [], map[];
      plain, net := Network([], body), Network([], body);
      given, handed, pending := map[], {}, map[];
      wires, lists, history, dispositions := [], map[], EMPTY_STATE, {};
      new;
      NothingGiven(plain);
    }

    /** The objects hold what the ghost values say. */
    ghost predicate Linked()
      reads `counters, `decorationMap, `plain, `given, `net, `handed, `pending, `lists, `history, `dispositions
      reads counters, dispositions
    {
      && plain.body == body && net == Effective(plain, given)
      && CountersHold(counters, plain.filters, handed, history.remaining)
      && DispositionsHold(decorationMap, lists, history.slots, pending, dispositions)
    }

    /** The packet is initialized, and its state is one the invariant allows. */
    ghost predicate Running()
      reads this, counters, dispositions
    {
      && Linked() && WellFormed(plain) && FullyWired(plain, lists) && Inv(net, history)
      && GivenOk(plain, given, handed, history)
      && forall t :: t in pending ==> Publishers(plain, t) == []
    }

    ghost predicate AtRest()
      reads this, counters, dispositions
    {
      Running() && Quiescent(net, history) && forall f :: f !in handed
    }

    lemma RunningFacts()
      requires Running()
      ensures Linked() && WellFormed(plain) && WellFormed(net) && FullyWired(plain, lists) && Inv(net, history)
      ensures plain.body == body && net == Effective(plain, given) && GivenFits(plain, given)
      ensures |counters| == |plain.filters| == |net.filters|
      ensures forall t :: Publishers(net, t) == Publishers(plain, t)
    {
      hide Inv, WellFormed, FullyWired, GivenFits, Effective, Publishers, DispositionsHold;
      EffectiveWellFormed(plain, given);
      forall t ensures Publishers(net, t) == Publishers(plain, t) { EffectivePublishers(plain, given, t); }
    }

    /** A published type is neither pending nor handed out. */
    lemma PublishedFacts(f: FilterId, t: TypeId)
      requires Running() && Produces(net, f, t)
      ensures t in decorationMap && t !in pending && lists[t].publishers == Publishers(net, t)
      ensures forall g :: t !in GivenTypes(given, g)
    {
      hide Inv, WellFormed, GivenFits, Effective, Holds, CountersHold, Consumes, Produces, Publishers, GivenTypes;
      hide SubscribersMatch;
      EffectiveArguments(plain, given, f, t);
      EffectivePublishers(plain, given, t);
      assert f in Publishers(plain, t);
      forall g ensures t !in GivenTypes(given, g) { PublishedNotGiven(plain, given, f, t, g); }
    }

    // -------------------------------------------------------------- primitive updates

    method Decrement(f: FilterId, ghost t: TypeId) returns (satisfied: bool)
      requires Linked() && 0 <= f < |counters| && f !in handed
      modifies this`history, counters[f]
      ensures Linked()
      ensures history == if old(history.remaining[f]) > 0 then Deliver(old(history), f, t) else old(history)
      ensures satisfied <==> old(history.remaining[f]) == 1
    {
      hide Effective, DispositionsHold;
      ghost var some := history.remaining[f] > 0;
      satisfied := counters[f].Decrement();
      if some {
        history := Deliver(history, f, t);
      }
    }

    /** Gives up a filter that still misses inputs and lists the outputs it will never produce. */
    method MarkOutputsUnsat(f: FilterId) returns (outputs: seq<(FilterId, TypeId)>)
      requires Linked() && 0 <= f < |counters| && f !in handed && DistinctTypes(plain.filters[f].args)
      modifies this`history, counters[f]
      ensures Linked()
      ensures history == if old(history.remaining[f]) > 0 then Doom(old(history), f) else old(history)
      ensures Distinct(outputs)
      ensures forall p :: p in outputs <==>
                && p.0 == f && old(history.remaining[f]) > 0
                && exists a :: a in plain.filters[f].args && a.isOutput && a.id == p.1
    {
      hide Effective, DispositionsHold;
      outputs := [];
      if counters[f].remaining == 0 {
        return;
      }
      counters[f].remaining := 0;
      history := Doom(history, f);
      var args := counters[f].filter.args;
      var i := |args|;
      while i > 0
        invariant 0 <= i <= |args|
        invariant Distinct(outputs)
        invariant forall p :: p in outputs <==>
                    p.0 == f && exists j :: i <= j < |args| && args[j].isOutput && args[j].id == p.1
      {
        i := i - 1;
        if args[i].isOutput {
          assert (f, args[i].id) !in outputs;
          outputs := outputs + [(f, args[i].id)];
        }
      }
    }

    // -------------------------------------------------------------- propagation

    /** Tells one subscriber of `t`, which has `n` decorations, that `t` is complete. A filter that was handed `t`
        has been called, and is passed over. */
    method TellSubscriber(
      t: TypeId, n: nat, sub: Subscriber, ghost start: State, ghost told: set<FilterId>,
      callQueue: seq<FilterId>, unsat: seq<(FilterId, TypeId)>)
      returns (callQueue': seq<FilterId>, unsat': seq<(FilterId, TypeId)>)
      requires Linked() && WellFormed(plain) && Telling(net, start, history, t, told, callQueue, unsat)
      requires Completed(start.slots, t) && n == |At(start.slots, t).decorations|
      requires forall f :: (f, t) !in start.delivered
      requires 0 <= sub.counter < |counters| && sub.counter !in told && sub.counter !in handed
      requires Consumes(plain, sub.counter, t) && KindOf(plain, sub.counter, t) == sub.kind
      requires t in GivenTypes(given, sub.counter) ==> history.remaining[sub.counter] == 0
      modifies this`history, counters[sub.counter]
      ensures Linked() && Telling(net, start, history, t, told + {sub.counter}, callQueue', unsat')
      ensures callQueue' == callQueue || callQueue' == callQueue + [sub.counter]
    {
      hide Inv, Telling, Untold, WellFormed, Consumes, KindOf, Deliver, Doom, Effective, GivenTypes, DispositionsHold;
      var f := sub.counter;
      callQueue', unsat' := callQueue, unsat;
      TellingFacts(net, start, history, t, told, callQueue, unsat);
      EffectiveWellFormed(plain, given);
      EffectiveArguments(plain, given, f, t);
      ghost var waits := f !in history.doomed && t !in GivenTypes(given, f);
      if waits {
        TellingUntold(net, start, history, t, told, callQueue, unsat, f);
        UntoldWaits(net, history, f, t);
      } else if f in history.doomed {
        TellSkip(net, start, history, t, told, callQueue, unsat, f);
      } else {
        TellPassed(plain, given, start, history, t, told, callQueue, unsat, f);
      }
      if n == 0 {
        // A counter at zero belongs to a filter that was called or given up.
        if counters[f].remaining != 0 {
          match sub.kind
          case Normal =>
            callQueue', unsat' := TellStarved(t, f, start, told, callQueue, unsat);
          case _ =>
            TellDeliver(net, start, history, t, told, callQueue, unsat, f);
            var satisfied := Decrement(f, t);
            if satisfied {
              callQueue' := callQueue + [f];
            }
        }
      } else {
        if n > 1 && sub.kind != Multi {
          // The implementation throws here; the publishers of `t` rule it out.
          ManyDecorations(net, history, t);
          EffectivePublishers(plain, given, t);
          MultiOnly(plain, f, t);
          assert false;
        }
        if waits {
          TellDeliver(net, start, history, t, told, callQueue, unsat, f);
        }
        var satisfied := Decrement(f, t);
        if satisfied {
          callQueue' := callQueue + [f];
        }
      }
    }

    /** A Normal subscriber of a type that is complete without a decoration is given up. */
    method TellStarved(
      t: TypeId, f: FilterId, ghost start: State, ghost told: set<FilterId>,
      callQueue: seq<FilterId>, unsat: seq<(FilterId, TypeId)>)
      returns (callQueue': seq<FilterId>, unsat': seq<(FilterId, TypeId)>)
      requires Linked() && WellFormed(plain) && Telling(net, start, history, t, told, callQueue, unsat)
      requires 0 <= f < |counters| && f !in handed && history.remaining[f] > 0
      requires Untold(net, history, f, t) && Needs(net, f, t) && At(history.slots, t).decorations == []
      modifies this`history, counters[f]
      ensures Linked() && Telling(net, start, history, t, told + {f}, callQueue', unsat') && callQueue' == callQueue
    {
      hide Inv, Telling, Untold, WellFormed, Consumes, KindOf, Needs, Doom, Effective, DispositionsHold;
      callQueue', unsat' := callQueue, unsat;
      ghost var s := history;
      ArgumentsOf(plain, f);
      var outputs := MarkOutputsUnsat(f);
      forall p ensures p in outputs <==> p.0 == f && Produces(net, f, p.1) {
        OutputsProduced(plain, f, p.1);
        EffectiveArguments(plain, given, f, p.1);
      }
      EffectiveWellFormed(plain, given);
      TellDoom(net, start, s, t, told, callQueue, unsat, f, outputs);
      unsat' := unsat + outputs;
    }

    /** No filter that a pulse is about to call listens to a type that it was not handed. */
    lemma HandedDoNotListen(t: TypeId, f: FilterId)
      requires Running() && f in handed && t !in GivenTypes(given, f) && (f, t) !in history.delivered
      ensures !Consumes(plain, f, t)
    {
      hide Inv, WellFormed, FullyWired, Effective, Consumes, DispositionsHold, CountersHold;
      EffectiveArguments(plain, given, f, t);
      GivenWaitsForNothing(plain, given, handed, history, f);
    }

    lemma CompletedDecorations(t: TypeId)
      requires Linked() && t in decorationMap && Completed(history.slots, t)
      ensures t !in pending && decorationMap[t].decorations == At(history.slots, t).decorations
    {
      hide Effective, CountersHold;
      assert Holds(decorationMap[t], history.slots[t], lists[t], Lookup(pending, t));
    }

    /** The first half of an update: every subscriber of a completed type is told. The filters this
        satisfies are to be called, and the outputs of those it dooms are to be accounted for. */
    method TellSubscribers(t: TypeId)
      returns (callQueue: seq<FilterId>, unsat: seq<(FilterId, TypeId)>, ghost told: set<FilterId>)
      requires Running() && t in decorationMap && Completed(history.slots, t)
      requires forall f :: (f, t) !in history.delivered
      requires forall f :: f in handed ==> t !in GivenTypes(given, f)
      modifies this`history, counters
      ensures Running()
      ensures Telling(net, old(history), history, t, told, callQueue, unsat)
      ensures forall f :: Consumes(net, f, t) ==> f in told
      ensures forall f :: f in callQueue ==> f !in given
      ensures Rises(net.filters, callQueue)
    {
      hide QueueRises, Rises, AltitudesRise;
      hide Inv, Telling, WellFormed, Consumes, KindOf, SharedInput, Effective, GivenTypes, GivenOk, Publishers, Extends;
      hide Linked;
      ghost var start := history;
      LinkedKeys();
      LinkedLists(t);
      CompletedDecorations(t);
      var subs := decorationMap[t].subscribers;
      var n := |decorationMap[t].decorations|;
      callQueue, unsat, told := [], [], {};
      TellingStart(net, history, t);
      EmptyRises(plain.filters, subs);
      forall f | f in handed ensures !Consumes(plain, f, t) { HandedDoNotListen(t, f); }
      var i := 0;
      while i < |subs|
        invariant 0 <= i <= |subs|
        invariant Linked() && Telling(net, start, history, t, told, callQueue, unsat)
        invariant told == set j | 0 <= j < i :: subs[j].counter
        invariant QueueRises(plain.filters, subs, i, callQueue)
      {
        SubscriberFacts(plain, t, subs, i);
        TellingFacts(net, start, history, t, told, callQueue, unsat);
        GivenKept(plain, given, handed, start, history);
        if t in GivenTypes(given, subs[i].counter) {
          GivenTypesOf(given, subs[i].counter, t);
          GivenWaitsForNothing(plain, given, handed, history, subs[i].counter);
        }
        ghost var queue := callQueue;
        callQueue, unsat := TellSubscriber(t, n, subs[i], start, told, callQueue, unsat);
        QueueRisesNext(plain.filters, subs, i, queue, callQueue);
        told := told + {subs[i].counter};
        i := i + 1;
      }
      TellingFacts(net, start, history, t, told, callQueue, unsat);
      GivenKept(plain, given, handed, start, history);
      forall f | f in callQueue ensures f !in given {
        NewlySatisfied(plain, given, handed, start, history, t, told, callQueue, unsat, f);
      }
      QueueIsRising(plain.filters, subs, i, callQueue);
      EffectiveRises(plain, given, callQueue);
      forall f | Consumes(net, f, t) ensures f in told {
        EffectiveArguments(plain, given, f, t);
        assert exists j :: 0 <= j < |subs| && subs[j].counter == f;
      }
    }

    /** One more producer of `t` has concluded. */
    method Account(t: TypeId, e: Emission, ghost f: FilterId) returns (completed: bool)
      requires Linked() && t in decorationMap && t !in pending && !Completed(history.slots, t)
      requires lists[t].publishers == Publishers(net, t)
      modifies this`history, decorationMap[t]
      ensures Linked() && history == Conclude(net, old(history), f, t, e)
      ensures completed <==> Completed(history.slots, t)
    {
      hide Advance, Publishers, Effective, BroadcastOk, CountersHold;
      assert Holds(decorationMap[t], history.slots[t], lists[t], Lookup(pending, t));
      AdvanceKeeps(history.slots[t], e, |lists[t].publishers|);
      completed := decorationMap[t].Attach(e);
      history := Conclude(net, history, f, t, e);
    }

    /** Tells the subscribers of the type that has just been completed, calls the filters this
        satisfies, and accounts for the outputs of the filters it dooms. All work this creates is
        done on return; work outstanding before is neither lost nor done twice. */
    method UpdateSatisfaction(t: TypeId)
      requires Running() && t in decorationMap && Completed(history.slots, t)
      requires forall f :: (f, t) !in history.delivered
      requires forall f :: f in handed ==> t !in GivenTypes(given, f)
      modifies this`history, counters, dispositions
      ensures Running() && Updated(net, old(history), history, t)
      ensures CalledInTurn(net, old(history), t, At(old(history.slots), t).decorations != [], history.calls)
      decreases |OpenTypes(net, history.slots)|, 3
    {
      hide Running, Queued, Owes, Untold, Telling, Pending, OpenTypes, Completed, GivenTypes;
      hide CalledThrough, CalledInTurn, Rises, Inv, WellFormed, FullyWired, Publishers, Effective, Later, Updated;
      hide CalledOne, ConcludedOne;
      ghost var start := history;
      RunningFacts();
      var callQueue, unsat, told := TellSubscribers(t);
      ghost var told1 := history;
      PendingStart(net, start, history, t, told, callQueue, unsat);
      NoneCalled(history.calls, callQueue);

      // Run the newly satisfied filters; what their outputs complete is updated before the next is run.
      var i := 0;
      while i < |callQueue|
        invariant 0 <= i <= |callQueue|
        invariant Running()
        invariant Pending(net, start, history, t, callQueue[i..], unsat)
        invariant CalledThrough(history.calls, callQueue, i)
      {
        PendingFirst(net, start, history, t, callQueue[i..], unsat);
        assert callQueue[i..][0] == callQueue[i];
        OpenTypesLater(net, start, history);
        ghost var s := history;
        RunningFacts();
        CallFilter(callQueue[i]);
        CallsGrow(net, s, history, callQueue[i]);
        CalledNext(s.calls, history.calls, callQueue, i);
        PendingCall(net, start, s, history, t, callQueue[i..], unsat);
        assert callQueue[i..][1..] == callQueue[i + 1..];
        i := i + 1;
      }

      // Conclude the outputs of the filters given up, one publisher of each type at a time.
      assert callQueue[i..] == [] && unsat[0..] == unsat;
      var j := 0;
      while j < |unsat|
        invariant 0 <= j <= |unsat|
        invariant Running()
        invariant Pending(net, start, history, t, [], unsat[j..])
        invariant CalledThrough(history.calls, callQueue, |callQueue|)
      {
        PendingFirst(net, start, history, t, [], unsat[j..]);
        OpenTypesLater(net, start, history);
        ghost var s := history;
        ConcludeOutput(unsat[j].1, Null, unsat[j].0);
        OutputsGrow(net, s, history, unsat[j].0, unsat[j].1);
        CalledLater(s.calls, history.calls, callQueue, |callQueue|);
        PendingOutput(net, start, s, history, t, unsat[j..]);
        assert unsat[j..][1..] == unsat[j + 1..];
        j := j + 1;
      }
      assert unsat[j..] == [];
      PendingDone(net, start, history, t);
      CandidatesInTurn(net, start, told1, t, told, callQueue, unsat, At(start.slots, t).decorations != [],
        history.calls);
    }

    /** Accounts for one output of a called or doomed filter. */
    method ConcludeOutput(t: TypeId, e: Emission, ghost f: FilterId)
      requires Running() && Owes(net, history, f, t) && e == DueEmission(net, history, f, t)
      modifies this`history, counters, dispositions
      ensures Running() && ConcludedOne(net, old(history), history, f, t)
      decreases |OpenTypes(net, history.slots)|, 0
    {
      hide Inv, Queued, Owes, Untold, WellFormed, ConcludedOne, Updated, OpenTypes, DueEmission;
      hide Linked, GivenOk, GivenTypes, Extends, Publishers, FullyWired, Effective, Holds, DueEmission;
      ghost var start := history;
      OpenWhileOwed(net, history, f, t);
      assert Produces(net, f, t) by { OwedIsProduced(net, history, f, t); }
      PublishedFacts(f, t);
      LinkedKeys();
      ConcludeStep(net, history, f, t);
      UntoldWhileOpen(net, history, t);
      LinkedLists(t);
      var completed := Account(t, e, f);
      ghost var m := history;
      GivenKept(plain, given, handed, start, m);
      if completed {
        OpenTypesClose(net, start.slots, m.slots, t);
        UpdateSatisfaction(t);
      }
      ConcludedByUpdate(net, start, m, history, f, t);
    }

    /** What a filter was handed is on the packet. */
    ghost predicate Served(f: FilterId)
      reads this`plain, this`given, this`pending
    {
      f in given ==> forall t :: t in given[f] ==>
        && Consumes(plain, f, t) && t in pending && pending[t].Some?
        && given[f][t] == HandedValues(KindOf(plain, f, t), pending[t].value)
    }

    /** What input `a` reads: the decorations, or else, for one that takes a plain value, the immediate. */
    method ReadInput(f: FilterId, a: Argument) returns (v: multiset<Value>)
      requires Running() && Queued(net, history, f) && Served(f)
      requires 0 <= f < |plain.filters| && a in plain.filters[f].args && a.Subscribes()
      ensures v == Extract(history.slots, GivenView(given, f), a.id)
      ensures f in given && a.id in given[f] ==>
                && a.id in pending && pending[a.id].Some?
                && v == if !a.isMulti && !a.isShared then multiset{pending[a.id].value} else multiset{}
      ensures !(f in given && a.id in given[f]) ==>
                At(history.slots, a.id).phase == Complete && v == multiset(At(history.slots, a.id).decorations)
    {
      hide Inv, WellFormed, GivenOk, Effective, Publishers, SubscribersMatch, AllDelivered, BroadcastOk, CountersHold;
      InputListed(plain, lists, f, a);
      var d := decorationMap[a.id];
      assert Holds(d, history.slots[a.id], lists[a.id], Lookup(pending, a.id));
      if a.id !in GivenTypes(given, f) {
        InputIsComplete(f, a.id);
      }
      v := multiset(d.decorations);
      if d.decorations == [] && d.immediate.Some? && a.SubscriberKind() == Normal {
        v := multiset{d.immediate.value};
      }
    }

    lemma InputIsComplete(f: FilterId, t: TypeId)
      requires Running() && Queued(net, history, f) && Consumes(plain, f, t) && t !in GivenTypes(given, f)
      ensures Completed(history.slots, t)
    {
      hide Linked, WellFormed, FullyWired, GivenOk, Effective, Publishers, Consumes, SlotsOk, SoundOk, EmittedOk;
      assert net == Effective(plain, given) by { LinkedKeys(); }
      EffectiveArguments(plain, given, f, t);
      assert (f, t) in history.delivered;
    }

    /** Extracts the arguments of a satisfied filter. */
    method ExtractArguments(f: FilterId) returns (view: View)
      requires Running() && Queued(net, history, f) && Served(f)
      ensures view == Seen(given, f, ViewNow(net, history.slots, f))
      ensures ViewByFlags(plain, given, history.slots, f, view)
    {
      hide Inv, WellFormed, ViewNow, Extracted, Extract, GivenView, Seen, Served, Queued, FullyWired;
      hide DispositionsHold, Effective, ViewByFlags;
      QueuedInRange(net, history, f);
      RunningFacts();
      var args := counters[f].filter.args;
      ghost var handout := GivenView(given, f);
      view := map[];
      ExtractedNone(history.slots, handout);
      var i := 0;
      while i < |args|
        invariant 0 <= i <= |args|
        invariant view == Extracted(history.slots, handout, args[..i])
      {
        if args[i].Subscribes() {
          var v := ReadInput(f, args[i]);
          view := view[args[i].id := v];
        }
        ExtractedNext(history.slots, handout, args, i);
        i := i + 1;
      }
      assert args[..i] == args;
      ExtractedAll(plain, given, history.slots, f);
      SeenFlags(plain, given, history.slots, f);
    }

    /** Whether any filter listens to the type; an output on demand is committed only then. */
    method HasSubscribers(t: TypeId) returns (r: bool)
      requires Linked()
      ensures r <==> t in lists && lists[t].subscribers != []
    {
      hide Effective, CountersHold;
      assert t in decorationMap ==> Holds(decorationMap[t], history.slots[t], lists[t], Lookup(pending, t));
      r := t in decorationMap && |decorationMap[t].subscribers| != 0;
    }

    /** Takes a satisfied filter off the outstanding work and extracts its arguments. */
    method BeginCall(f: FilterId) returns (args: seq<Argument>, view: View)
      requires Running() && Queued(net, history, f) && Served(f)
      modifies this`history
      ensures Running() && 0 <= f < |plain.filters| && args == plain.filters[f].args
      ensures view == Seen(given, f, ViewNow(net, history.slots, f))
      ensures Committing(net, old(history), history, f, LeftToCommit(plain, f, args))
    {
      hide Inv, Queued, Owes, Untold, WellFormed, Committing, ViewNow, OutputTypes, LeftToCommit, Seen, Served;
      hide Effective, GivenOk, Publishers, Extends, FullyWired, GivenFits;
      RunningFacts();
      QueuedIsNotCalled(net, history, f);
      args := counters[f].filter.args;
      view := ExtractArguments(f);
      CommittingStart(net, history, f);
      AllLeftToCommit(plain, given, f);
      CommittingFacts(net, history, Call(history, f), f, LeftToCommit(plain, f, args));
      LaterExtends(net, history, Call(history, f));
      GivenKept(plain, given, handed, history, Call(history, f));
      RecordCall(f);
    }

    ghost method RecordCall(f: FilterId)
      requires Linked()
      modifies this`history
      ensures Linked() && history == Call(old(history), f)
    {
      hide Effective, DispositionsHold, CountersHold;
      history := Call(history, f);
    }

    /** Commits one output of the filter being called, if the argument is one and is wanted. */
    method CommitArgument(f: FilterId, args: seq<Argument>, i: nat, view: View, ghost start: State)
      requires Running() && 0 <= f < |plain.filters| && args == plain.filters[f].args && i < |args|
      requires Committing(net, start, history, f, LeftToCommit(plain, f, args[i..]))
      requires view == Seen(given, f, ViewNow(net, history.slots, f))
      modifies this`history, counters, dispositions
      ensures Running() && view == Seen(given, f, ViewNow(net, history.slots, f))
      ensures Committing(net, start, history, f, LeftToCommit(plain, f, args[i + 1..]))
      decreases |OpenTypes(net, history.slots)|, 1
    {
      hide Running, Queued, Owes, Untold, Committing, OpenTypes, LeftToCommit, Commits, ConcludedOne, ViewNow, Later;
      hide Effective, Seen;
      var a := args[i];
      RunningFacts();
      CommitsTest(plain, lists, f, args, i);
      CommittingFacts(net, start, history, f, LeftToCommit(plain, f, args[i..]));
      var wanted := true;
      if a.onDemand {
        wanted := HasSubscribers(a.id);
      }
      if a.Publishes() && wanted {
        ghost var s := history;
        EffectiveBody(plain, given, f, ViewNow(net, s.slots, f), a.id);
        ConcludeOutput(a.id, body(f, view, a.id), f);
        CommittingOutput(net, start, s, history, f, LeftToCommit(plain, f, args[i..]), a.id);
        ConcludedView(net, s, history, f, a.id);
      }
    }

    /** Runs a satisfied filter and commits its outputs. */
    method CallFilter(f: FilterId)
      requires Running() && Queued(net, history, f) && Served(f)
      modifies this`history, counters, dispositions
      ensures Running() && CalledOne(net, old(history), history, f)
      decreases |OpenTypes(net, history.slots)|, 2
    {
      hide Running, Queued, Owes, Untold, Committing, CalledOne, OpenTypes, LeftToCommit, Commits, ConcludedOne;
      hide ViewNow, Later, Seen, Served;
      ghost var start := history;
      var args, view := BeginCall(f);
      assert args[0..] == args;
      var i := 0;
      while i < |args|
        invariant 0 <= i <= |args|
        invariant Running() && Committing(net, start, history, f, LeftToCommit(plain, f, args[i..]))
        invariant view == Seen(given, f, ViewNow(net, history.slots, f))
      {
        CommittingFacts(net, start, history, f, LeftToCommit(plain, f, args[i..]));
        OpenTypesLater(net, start, history);
        CommitArgument(f, args, i, view, start);
        i := i + 1;
      }
      assert args[i..] == [];
      NothingLeftToCommit(plain, f);
      CommittingDone(net, start, history, f);
    }

    lemma LinkedKeys()
      requires Linked()
      ensures decorationMap.Keys == lists.Keys == history.slots.Keys
      ensures |counters| == |plain.filters| == |history.remaining| && plain.body == body
      ensures net == Effective(plain, given)
    {
      hide Holds, Effective;
    }

    lemma LinkedFilter(f: FilterId)
      requires Linked() && 0 <= f < |counters|
      ensures f < |plain.filters| && counters[f].filter == plain.filters[f]
      ensures f < |history.remaining| && (f !in handed ==> counters[f].remaining == history.remaining[f])
    {
      hide Holds, Effective;
    }

    lemma LinkedLists(t: TypeId)
      requires Linked() && t in decorationMap
      ensures t in lists && t in history.slots && decorationMap[t] in dispositions
      ensures Holds(decorationMap[t], history.slots[t], lists[t], Lookup(pending, t))
      ensures decorationMap[t].AsLists() == lists[t]
    {
      hide Effective, CountersHold;
    }

    // -------------------------------------------------------------- what the caller does

    /** The disposition of a type, created if there is none. */
    method Entry(t: TypeId) returns (d: DecorationDisposition)
      requires Linked()
      modifies this`decorationMap, this`dispositions, this`lists, this`history
      ensures Linked() && t in decorationMap && d == decorationMap[t]
      ensures fresh(dispositions - old(dispositions))
      ensures if old(t in decorationMap) then
                decorationMap == old(decorationMap) && lists == old(lists) && history == old(history)
              else
                && fresh(d) && decorationMap == old(decorationMap)[t := d] && lists == old(lists)[t := NO_LISTS]
                && history == old(history).(slots := old(history.slots)[t := EMPTY_SLOT])
    {
      hide Linked;
      if t in decorationMap {
        d := decorationMap[t];
      } else {
        d := NewEntry(t);
      }
    }

    method NewEntry(t: TypeId) returns (d: DecorationDisposition)
      requires Linked() && t !in decorationMap
      modifies this`decorationMap, this`dispositions, this`lists, this`history
      ensures Linked() && fresh(d) && dispositions == old(dispositions) + {d}
      ensures decorationMap == old(decorationMap)[t := d] && lists == old(lists)[t := NO_LISTS]
      ensures history == old(history).(slots := old(history.slots)[t := EMPTY_SLOT])
    {
      hide Effective, CountersHold, DispositionsHold;
      d := new DecorationDisposition();
      DispositionsGrow(decorationMap, lists, history.slots, pending, dispositions, t, d);
      decorationMap := decorationMap[t := d];
      dispositions := dispositions + {d};
      lists := lists[t := NO_LISTS];
      history := history.(slots := history.slots[t := EMPTY_SLOT]);
    }

    /** The same, of a running packet: an entry nobody uses changes nothing. */
    method RunningEntry(t: TypeId) returns (d: DecorationDisposition)
      requires AtRest()
      modifies this`decorationMap, this`dispositions, this`lists, this`history
      ensures AtRest() && t in decorationMap && d == decorationMap[t]
      ensures fresh(dispositions - old(dispositions))
      ensures if old(t in decorationMap) then decorationMap == old(decorationMap)
              else fresh(d) && decorationMap == old(decorationMap)[t := d]
      ensures t in old(lists) ==> lists == old(lists)
      ensures history == old(history).(slots := history.slots) && SameSlots(old(history.slots), history.slots)
    {
      hide Inv, WellFormed, Quiescent, FullyWired, Linked, GivenOk;
      ghost var before, wiring := history, lists;
      LinkedKeys();
      d := Entry(t);
      assert SameSlots(before.slots, history.slots);
      SameSlotsInv(net, before, history.slots);
      SameSlotsRest(net, before, history.slots);
      SameDeliveries(plain, given, handed, before, history);
      if t !in wiring {
        EntryKeepsWiring(plain, wiring, t);
      }
    }

    /** The disposition of an open root takes the caller's decision. */
    method AccountRoot(t: TypeId, ptr: Emission)
      requires Linked() && t in decorationMap && t !in pending
      requires At(history.slots, t).decorations == [] && lists[t].publishers == []
      modifies this`history, decorationMap[t]
      ensures Linked()
      ensures var run := old(history.slots[t].producersRun) + 1;
              history == SetRoot(old(history), t, AsRoot(ptr), RootSlot(run, AsRoot(ptr)))
    {
      hide Advance, Effective, CountersHold, Holds, RootSlot;
      HoldsFacts(decorationMap[t], history.slots[t], lists[t], Lookup(pending, t));
      AdvanceRoot(At(history.slots, t), ptr);
      ghost var run := history.slots[t].producersRun + 1;
      var completed := decorationMap[t].Attach(ptr);
      history := SetRoot(history, t, AsRoot(ptr), RootSlot(run, AsRoot(ptr)));
      HoldsRoot(decorationMap[t], history.slots[t], lists[t], run, AsRoot(ptr));
    }

    /** The disposition of a type that gets no decoration. */
    method ClearEntry(t: TypeId)
      requires Linked() && t in decorationMap
      modifies this`history, this`pending, decorationMap[t]
      ensures Linked() && pending == old(pending) - {t}
      ensures history == SetRoot(old(history), t, None, RootSlot(old(history.slots[t].producersRun), None))
    {
      hide Effective, CountersHold, Holds;
      var d := decorationMap[t];
      HoldsFacts(d, history.slots[t], lists[t], Lookup(pending, t));
      d.phase := Complete;
      d.decorations := [];
      d.immediate := None;
      history := SetRoot(history, t, None, RootSlot(d.producersRun, None));
      pending := pending - {t};
      HoldsRoot(d, history.slots[t], lists[t], d.producersRun, None);
    }

    /** An open root can be decided. */
    ghost predicate Decidable(t: TypeId)
      reads this
    {
      t in decorationMap && Publishers(plain, t) == [] && !Completed(history.slots, t)
    }

    lemma OpenRoot(t: TypeId)
      requires AtRest() && Decidable(t)
      ensures Publishers(net, t) == [] && t in history.slots && At(history.slots, t).decorations == []
      ensures lists[t].publishers == [] && t !in history.roots
      ensures forall f :: (f, t) !in history.delivered
    {
      hide Inv, WellFormed, GivenOk, Quiescent, Effective, SubscribersMatch;
      RunningFacts();
      RootCompletes(net, history, t);
      UntoldWhileOpen(net, history, t);
      OpenRootSlot(net, history, t);
    }

    /** Attaches a decision to an open root and runs what it satisfies. */
    method DecideRoot(t: TypeId, ptr: Emission)
      requires AtRest() && Decidable(t) && t !in pending
      modifies this`history, counters, dispositions
      ensures AtRest() && history.roots == old(history.roots)[t := AsRoot(ptr)]
      ensures old(history.calls) <= history.calls
      ensures CallsInTurn(plain, given, old(history), t, ptr.Item?, history.calls)
    {
      hide Inv, WellFormed, Quiescent, Updated, FullyWired, Queued, Owes, Untold, Linked, OpenTypes;
      hide GivenOk, Effective, Publishers, CallsInTurn, CalledInTurn;
      ghost var start := history;
      LinkedKeys();
      LinkedLists(t);
      OpenRoot(t);
      RootStep(net, start, t, AsRoot(ptr), start.slots[t].producersRun + 1);
      AccountRoot(t, ptr);
      ghost var m := history;
      SameDeliveries(plain, given, handed, start, m);
      UpdateSatisfaction(t);
      RootsInTurn(plain, given, start, m, t, ptr.Item?, history.calls);
      RestAfterRoot(net, start, m, history, t);
      UpdatedFacts(net, m, history, t);
    }

    /** Attaches a pointer, possibly null, to a type that no filter publishes. A second attempt, or one on a type
        whose immediate is not yet marked, is refused and changes nothing. Whatever this satisfies is run before
        the method returns. */
    method Decorate(t: TypeId, ptr: Emission) returns (status: Status)
      requires AtRest() && Publishers(plain, t) == []
      modifies this`decorationMap, this`dispositions, this`lists, this`history, counters, dispositions
      ensures AtRest() && IsOutcome(net, history.roots, history) && CalledByFlags()
      ensures old(t in history.roots || t in pending) ==>
                && history.roots == old(history.roots) && history.calls == old(history.calls)
                && status == Threw(
                     if old(At(history.slots, t).decorations) == [] then MarkedUnsatisfiable else AlreadySatisfied)
      ensures old(t !in history.roots && t !in pending) ==>
                status == Ok && history.roots == old(history.roots)[t := AsRoot(ptr)]
      ensures status == Ok ==> CallsInTurn(plain, given, old(history), t, ptr.Item?, history.calls)
      ensures old(history.calls) <= history.calls && fresh(dispositions - old(dispositions))
    {
      hide Inv, WellFormed, Quiescent, IsOutcome, FullyWired, Linked, GivenOk, Effective, Publishers, CalledByFlags;
      hide CallsInTurn;
      var d := RunningEntry(t);
      ghost var entered := history;
      RunningFacts();
      LinkedLists(t);
      RootCompletes(net, history, t);
      if d.phase == Complete {
        QuiescentIsOutcome(net, history);
        RestByTheFlags();
        return Threw(if d.decorations == [] then MarkedUnsatisfiable else AlreadySatisfied);
      }
      DecideRoot(t, ptr);
      SlotsDoNotMatter(plain, given, old(history), entered, t, ptr.Item?, history.calls);
      RunningFacts();
      QuiescentIsOutcome(net, history);
      RestByTheFlags();
      return Ok;
    }

    /** Marks a type that no filter publishes as never going to be decorated. */
    method MarkUnsatisfiable(t: TypeId)
      requires AtRest() && Publishers(plain, t) == [] && t !in history.roots
      modifies this`decorationMap, this`dispositions, this`lists, this`history, this`pending, counters, dispositions
      ensures AtRest() && IsOutcome(net, history.roots, history) && CalledByFlags()
      ensures history.roots == old(history.roots)[t := None] && pending == old(pending) - {t}
      ensures CallsInTurn(plain, given, old(history), t, false, history.calls)
      ensures old(history.calls) <= history.calls && fresh(dispositions - old(dispositions))
      ensures t in old(lists) ==> lists == old(lists)
    {
      hide Inv, WellFormed, Quiescent, IsOutcome, FullyWired, Linked, GivenOk, Effective, Publishers, CalledByFlags;
      hide CallsInTurn;
      var d := RunningEntry(t);
      ghost var entered := history;
      RunningFacts();
      RootCompletes(net, history, t);
      MarkRoot(t);
      SlotsDoNotMatter(plain, given, old(history), entered, t, false, history.calls);
      RunningFacts();
      QuiescentIsOutcome(net, history);
      RestByTheFlags();
    }

    method MarkRoot(t: TypeId)
      requires AtRest() && Decidable(t)
      modifies this`history, this`pending, counters, dispositions
      ensures AtRest() && history.roots == old(history.roots)[t := None] && pending == old(pending) - {t}
      ensures old(history.calls) <= history.calls
      ensures CallsInTurn(plain, given, old(history), t, false, history.calls)
    {
      hide Inv, WellFormed, Quiescent, Updated, FullyWired, Queued, Owes, Untold, Linked, OpenTypes;
      hide GivenOk, Effective, Publishers, CallsInTurn, CalledInTurn;
      ghost var start := history;
      LinkedKeys();
      LinkedLists(t);
      OpenRoot(t);
      RootStep(net, start, t, None, start.slots[t].producersRun);
      ClearEntry(t);
      ghost var m := history;
      SameDeliveries(plain, given, handed, start, m);
      UpdateSatisfaction(t);
      RootsInTurn(plain, given, start, m, t, false, history.calls);
      RestAfterRoot(net, start, m, history, t);
      UpdatedFacts(net, m, history, t);
    }

    // -------------------------------------------------------------- immediate decorations

    /** The immediates are on the packet, and nothing was decided about their types. */
    ghost predicate ImmediatesOn(types: seq<TypeId>, imms: Immeds)
      reads this
    {
      && Distinct(types) && (forall t :: t in types <==> t in imms)
      && OpenImmeds(plain, imms, history.roots)
      && forall t :: t in imms ==> t in decorationMap && t in pending && pending[t] == Some(imms[t])
    }

    /** The dispositions of the immediates. */
    ghost predicate AreTypes(types: seq<TypeId>, entries: seq<DecorationDisposition>)
      reads this`decorationMap
    {
      && |entries| == |types|
      && forall i :: 0 <= i < |types| ==> types[i] in decorationMap && entries[i] == decorationMap[types[i]]
    }

    /** Before a pass every counter says what is missing, so the pass finds the filters that miss only what is
        served. */
    lemma BeforePass(types: seq<TypeId>, imms: Immeds)
      requires AtRest() && ImmediatesOn(types, imms)
      ensures (forall i :: 0 <= i < |types| ==> types[i] in lists)
      ensures Frame(counters, history.remaining, ListsOf(lists, types))
      ensures forall f :: 0 <= f < |counters| ==> counters[f].remaining == history.remaining[f]
      ensures forall f :: Target(counters, history.remaining, ListsOf(lists, types), f) <==>
                f !in given && MissesOnly(plain, imms, history.delivered, f)
    {
      hide Inv, WellFormed, Quiescent, GivenOk, Effective, DispositionsHold, SubscribersMatch, Count, Visited;
      hide MissesOnly, OpenImmeds;
      hide ListsMatch;
      LinkedKeys();
      NobodyHanded(plain, given, handed, history);
      forall i | 0 <= i < |types| ensures types[i] in lists {
        var t := types[i];
        assert t in types;
      }
      var subs := ListsOf(lists, types);
      ListsOfMatch(plain, lists, types);
      VisitedRange(plain, types, subs);
      forall f | 0 <= f < |counters|
        ensures history.remaining[f] == 0 || history.remaining[f] >= Count(Visited(subs), f)
        ensures Target(counters, history.remaining, subs, f) <==>
            f !in given && MissesOnly(plain, imms, history.delivered, f)
      {
        RoundTarget(plain, given, imms, types, subs, history, f);
      }
      MissesInRange(plain, imms, history.delivered);
    }

    /** The packet is at rest but for its counters. */
    ghost predicate AtRestButCounters()
      reads this, dispositions
    {
      && plain.body == body && net == Effective(plain, given)
      && DispositionsHold(decorationMap, lists, history.slots, pending, dispositions)
      && WellFormed(plain) && FullyWired(plain, lists) && Inv(net, history)
      && GivenOk(plain, given, handed, history)
      && (forall t :: t in pending ==> Publishers(plain, t) == [])
      && Quiescent(net, history) && forall f :: f !in handed
    }

    lemma RestAndCounters()
      requires AtRest()
      ensures Linked() && AtRestButCounters() && CountersHold(counters, plain.filters, handed, history.remaining)
    {
      hide Effective, DispositionsHold, WellFormed, FullyWired, Inv, GivenOk, Quiescent, CountersHold, Publishers;
      assert AtRest() ==> Running() && Linked() && AtRestButCounters();
    }

    /** Records that the filters in the queue have been handed the immediates. */
    ghost method HandOut(callQueue: seq<FilterId>, types: seq<TypeId>, imms: Immeds)
      requires AtRestButCounters() && ImmediatesOn(types, imms) && CountersAhead(callQueue) && Distinct(callQueue)
      requires forall f :: f in callQueue ==> f !in given && MissesOnly(plain, imms, history.delivered, f)
      modifies this`given, this`net, this`handed, this`history
      ensures Running() && Starting(net, history, callQueue) && forall f :: f in handed <==> f in callQueue
      ensures given == Give(plain, old(given), imms, callQueue) && forall f :: f in callQueue ==> Served(f)
      ensures history == old(history).(remaining := history.remaining)
    {
      hide Inv, Quiescent, WellFormed, GivenOk, Effective, DispositionsHold, OpenImmeds, FullyWired, MissesOnly;
      hide Consumes, Publishers, KindOf, Starting, CountersHold, HandedOut, Handout;
      ghost var given' := Give(plain, given, imms, callQueue);
      NobodyHanded(plain, given, handed, history);
      RoundStep(plain, given, imms, history, callQueue);
      AheadHolds(callQueue, Newly(given, given'));
      HandedOutFacts(history, Newly(given, given'));
      history := HandedOut(history, Newly(given, given'));
      given := given';
      net := Effective(plain, given);
      handed := set f | f in callQueue;
      StartingFacts(net, history, callQueue);
      HandoutServes(callQueue, imms);
    }

    lemma AheadHolds(callQueue: seq<FilterId>, fs: set<FilterId>)
      requires CountersAhead(callQueue) && forall f :: f in fs ==> f in callQueue
      ensures CountersHold(counters, plain.filters, (set f | f in callQueue), HandedOut(history, fs).remaining)
    {}

    lemma HandoutServes(callQueue: seq<FilterId>, imms: Immeds)
      requires forall f :: f in callQueue ==> f in given && given[f] == Handout(plain, imms, f)
      requires forall t :: t in imms ==> t in pending && pending[t] == Some(imms[t])
      ensures forall f :: f in callQueue ==> Served(f)
    {}

    /** The counters of the filters in the queue are still to be zeroed; every other counter is right. */
    ghost predicate CountersAhead(callQueue: seq<FilterId>)
      reads this, counters
    {
      && |counters| == |plain.filters| == |history.remaining|
      && (forall i, j :: 0 <= i < j < |counters| ==> counters[i] != counters[j])
      && (forall i :: 0 <= i < |counters| ==>
            && counters[i].filter == plain.filters[i]
            && (i !in callQueue ==> counters[i].remaining == history.remaining[i]))
    }

    /** Calls the filters that a pass has found, and sets their counters to zero. */
    method RunQueue(callQueue: seq<FilterId>)
      requires Running() && Starting(net, history, callQueue) && forall f :: f in handed <==> f in callQueue
      requires forall f :: f in callQueue ==> Served(f)
      modifies this`history, this`handed, counters, dispositions
      ensures AtRest() && history.roots == old(history.roots) && Extends(old(history), history)
      ensures forall f :: f in callQueue ==> f in history.calls && f !in old(history.calls)
      ensures callQueue == [] ==> history == old(history)
    {
      hide Running, Queued, Owes, Untold, Starting, Quiescent, Served, Extends;
      ExtendsItself(history);
      assert callQueue[0..] == callQueue;
      var k := 0;
      while k < |callQueue|
        invariant 0 <= k <= |callQueue|
        invariant Running() && Starting(net, history, callQueue[k..])
        invariant forall f :: f in handed <==> f in callQueue[k..]
        invariant history.roots == old(history.roots) && Extends(old(history), history)
        invariant forall i :: 0 <= i < k ==> callQueue[i] in history.calls && callQueue[i] !in old(history.calls)
        invariant k == 0 ==> history == old(history)
      {
        assert callQueue[k..][1..] == callQueue[k + 1..] && callQueue[k..][0] == callQueue[k];
        ghost var s := history;
        CallFirst(callQueue[k..]);
        ExtendsTransitive(old(history), s, history);
        ExtendsCalls(old(history), s);
        ExtendsCalls(s, history);
        k := k + 1;
      }
      assert callQueue[k..] == [];
      StartingDone(net, history);
    }

    /** Calls one filter; its counter is zero afterwards, whatever it was. */
    method CallFirst(callQueue: seq<FilterId>)
      requires Running() && Starting(net, history, callQueue) && forall f :: f in handed <==> f in callQueue
      requires callQueue != [] && Served(callQueue[0])
      modifies this`history, this`handed, counters, dispositions
      ensures Running() && Starting(net, history, callQueue[1..]) && forall f :: f in handed <==> f in callQueue[1..]
      ensures history.roots == old(history.roots) && Extends(old(history), history)
      ensures callQueue[0] in history.calls && callQueue[0] !in old(history.calls)
    {
      hide Queued, Owes, Untold, Starting, Served, Running, CalledOne, Extends;
      ghost var s := history;
      var call := callQueue[0];
      assert call in callQueue;
      RunningFacts();
      StartingFirst(net, history, callQueue);
      StartingFacts(net, history, callQueue);
      StartingDistinct(net, history, callQueue);
      CallFilter(call);
      StartingCall(net, s, history, callQueue);
      StartingCalled(net, s, history, call);
      QueuedInRange(net, s, call);
      DistinctTail(callQueue);
      ZeroCounter(call);
    }

    method ZeroCounter(f: FilterId)
      requires Running() && f in handed && f in history.calls && 0 <= f < |plain.filters|
      modifies this`handed, counters
      ensures Running() && handed == old(handed) - {f}
    {
      hide Inv, WellFormed, FullyWired, Effective, DispositionsHold, Consumes, GivenFits, Publishers;
      GivenWaitsForNothing(plain, given, handed, history, f);
      counters[f].remaining := 0;
      handed := handed - {f};
    }

    /** After a pass only the counters of the filters in the queue are ahead. */
    lemma PassCounters(callQueue: seq<FilterId>, base: seq<nat>)
      requires base == history.remaining && |counters| == |plain.filters| == |base|
      requires forall i, j :: 0 <= i < j < |counters| ==> counters[i] != counters[j]
      requires forall i :: 0 <= i < |counters| ==> counters[i].filter == plain.filters[i]
      requires forall f :: 0 <= f < |counters| && f !in callQueue ==> counters[f].remaining == base[f]
      ensures CountersAhead(callQueue)
    {}

    /** One pass over the immediates: finds the filters that miss only what is served, and hands it to them. */
    method FindTargets(types: seq<TypeId>, entries: seq<DecorationDisposition>, ghost imms: Immeds)
      returns (callQueue: seq<FilterId>)
      requires AtRest() && ImmediatesOn(types, imms) && AreTypes(types, entries)
      modifies this`history, this`given, this`net, this`handed, counters
      ensures Running() && Starting(net, history, callQueue)
      ensures forall f :: f in callQueue ==> Served(f)
      ensures forall f :: f in handed <==> f in callQueue
      ensures forall f :: f in callQueue <==> f !in old(given) && MissesOnly(plain, imms, history.delivered, f)
      ensures given == Give(plain, old(given), imms, callQueue)
      ensures history == old(history).(remaining := history.remaining)
    {
      hide Linked, Running, AtRest, AtRestButCounters, Quiescent, Extends, MissesOnly, OpenImmeds, Publishers;
      hide Starting, Served, Handout, CountersHold, Frame;
      ghost var base := history.remaining;
      BeforePass(types, imms);
      RestAndCounters();
      ghost var subs := ListsOf(lists, types);
      EntryLists(types, entries);
      CountersFacts(counters, plain.filters, handed, history.remaining);
      var reincrement;
      callQueue, reincrement := DecrementAll(counters, entries, base, subs);
      Reincrement(counters, reincrement, callQueue, base, subs);
      PassCounters(callQueue, base);
      HandOut(callQueue, types, imms);
    }

    /** One pass, and the calls it leads to. */
    method Pass(types: seq<TypeId>, entries: seq<DecorationDisposition>, ghost imms: Immeds) returns (more: bool)
      requires AtRest() && ImmediatesOn(types, imms) && AreTypes(types, entries)
      modifies this`history, this`given, this`net, this`handed, counters, dispositions
      ensures AtRest() && ImmediatesOn(types, imms)
      ensures history.roots == old(history.roots) && Extends(old(history), history)
      ensures forall f :: f in old(given) ==> f in given && given[f] == old(given)[f]
      ensures forall f :: f in given && f !in old(given) ==>
                && given[f] == Handout(plain, imms, f) && f in history.calls && f !in old(history.calls)
                && MissesOnly(plain, imms, history.delivered, f)
      ensures more ==> exists f :: 0 <= f < |plain.filters| && f in given && f !in old(given)
      ensures !more ==> forall f :: f in given <==> f in old(given)
      ensures !more ==> forall f :: f !in given ==> !MissesOnly(plain, imms, history.delivered, f)
    {
      hide Running, AtRest, Extends, MissesOnly, OpenImmeds, Starting, Served, Handout;
      var callQueue := FindTargets(types, entries, imms);
      ghost var s := history;
      RunQueue(callQueue);
      ExtendsRemaining(old(history), s, history);
      ExtendsCalls(s, history);
      forall f | f in callQueue ensures MissesOnly(plain, imms, history.delivered, f) {
        MissesOnlyLater(plain, imms, s.delivered, history.delivered, f);
      }
      MissesInRange(plain, imms, history.delivered);
      more := callQueue != [];
      if more {
        assert callQueue[0] in callQueue;
      }
    }

    lemma EntryLists(types: seq<TypeId>, entries: seq<DecorationDisposition>)
      requires Linked() && AreTypes(types, entries) && forall i :: 0 <= i < |types| ==> types[i] in lists
      ensures forall i :: 0 <= i < |entries| ==> entries[i].subscribers == ListsOf(lists, types)[i]
    {
      hide Linked;
      forall i | 0 <= i < |entries| ensures entries[i].subscribers == ListsOf(lists, types)[i] {
        LinkedLists(types[i]);
      }
    }

    ghost function Ungiven(): set<FilterId>
      reads this
    {
      set f | 0 <= f < |plain.filters| && f !in given
    }

    /** A pulse. The filters it calls are those all of whose missing inputs the immediates serve: they have all
        their other inputs, and some input is served. Each is called once, with the immediates, and its counter is
        zero afterwards. The packet is at rest again, so every other counter counts what it always does. */
    method PulseSatisfaction(types: seq<TypeId>, entries: seq<DecorationDisposition>, ghost imms: Immeds)
      requires AtRest() && ImmediatesOn(types, imms) && AreTypes(types, entries)
      modifies this`history, this`given, this`net, this`handed, counters, dispositions
      ensures AtRest() && ImmediatesOn(types, imms)
      ensures history.roots == old(history.roots) && Extends(old(history), history)
      ensures forall f :: f in old(given) ==> f in given && given[f] == old(given)[f]
      ensures forall f :: f in given && f !in old(given) ==> Pulsed(f, imms) && f !in old(history.calls)
      ensures forall f :: f in given && f !in old(given) ==> HandedByFlags(plain, given, imms, f)
      ensures forall f :: f !in old(given) ==> (f in given <==> Pulses(plain, net, history.roots, imms, f))
    {
      hide Running, Quiescent, Extends, MissesOnly, OpenImmeds, Handout, ImmediatesOn, AreTypes, Pulses;
      hide HandedByFlags;
      ExtendsItself(history);
      var more := true;
      while more
        invariant AtRest() && ImmediatesOn(types, imms) && AreTypes(types, entries)
        invariant history.roots == old(history.roots) && Extends(old(history), history)
        invariant forall f :: f in old(given) ==> f in given && given[f] == old(given)[f]
        invariant forall f :: f in given && f !in old(given) ==>
                    && given[f] == Handout(plain, imms, f) && f in history.calls && f !in old(history.calls)
                    && MissesOnly(plain, imms, history.delivered, f)
        invariant !more ==> forall f :: f !in given ==> !MissesOnly(plain, imms, history.delivered, f)
        decreases Ungiven(), more
      {
        ghost var s, given1 := history, given;
        more := Pass(types, entries, imms);
        ExtendsTransitive(old(history), s, history);
        ExtendsCalls(old(history), s);
        ExtendsCalls(s, history);
        forall f | f in given && f !in old(given) ensures MissesOnly(plain, imms, history.delivered, f) {
          MissesOnlyLater(plain, imms, s.delivered, history.delivered, f);
        }
        if more {
          ghost var f :| 0 <= f < |plain.filters| && f in given && f !in given1;
          assert f !in Ungiven();
        }
      }
      forall f | f in given && f !in old(given) ensures Pulsed(f, imms) && HandedByFlags(plain, given, imms, f) {
        PulsedCounter(f, imms);
        PulsedHanded(f, imms);
      }
      forall f | f !in old(given) ensures f in given <==> Pulses(plain, net, history.roots, imms, f) {
        PulsedExactly(types, imms, f);
      }
    }

    /** The filter was handed the immediates and called, and waits for nothing. */
    ghost predicate Pulsed(f: FilterId, imms: Immeds)
      reads this, counters
    {
      && f in given && given[f] == Handout(plain, imms, f)
      && f in history.calls && 0 <= f < |counters| && counters[f].remaining == 0
    }

    lemma PulsedCounter(f: FilterId, imms: Immeds)
      requires AtRest() && f in given && given[f] == Handout(plain, imms, f) && f in history.calls
      ensures Pulsed(f, imms)
    {
      hide Inv, Quiescent, FullyWired, Effective, DispositionsHold, Handout, WellFormed;
      GivenWaitsForNothing(plain, given, handed, history, f);
    }

    lemma PulsedHanded(f: FilterId, imms: Immeds)
      requires AtRest() && f in given && given[f] == Handout(plain, imms, f)
      ensures HandedByFlags(plain, given, imms, f)
    {
      hide Inv, Quiescent, FullyWired, Effective, DispositionsHold, Handout, WellFormed, HandedByFlags;
      HandoutFlags(plain, given, imms, f);
    }

    lemma PulsedExactly(types: seq<TypeId>, imms: Immeds, f: FilterId)
      requires AtRest() && ImmediatesOn(types, imms) && (f in given ==> given[f] == Handout(plain, imms, f))
      ensures MissesOnly(plain, imms, history.delivered, f) <==> Pulses(plain, net, history.roots, imms, f)
    {
      hide Inv, Quiescent, FullyWired, Effective, Linked, WellFormed, MissesOnly, Pulses, OpenImmeds, GivenOk;
      RunningFacts();
      PulsesAtRest(plain, given, imms, history, f);
    }

    /** Puts an immediate on the packet, unless the type was decided, or has one, already. */
    method DecorateImmediateUnsafe(t: TypeId, v: Value) returns (status: Status, d: DecorationDisposition)
      requires AtRest() && Publishers(plain, t) == []
      modifies this`decorationMap, this`dispositions, this`lists, this`history, this`pending, dispositions
      ensures AtRest() && t in decorationMap && d == decorationMap[t]
      ensures status == if old(t in history.roots || t in pending) then Threw(DecorationExists) else Ok
      ensures pending == if status == Ok then old(pending)[t := Some(v)] else old(pending)
      ensures history == old(history).(slots := history.slots) && fresh(dispositions - old(dispositions))
      ensures forall u :: u in old(decorationMap) ==> u in decorationMap && decorationMap[u] == old(decorationMap)[u]
    {
      hide Inv, WellFormed, Quiescent, FullyWired, Linked, GivenOk, Effective, Publishers, SameSlots;
      d := RunningEntry(t);
      RunningFacts();
      LinkedLists(t);
      RootCompletes(net, history, t);
      OpenPhase(t);
      if d.phase != Unsatisfied {
        return Threw(DecorationExists), d;
      }
      TurnOn(t, v);
      return Ok, d;
    }

    lemma OpenPhase(t: TypeId)
      requires AtRest() && t in decorationMap && Publishers(plain, t) == []
      ensures decorationMap[t].phase == Unsatisfied <==> t !in pending && t !in history.roots
    {
      hide Inv, WellFormed, Quiescent, FullyWired, GivenOk, Effective, Publishers;
      RunningFacts();
      LinkedLists(t);
      RootCompletes(net, history, t);
      if t !in history.roots { OpenRootSlot(net, history, t); }
    }

    method TurnOn(t: TypeId, v: Value)
      requires AtRest() && t in decorationMap && Publishers(plain, t) == [] && t !in pending && t !in history.roots
      modifies this`pending, decorationMap[t]
      ensures AtRest() && pending == old(pending)[t := Some(v)]
    {
      hide Inv, WellFormed, Quiescent, FullyWired, GivenOk, Effective, Publishers, CountersHold;
      RunningFacts();
      LinkedLists(t);
      RootCompletes(net, history, t);
      OpenRootSlot(net, history, t);
      var d := decorationMap[t];
      d.phase := Complete;
      d.immediate := Some(v);
      pending := pending[t := Some(v)];
    }

    /** The immediate is gone; its type is yet to be marked. */
    method TurnOff(t: TypeId)
      requires AtRest() && t in decorationMap && t in pending
      modifies this`pending, decorationMap[t]
      ensures AtRest() && pending == old(pending)[t := None]
    {
      hide Inv, WellFormed, Quiescent, FullyWired, GivenOk, Effective, Publishers, CountersHold;
      LinkedLists(t);
      var d := decorationMap[t];
      d.immediate := None;
      d.phase := Complete;
      pending := pending[t := None];
    }

    /** The types have neither been decided nor have an immediate, and none comes twice. */
    ghost predicate Accepts(imms: seq<Immediate>)
      reads this`history, this`pending
    {
      && (forall i :: 0 <= i < |imms| ==> imms[i].t !in history.roots && imms[i].t !in pending)
      && forall i, j :: 0 <= i < j < |imms| ==> imms[i].t != imms[j].t
    }

    /** Puts the immediates on the packet, up to the first that is refused. */
    method TurnAllOn(imms: seq<Immediate>) returns (status: Status, entries: seq<DecorationDisposition>)
      requires AtRest() && forall i :: 0 <= i < |imms| ==> Publishers(plain, imms[i].t) == []
      modifies this`decorationMap, this`dispositions, this`lists, this`history, this`pending, dispositions
      ensures AtRest() && fresh(dispositions - old(dispositions))
      ensures history == old(history).(slots := history.slots)
      ensures status == Ok <==> old(Accepts(imms))
      ensures status != Ok ==> status == Threw(DecorationExists)
      ensures exists k :: 0 <= k <= |imms| && pending == TurnedOn(old(pending), imms[..k])
      ensures status == Ok ==> pending == TurnedOn(old(pending), imms)
      ensures status == Ok ==> ImmediatesOn(TypesOf(imms), ImmedsOf(imms)) && AreTypes(TypesOf(imms), entries)
    {
      hide AtRest, TypesOf, TurnedOn, ImmedsOf, Publishers, MarkedRoots, ImmediatesOn;
      entries := [];
      assert imms[..0] == [];
      assert TurnedOn(pending, []) == pending by { NothingOn(pending); }
      var i := 0;
      while i < |imms|
        invariant 0 <= i <= |imms| && AtRest() && fresh(dispositions - old(dispositions))
        invariant history == old(history).(slots := history.slots)
        invariant pending == TurnedOn(old(pending), imms[..i])
        invariant old(Accepts(imms[..i]))
        invariant |entries| == i
        invariant forall j :: 0 <= j < i ==> imms[j].t in decorationMap && entries[j] == decorationMap[imms[j].t]
      {
        ImmediatesNext(old(pending), map[], imms, i);
        ImmediatesKeys(old(pending), map[], imms[..i], imms[i].t);
        var d;
        status, d := DecorateImmediateUnsafe(imms[i].t, imms[i].value);
        if status != Ok {
          return;
        }
        entries := entries + [d];
        i := i + 1;
      }
      assert imms[..i] == imms;
      AllOn(imms, old(pending));
      return Ok, entries;
    }

    lemma AllOn(imms: seq<Immediate>, before: PendingMap)
      requires pending == TurnedOn(before, imms)
      requires forall i :: 0 <= i < |imms| ==>
        imms[i].t in decorationMap && imms[i].t !in history.roots && Publishers(plain, imms[i].t) == []
      requires forall i, j :: 0 <= i < j < |imms| ==> imms[i].t != imms[j].t
      ensures ImmediatesOn(TypesOf(imms), ImmedsOf(imms))
    {
      hide TurnedOn, ImmedsOf, Publishers;
      forall t
        ensures t in TypesOf(imms) <==> t in ImmedsOf(imms)
        ensures t in ImmedsOf(imms) ==> t in decorationMap && t !in history.roots && Publishers(plain, t) == []
        ensures t in ImmedsOf(imms) ==> t in pending && pending[t] == Some(ImmedsOf(imms)[t])
      {
        ImmediatesKeys(before, map[], imms, t);
        if t in ImmedsOf(imms) {
          var i :| 0 <= i < |imms| && imms[i].t == t;
          assert TypesOf(imms)[i] == t;
        }
      }
    }

    /** The immediates are gone; their types are yet to be marked. */
    method TurnAllOff(imms: seq<Immediate>)
      requires AtRest() && forall i :: 0 <= i < |imms| ==> imms[i].t in decorationMap && imms[i].t in pending
      modifies this`pending, dispositions
      ensures AtRest() && forall t :: t in pending <==> t in old(pending)
      ensures forall t :: t in pending && t !in ImmedsOf(imms) ==> pending[t] == old(pending)[t]
    {
      hide AtRest, ImmedsOf;
      var i := 0;
      while i < |imms|
        invariant 0 <= i <= |imms| && AtRest() && forall t :: t in pending <==> t in old(pending)
        invariant forall t :: t in pending && t !in ImmedsOf(imms) ==> pending[t] == old(pending)[t]
      {
        ImmediatesKeys(pending, map[], imms, imms[i].t);
        InDispositions(imms[i].t);
        TurnOff(imms[i].t);
        i := i + 1;
      }
    }

    lemma InDispositions(t: TypeId)
      requires AtRest() && t in decorationMap
      ensures decorationMap[t] in dispositions
    {
      hide Inv, WellFormed, Quiescent, FullyWired, GivenOk, Effective, Publishers, CountersHold, Holds;
    }

    /** Marks the types of the immediates in turn. */
    method MarkAll(imms: seq<Immediate>)
      requires AtRest() && forall i :: 0 <= i < |imms| ==> Publishers(plain, imms[i].t) == []
      requires forall i :: 0 <= i < |imms| ==> imms[i].t !in history.roots
      requires forall i, j :: 0 <= i < j < |imms| ==> imms[i].t != imms[j].t
      modifies this`decorationMap, this`dispositions, this`lists, this`history, this`pending, counters, dispositions
      ensures AtRest() && IsOutcome(net, history.roots, history) && fresh(dispositions - old(dispositions))
      ensures history.roots == MarkedRoots(old(history.roots), imms) && old(history.calls) <= history.calls
      ensures forall t :: t in pending <==> t in old(pending) && t !in ImmedsOf(imms)
      ensures forall t :: t in pending ==> pending[t] == old(pending)[t]
    {
      hide AtRest, ImmedsOf, MarkedRoots, IsOutcome, Publishers, TurnedOn;
      RestIsOutcome();
      assert imms[..0] == [];
      NothingMarked(history.roots);
      var i := 0;
      while i < |imms|
        invariant 0 <= i <= |imms| && AtRest() && IsOutcome(net, history.roots, history)
        invariant fresh(dispositions - old(dispositions)) && old(history.calls) <= history.calls
        invariant history.roots == MarkedRoots(old(history.roots), imms[..i])
        invariant forall t :: t in pending <==> t in old(pending) && t !in ImmedsOf(imms[..i])
        invariant forall t :: t in pending ==> pending[t] == old(pending)[t]
      {
        ImmediatesNext(pending, old(history.roots), imms, i);
        ImmediatesKeys(pending, old(history.roots), imms[..i], imms[i].t);
        ImmedsNext(imms, i);
        MarkUnsatisfiable(imms[i].t);
        i := i + 1;
      }
      assert imms[..i] == imms;
    }

    /** Who was called, with what, and what they handed over, in terms of the argument flags. */
    ghost predicate CalledByFlags()
      reads this
    {
      && CallsByFlags(plain, given, history.slots, history.calls)
      && EmitsByFlags(plain, given, history.slots, history.calls, history.emitted)
      && NoneWithoutValue(plain, given, history.roots, history.calls)
    }

    lemma RestByTheFlags()
      requires AtRest()
      ensures CalledByFlags()
    {
      hide WellFormed, Quiescent, FullyWired, GivenOk, Effective, Linked, SlotsOk, EmittedOk, SoundOk;
      hide CallsByFlags, EmitsByFlags, NoneWithoutValue;
      RunningFacts();
      RestByFlags(plain, given, handed, history);
      RestEmits(plain, given, handed, history);
      RestWithoutValue(plain, given, history);
    }

    lemma RestIsOutcome()
      requires AtRest()
      ensures IsOutcome(net, history.roots, history)
    {
      hide Inv, WellFormed, Quiescent, FullyWired, GivenOk, Effective, IsOutcome, Linked;
      RunningFacts();
      QuiescentIsOutcome(net, history);
    }

    /** Decorates the packet with values that are valid during the call only. The filters all of whose missing
        inputs they serve are called, each once, and have waited for nothing since; then the types are marked
        unsatisfiable. A type that was decided before, or that comes twice, is refused; the immediates before it
        stay on the packet. */
    method DecorateImmediate(imms: seq<Immediate>) returns (status: Status)
      requires AtRest() && forall i :: 0 <= i < |imms| ==> Publishers(plain, imms[i].t) == []
      modifies this`decorationMap, this`dispositions, this`lists, this`history, this`pending
      modifies this`given, this`net, this`handed, counters, dispositions
      ensures AtRest() && fresh(dispositions - old(dispositions)) && old(history.calls) <= history.calls
      ensures status == Ok <==> old(Accepts(imms))
      ensures status == Ok ==> history.roots == MarkedRoots(old(history.roots), imms)
      ensures status == Ok ==> IsOutcome(net, history.roots, history)
      ensures CalledByFlags()
      ensures status == Ok ==> forall f :: f in old(given) ==> f in given && given[f] == old(given)[f]
      ensures status == Ok ==> forall f :: f !in old(given) ==>
                (f in given <==> Pulses(plain, net, old(history.roots), ImmedsOf(imms), f))
      ensures status == Ok ==> forall f :: f in given && f !in old(given) ==>
                Pulsed(f, ImmedsOf(imms)) && f !in old(history.calls) &&
                HandedByFlags(plain, given, ImmedsOf(imms), f)
      ensures status == Ok ==> forall i :: 0 <= i < |imms| ==>
                imms[i].t in ImmedsOf(imms) && ImmedsOf(imms)[imms[i].t] == imms[i].value
      ensures status == Ok ==> forall t :: t in pending <==> t in old(pending)
      ensures status == Ok ==> forall t :: t in pending ==> pending[t] == old(pending)[t]
      ensures status != Ok ==> status == Threw(DecorationExists) && given == old(given) && net == old(net)
      ensures status != Ok ==> history == old(history).(slots := history.slots)
      ensures status != Ok ==> exists k :: 0 <= k <= |imms| && pending == TurnedOn(old(pending), imms[..k])
    {
      hide AtRest, TypesOf, ImmedsOf, MarkedRoots, Publishers, ImmediatesOn, AreTypes, Pulses, TurnedOn, IsOutcome;
      hide Extends, Handout, CalledByFlags, HandedByFlags;
      var entries;
      status, entries := TurnAllOn(imms);
      if status == Ok {
        forall t
          ensures t in pending <==> t in old(pending) || t in ImmedsOf(imms)
          ensures t in old(pending) ==> t !in ImmedsOf(imms) && pending[t] == old(pending)[t]
        {
          ImmediatesKeys(old(pending), map[], imms, t);
        }
        ghost var s := history;
        PulseSatisfaction(TypesOf(imms), entries, ImmedsOf(imms));
        ghost var m := history;
        ExtendsCalls(s, m);
        OnFacts(imms);
        TurnAllOff(imms);
        MarkAll(imms);
        ImmedsValues(imms);
        forall f | f in given && f !in old(given) ensures Pulsed(f, ImmedsOf(imms)) {
          PulsedCounter(f, ImmedsOf(imms));
        }
      }
      RestByTheFlags();
    }

    lemma OnFacts(imms: seq<Immediate>)
      requires ImmediatesOn(TypesOf(imms), ImmedsOf(imms))
      ensures forall i :: 0 <= i < |imms| ==>
        imms[i].t in decorationMap && imms[i].t in pending && imms[i].t !in history.roots
    {
      hide Publishers, ImmedsOf;
      forall i | 0 <= i < |imms|
        ensures imms[i].t in decorationMap && imms[i].t in pending && imms[i].t !in history.roots
      {
        var t := imms[i].t;
        assert TypesOf(imms)[i] == t && t in TypesOf(imms);
      }
    }

    // -------------------------------------------------------------- adding filters

    /** The filters have arguments of distinct types, and there have been no immediates. */
    ghost predicate FiltersOk()
      reads this`plain, this`given, this`handed, this`pending
    {
      && given == map[] && handed == {} && pending == map[]
      && forall f :: 0 <= f < |plain.filters| ==> DistinctTypes(plain.filters[f].args)
    }

    /** Whether some listener of `t` cannot take several decorations. */
    method HasSingleListener(t: TypeId) returns (r: bool)
      requires Linked() && FiltersOk() && Structure(plain.filters, wires, lists) && t in decorationMap
      ensures r <==> exists x :: x in lists[t].subscribers && x.kind != Multi
    {
      hide Structure, Sorted, WiredPublishers, MultiplicityOk, ModifiersOk;
      var subs := decorationMap[t].subscribers;
      var i := 0;
      while i < |subs|
        invariant 0 <= i <= |subs|
        invariant forall j :: 0 <= j < i ==> subs[j].kind == Multi
      {
        SubscriberArgument(plain.filters, wires, lists, t, i);
        var args := counters[subs[i].counter].filter.args;
        var j := 0;
        while j < |args|
          invariant 0 <= j <= |args|
          invariant forall k :: 0 <= k < j && args[k].id == t ==> args[k].isMulti
        {
          if args[j].id == t && !args[j].isMulti {
            assert subs[i] in lists[t].subscribers;
            return true;
          }
          j := j + 1;
        }
        i := i + 1;
      }
      return false;
    }

    /** Where a modifier of some altitude belongs, unless there is already one. */
    method FindModifierPlace(mods: seq<Modifier>, altitude: int) returns (k: nat, clash: bool)
      requires forall i, j :: 0 <= i < j < |mods| ==> mods[i].altitude < mods[j].altitude
      ensures clash <==> exists m :: m in mods && m.altitude == altitude
      ensures !clash ==> k <= |mods| && forall i :: 0 <= i < k ==> mods[i].altitude < altitude
      ensures !clash && k < |mods| ==> altitude < mods[k].altitude
    {
      k := 0;
      while k < |mods|
        invariant k <= |mods|
        invariant forall i :: 0 <= i < k ==> mods[i].altitude < altitude
      {
        if mods[k].altitude == altitude {
          assert mods[k] in mods;
          return k, true;
        }
        if mods[k].altitude > altitude {
          break;
        }
        k := k + 1;
      }
      forall m | m in mods ensures m.altitude != altitude {
        var i :| 0 <= i < |mods| && mods[i] == m;
        assert i >= k ==> mods[k].altitude <= mods[i].altitude;
      }
      return k, false;
    }

    /** Stores the lists of one disposition. */
    method SetLists(t: TypeId, l: Lists)
      requires Linked() && t in decorationMap && lists[t].publishers <= l.publishers
      modifies this`lists, decorationMap[t]
      ensures Linked() && lists == old(lists)[t := l]
    {
      hide Effective, CountersHold;
      assert Holds(decorationMap[t], history.slots[t], lists[t], Lookup(pending, t));
      var d := decorationMap[t];
      d.publishers, d.modifiers, d.subscribers := l.publishers, l.modifiers, l.subscribers;
      lists := lists[t := l];
    }

    /** No lists but those of `t` have changed. */
    ghost predicate OnlyListsOf(t: TypeId, before: ListMap)
      reads this`lists
    {
      t in lists && t in before && lists == before[t := lists[t]]
    }

    method AddModifier(f: FilterId, a: Argument) returns (status: Status)
      requires Linked() && Wirable(plain.filters, wires, lists, f, a) && a.isRvalue && |lists[a.id].publishers| <= 1
      modifies this`lists, this`wires, decorationMap[a.id]
      ensures Linked() && Structure(plain.filters, wires, lists)
      ensures status == Ok <==> !exists m :: m in old(lists[a.id]).modifiers && m.altitude == plain.filters[f].altitude
      ensures status != Threw(CycleDetected)
      ensures status != Ok ==> lists == old(lists)
      ensures status == Ok ==>
                && OnlyListsOf(a.id, old(lists))
                && lists[a.id] == old(lists[a.id]).(modifiers := lists[a.id].modifiers)
                && forall m :: m in lists[a.id].modifiers <==>
                     m in old(lists[a.id].modifiers) || ModifiesAs(m, plain.filters, f, a)
      ensures wires == if status == Ok then old(wires) + [(f, a)] else old(wires)
    {
      hide Structure, Linked;
      LinkedKeys();
      LinkedFilter(f);
      LinkedLists(a.id);
      var d := decorationMap[a.id];
      ModifiersSorted(plain.filters, wires, lists, a.id);
      var k, clash := FindModifierPlace(d.modifiers, counters[f].filter.altitude);
      if clash {
        return Threw(SameAltitudeModifiers);
      }
      WireModifier(plain.filters, wires, lists, f, a, k);
      var m := Modifier(a.isShared, counters[f].filter.altitude, f);
      var mods := d.modifiers[..k] + [m] + d.modifiers[k..];
      assert d.modifiers == d.modifiers[..k] + d.modifiers[k..];
      assert forall x :: x in mods <==> x in d.modifiers || x == m;
      SetLists(a.id, Lists(d.publishers, mods, d.subscribers));
      wires := wires + [(f, a)];
      return Ok;
    }

    method AddSubscriber(f: FilterId, a: Argument)
      requires Linked() && Wirable(plain.filters, wires, lists, f, a)
      requires a.Subscribes() && (|lists[a.id].publishers| <= 1 || a.isMulti)
      modifies this`lists, this`wires, decorationMap[a.id]
      ensures Linked() && Structure(plain.filters, wires, lists)
      ensures OnlyListsOf(a.id, old(lists)) && ByAltitude(lists[a.id].subscribers)
      ensures lists[a.id] == old(lists[a.id]).(subscribers := lists[a.id].subscribers)
      ensures forall y :: y in lists[a.id].subscribers <==>
                y in old(lists[a.id].subscribers) || EnteredAs(y, plain.filters, f, a)
      ensures wires == old(wires) + [(f, a)]
    {
      hide Structure, Insert, Linked, EnteredAs, ByAltitude, Wirable;
      LinkedKeys();
      WirableFacts(plain.filters, wires, lists, f, a);
      LinkedFilter(f);
      EntersOnly(plain.filters, wires, lists, f, a);
      LinkedLists(a.id);
      var d := decorationMap[a.id];
      WireSubscriber(plain.filters, wires, lists, f, a);
      var x := Subscriber(a.isShared, a.SubscriberKind(), counters[f].filter.altitude, f);
      SetLists(a.id, Lists(d.publishers, d.modifiers, Insert(d.subscribers, x)));
      wires := wires + [(f, a)];
      ListFlags(plain.filters, wires, lists, a.id);
    }

    method AddPublisher(f: FilterId, a: Argument) returns (status: Status)
      requires Linked() && FiltersOk() && Wirable(plain.filters, wires, lists, f, a) && a.Publishes()
      modifies this`lists, this`wires, decorationMap[a.id]
      ensures Linked() && Structure(plain.filters, wires, lists)
      ensures status == Ok <==> !Clash(plain.filters, old(lists[a.id]), f, a)
      ensures status != Threw(CycleDetected)
      ensures status != Ok ==> lists == old(lists)
      ensures status == Ok ==>
                && OnlyListsOf(a.id, old(lists))
                && lists[a.id] == old(lists[a.id]).(publishers := old(lists[a.id].publishers) + [f])
      ensures wires == if status == Ok then old(wires) + [(f, a)] else old(wires)
    {
      hide Structure, Linked;
      LinkedKeys();
      LinkedLists(a.id);
      var d := decorationMap[a.id];
      if d.publishers != [] {
        var single := HasSingleListener(a.id);
        if single {
          return Threw(BroadcastWithSubscriber);
        }
        if d.modifiers != [] {
          return Threw(BroadcastWithModifier);
        }
      }
      WirePublisher(plain.filters, wires, lists, f, a);
      SetLists(a.id, Lists(d.publishers + [f], d.modifiers, d.subscribers));
      wires := wires + [(f, a)];
      return Ok;
    }

    /** An argument that is neither an input nor an output leaves the lists alone. */
    ghost method AddUnwired(f: FilterId, a: Argument)
      requires Linked() && Wirable(plain.filters, wires, lists, f, a) && !a.isInput && !a.isOutput && !a.isRvalue
      modifies this`wires
      ensures Linked() && Structure(plain.filters, wires, lists)
      ensures wires == old(wires) + [(f, a)]
    {
      hide Structure;
      WireNothing(plain.filters, wires, lists, f, a);
      wires := wires + [(f, a)];
    }

    /** An input whose type is complete already may count as delivered at once. */
    method ArriveInput(f: FilterId, a: Argument)
      requires Linked() && 0 <= f < |counters| && a.id in decorationMap && pending == map[] && handed == {}
      modifies this`history, counters[f]
      ensures Linked() && history == Arrived(old(history), f, a)
    {
      var d := decorationMap[a.id];
      if a.isInput && d.phase == Complete && (d.decorations != [] || a.isShared) {
        var satisfied := Decrement(f, a.id);
      }
    }

    /** Filter `f` can enter its argument `a`: nothing of that type is wired to it yet. */
    ghost predicate CanWire(f: FilterId, a: Argument)
      reads this, counters, dispositions
    {
      && Linked() && FiltersOk() && Structure(plain.filters, wires, lists)
      && 0 <= f < |counters| && a in plain.filters[f].args && a.Tabled()
      && (forall p :: p in wires && p.0 == f ==> p.1.id != a.id)
    }

    /** Enters one argument of filter `f` into the disposition of its type, or refuses it. */
    method WireArgument(f: FilterId, a: Argument) returns (status: Status)
      requires CanWire(f, a)
      modifies this`decorationMap, this`dispositions, this`lists, this`wires, this`history, counters[f], dispositions
      ensures Linked() && Structure(plain.filters, wires, lists)
      ensures fresh(dispositions - old(dispositions))
      ensures status == Ok <==> !Clash(plain.filters, ListOf(old(lists), a.id), f, a)
      ensures status != Threw(CycleDetected)
      ensures status != Ok ==> ListOf(lists, a.id) == ListOf(old(lists), a.id)
      ensures wires == if status == Ok then old(wires) + [(f, a)] else old(wires)
      ensures status == Ok ==> history == Arrived(old(history), f, a)
    {
      hide Structure, Linked, Arrived, Clash, WithEntry;
      ghost var before, state := lists, history;
      LinkedKeys();
      var d := WiredEntry(a.id);
      ArrivedAfterEntry(state, f, a);
      ClashTest(plain.filters, ListOf(before, a.id), f, a);
      if a.isInput && |d.publishers| > 1 && !a.isMulti {
        return Threw(MultiBroadcastListener);
      }
      status := ArriveAndInsert(f, a);
    }

    /** The input counts as delivered before it is entered. */
    method ArriveAndInsert(f: FilterId, a: Argument) returns (status: Status)
      requires Linked() && FiltersOk() && Wirable(plain.filters, wires, lists, f, a)
      requires !(a.isInput && !a.isMulti && |lists[a.id].publishers| > 1)
      modifies this`lists, this`wires, this`history, counters[f], dispositions
      ensures Linked() && Structure(plain.filters, wires, lists)
      ensures status == Ok <==> !Clash(plain.filters, old(lists[a.id]), f, a)
      ensures status != Threw(CycleDetected)
      ensures status != Ok ==> lists == old(lists)
      ensures wires == if status == Ok then old(wires) + [(f, a)] else old(wires)
      ensures history == Arrived(old(history), f, a)
    {
      hide Structure, Linked, Arrived, Clash;
      LinkedKeys();
      ArriveInput(f, a);
      LinkedKeys();
      LinkedLists(a.id);
      status := InsertArgument(f, a);
    }

    /** The disposition of a type, created if there is none. */
    method WiredEntry(t: TypeId) returns (d: DecorationDisposition)
      requires Linked() && Structure(plain.filters, wires, lists)
      modifies this`decorationMap, this`dispositions, this`lists, this`history
      ensures Linked() && Structure(plain.filters, wires, lists)
      ensures t in decorationMap && d == decorationMap[t] && t in lists
      ensures d.AsLists() == lists[t] == ListOf(old(lists), t)
      ensures history == WithEntry(old(history), t) && (t in old(lists) ==> lists == old(lists))
      ensures fresh(dispositions - old(dispositions))
    {
      hide Structure;
      ghost var before := lists;
      d := Entry(t);
      if t !in before { WireEntry(plain.filters, wires, before, t); }
    }

    /** Enters an argument into an existing disposition. */
    method InsertArgument(f: FilterId, a: Argument) returns (status: Status)
      requires Linked() && FiltersOk() && Wirable(plain.filters, wires, lists, f, a)
      requires !(a.isInput && !a.isMulti && |lists[a.id].publishers| > 1)
      modifies this`lists, this`wires, decorationMap[a.id]
      ensures Linked() && Structure(plain.filters, wires, lists)
      ensures status == Ok <==> !Clash(plain.filters, old(lists[a.id]), f, a)
      ensures status != Threw(CycleDetected)
      ensures status != Ok ==> lists == old(lists)
      ensures wires == if status == Ok then old(wires) + [(f, a)] else old(wires)
    {
      hide Structure, Linked;
      if a.isRvalue {
        status := AddModifier(f, a);
      } else if a.isInput {
        AddSubscriber(f, a);
        status := Ok;
      } else if a.isOutput {
        status := AddPublisher(f, a);
      } else {
        AddUnwired(f, a);
        status := Ok;
      }
    }

    // -------------------------------------------------------------- cycles

    /** The subscribers of the output types of a filter, each once. */
    method NextCounters(f: FilterId) returns (next: seq<FilterId>)
      requires Linked() && Structure(plain.filters, wires, lists) && 0 <= f < |counters|
      ensures forall m :: m in next <==> m in WiredGraph(plain.filters, wires)[f]
    {
      hide Structure, Fed;
      var args := counters[f].filter.args;
      next := [];
      FedNone(wires);
      var i := 0;
      while i < |args|
        invariant 0 <= i <= |args|
        invariant forall m :: m in next <==> m in Fed(wires, args[..i])
      {
        FedNext(plain.filters, wires, lists, args[..i], args[i]);
        assert args[..i + 1] == args[..i] + [args[i]];
        if args[i].isOutput && args[i].id in decorationMap {
          next := InsertCounters(next, decorationMap[args[i].id].subscribers);
        }
        i := i + 1;
      }
      assert args[..i] == args;
    }

    static method InsertCounters(next: seq<FilterId>, subs: seq<Subscriber>) returns (r: seq<FilterId>)
      ensures forall m :: m in r <==> m in next || m in SubscriberSet(subs)
    {
      r := next;
      var i := 0;
      while i < |subs|
        invariant 0 <= i <= |subs|
        invariant forall m :: m in r <==> m in next || exists j :: 0 <= j < i && subs[j].counter == m
      {
        if subs[i].counter !in r {
          r := r + [subs[i].counter];
        }
        i := i + 1;
      }
      forall m ensures m in SubscriberSet(subs) <==> exists j :: 0 <= j < |subs| && subs[j].counter == m {
        if j :| 0 <= j < |subs| && subs[j].counter == m {
          assert subs[j] in subs;
        }
      }
    }

    /** Depth-first search from `f`. Throws exactly when a cycle is reachable from it. `temp` holds
        the filters on the way to `f`, `perm` those already searched. */
    method DetectCycle(f: FilterId, temp: set<FilterId>, perm: set<FilterId>)
      returns (threw: bool, perm': set<FilterId>)
      requires Linked() && Structure(plain.filters, wires, lists) && 0 <= f < |counters|
      requires SearchInv(WiredGraph(plain.filters, wires), temp, perm)
      requires forall t :: t in temp ==> Leads(WiredGraph(plain.filters, wires), t, f)
      ensures threw <==> CycleReachable(WiredGraph(plain.filters, wires), f)
      ensures perm <= perm'
      ensures !threw ==>
          SearchInv(WiredGraph(plain.filters, wires), temp, perm') && Left(WiredGraph(plain.filters, wires), perm', f)
      decreases WiredGraph(plain.filters, wires).Keys - temp
    {
      hide Structure, Fed, CycleReachable, Leads, SearchInv, WiresInRange;
      ghost var g := WiredGraph(plain.filters, wires);
      perm' := perm;
      if f in temp {
        LeadsToItself(g, f);
        return true, perm';
      }
      if f in perm {
        LeftHasNoCycle(g, temp, perm, f);
        return false, perm';
      }
      var next := NextCounters(f);
      NoSuccessors(g, f, next);
      if next == [] {
        LeafHasNoCycle(g, f);
        return false, perm';
      }
      EnterNode(g, temp, perm, f);
      WiredGraphClosed(plain.filters, wires, lists);
      var i := 0;
      while i < |next|
        invariant 0 <= i <= |next| && perm <= perm'
        invariant SearchInv(g, temp + {f}, perm')
        invariant forall j :: 0 <= j < i ==> Left(g, perm', next[j])
      {
        var m := next[i];
        assert m in next;
        LeadsThrough(g, temp, f, m);
        ghost var before := perm';
        assert g.Keys - (temp + {f}) < g.Keys - temp;
        threw, perm' := DetectCycle(m, temp + {f}, perm');
        if threw {
          CycleThroughSuccessor(g, f, m);
          return;
        }
        forall j | 0 <= j < i ensures Left(g, perm', next[j]) { LeftGrows(g, before, perm', next[j]); }
        i := i + 1;
      }
      FinishNode(g, temp + {f}, perm', f);
      assert temp + {f} - {f} == temp;
      perm' := perm' + {f};
      return false, perm';
    }

    // -------------------------------------------------------------- adding a filter

    /** Appends the counter of a filter, with none of its arguments entered. */
    method NewCounter(filter: Filter)
      requires Linked() && FiltersOk() && Structure(plain.filters, wires, lists) && DistinctTypes(filter.args)
      modifies this`counters, this`plain, this`net, this`history
      ensures Linked() && FiltersOk() && Structure(plain.filters, wires, lists)
      ensures |counters| == |old(counters)| + 1 && counters[..|old(counters)|] == old(counters)
      ensures fresh(counters[|old(counters)|])
      ensures plain == old(plain).(filters := old(plain.filters) + [filter])
      ensures history == WithCounter(old(history), filter)
    {
      hide Structure, DispositionsHold, RequiredCount;
      StructureGrows(plain.filters, filter, wires, lists);
      var c := new SatCounter(filter);
      counters := counters + [c];
      plain := plain.(filters := plain.filters + [filter]);
      net := Effective(plain, given);
      history := WithCounter(history, filter);
    }

    /** The first `i` arguments of the last filter have been entered. */
    ghost predicate Wired(f: FilterId, i: nat, filters: seq<Filter>, wires0: Wires, state: State)
      reads this
    {
      && f == |filters| && f < |plain.filters| && f < |state.remaining| && WiresInRange(filters, wires0)
      && i <= |plain.filters[f].args| && (forall a :: a in plain.filters[f].args ==> a.Tabled())
      && wires == wires0 + ArgumentWires(f, plain.filters[f].args[..i])
      && history == ArrivedAll(state, f, plain.filters[f].args[..i])
    }

    /** Enters the next argument of the last filter, unless it is refused. */
    method WireNext(f: FilterId, i: nat, ghost filters: seq<Filter>, ghost wires0: Wires, ghost state: State)
      returns (status: Status)
      requires Linked() && FiltersOk() && Structure(plain.filters, wires, lists) && 0 <= f < |counters|
      requires Wired(f, i, filters, wires0, state) && i < |plain.filters[f].args|
      modifies this`decorationMap, this`dispositions, this`lists, this`wires, this`history, counters[f], dispositions
      ensures Linked() && Structure(plain.filters, wires, lists) && fresh(dispositions - old(dispositions))
      ensures status == Ok ==> Wired(f, i + 1, filters, wires0, state)
      ensures status != Ok ==> Refused(plain.filters, wires0, wires, lists, f)
      ensures status != Threw(CycleDetected)
    {
      hide Structure, WiresInRange, Arrived, ArrivedAll, Clash, Linked, ArgumentWires, Refused, ListOf;
      LinkedFilter(f);
      ghost var args := plain.filters[f].args;
      ArgumentNotWired(filters, wires0, f, args, i);
      ArgumentWiresNext(f, args, i);
      ArrivedAllNext(state, f, args, i);
      status := WireArgument(f, counters[f].filter.args[i]);
      if status != Ok {
        RefusedHere(plain.filters, wires0, wires, lists, f, i);
      }
    }

    /** Enters the arguments of the last filter, up to the first that is refused. */
    method WireArguments(f: FilterId, ghost filters: seq<Filter>) returns (status: Status)
      requires Linked() && FiltersOk() && Structure(plain.filters, wires, lists)
      requires f == |filters| && |counters| == f + 1 && WiresInRange(filters, wires)
      requires forall a :: a in plain.filters[f].args ==> a.Tabled()
      modifies this`decorationMap, this`dispositions, this`lists, this`wires, this`history, counters[f], dispositions
      ensures Linked() && Structure(plain.filters, wires, lists)
      ensures fresh(dispositions - old(dispositions))
      ensures status == Ok ==> wires == old(wires) + ArgumentWires(f, plain.filters[f].args)
      ensures status == Ok ==> history == ArrivedAll(old(history), f, plain.filters[f].args)
      ensures status != Ok ==> Refused(plain.filters, old(wires), wires, lists, f)
      ensures status != Threw(CycleDetected)
    {
      hide Structure, WiresInRange, ArrivedAll, Linked, ArgumentWires, Refused;
      ghost var wires0, state := wires, history;
      LinkedKeys();
      LinkedFilter(f);
      ArgumentWiresNone(f);
      ArrivedNone(state, f);
      ghost var args := plain.filters[f].args;
      assert args[..0] == [];
      var i := 0;
      while i < |counters[f].filter.args|
        invariant 0 <= i <= |args| && Linked() && Structure(plain.filters, wires, lists)
        invariant Wired(f, i, filters, wires0, state) && fresh(dispositions - old(dispositions))
      {
        status := WireNext(f, i, filters, wires0, state);
        if status != Ok {
          return;
        }
        i := i + 1;
      }
      assert args[..i] == args;
      return Ok;
    }

    /** Creates the counter of a filter and enters its arguments. On an exception the arguments
        before the refused one stay entered, and the dispositions stay in order. */
    method AddSatCounter(filter: Filter) returns (status: Status)
      requires Linked() && FiltersOk() && Structure(plain.filters, wires, lists)
      requires DistinctTypes(filter.args) && forall a :: a in filter.args ==> a.Tabled()
      modifies this`counters, this`plain, this`net, this`decorationMap, this`dispositions
      modifies this`lists, this`wires, this`history, dispositions
      ensures Linked() && FiltersOk() && Structure(plain.filters, wires, lists)
      ensures |counters| == |old(counters)| + 1 && counters[..|old(counters)|] == old(counters)
      ensures fresh(counters[|old(counters)|])
      ensures plain == old(plain).(filters := old(plain.filters) + [filter])
      ensures fresh(dispositions - old(dispositions))
      ensures status == Threw(CycleDetected) ==> CycleReachable(WiredGraph(plain.filters, wires), |old(counters)|)
      ensures status == Threw(CycleDetected) ==> wires == old(wires) + ArgumentWires(|old(counters)|, filter.args)
      ensures status != Ok && status != Threw(CycleDetected) ==>
          Refused(plain.filters, old(wires), wires, lists, |old(counters)|)
      ensures status == Ok ==> !CycleReachable(WiredGraph(plain.filters, wires), |old(counters)|)
      ensures status == Ok ==> wires == old(wires) + ArgumentWires(|old(counters)|, filter.args)
      ensures status == Ok && old(Acyclic(WiredGraph(plain.filters, wires))) ==>
          Acyclic(WiredGraph(plain.filters, wires))
      ensures status == Ok ==> history == ArrivedAll(WithCounter(old(history), filter), |old(counters)|, filter.args)
    {
      hide Structure, Fed, CycleReachable, WiresInRange, SearchInv, ArrivedAll, Acyclic, WiredGraph, Refused;
      hide Linked, ArgumentWires, WithCounter;
      ghost var filters, wires0 := plain.filters, wires;
      LinkedKeys();
      StructureRange(filters, wires, lists);
      var f := |counters|;
      NewCounter(filter);
      status := WireArguments(f, filters);
      if status == Ok {
        SearchStart(WiredGraph(plain.filters, wires));
        var threw, perm := DetectCycle(f, {}, {});
        if threw {
          return Threw(CycleDetected);
        }
        GraphGrows(filters, filter, wires0, ArgumentWires(f, filter.args));
        if Acyclic(WiredGraph(filters, wires0)) {
          AddNodeKeepsAcyclic(WiredGraph(filters, wires0), WiredGraph(plain.filters, wires), f);
        }
      }
    }

    /** A packet without filters. */
    ghost predicate Blank()
      reads this, counters, dispositions
    {
      && Linked() && counters == [] && plain.filters == [] && wires == [] && lists == map[] && history == EMPTY_STATE
      && given == map[] && handed == {} && pending == map[]
    }

    /** Adds the filters in turn, and collects those that need no input. */
    method AddFilters(filters: seq<Filter>) returns (status: Status, callCounters: seq<FilterId>)
      requires Blank() && PlainFilters(filters)
      modifies this`counters, this`plain, this`net, this`decorationMap, this`dispositions
      modifies this`lists, this`wires, this`history, dispositions
      ensures Linked() && fresh(dispositions - old(dispositions))
      ensures forall j :: 0 <= j < |counters| ==> fresh(counters[j])
      ensures status == Ok <==>
                WellFormed(Network(filters, body)) && Acyclic(WiredGraph(filters, FilterWires(filters, |filters|)))
      ensures status == Ok ==>
          plain == net == Network(filters, body) && FullyWired(net, lists) && Pristine(filters, history)
      ensures given == map[] && handed == {} && pending == map[] && Structure(plain.filters, wires, lists)
      ensures status == Ok ==>
                && Distinct(callCounters) && Ascending(callCounters)
                && forall f :: f in callCounters <==> 0 <= f < |filters| && history.remaining[f] == 0
    {
      hide Structure, WellFormed, Acyclic, FilterWires, ArgumentWires, Pristine, ArrivedAll, WiredGraph, Refused;
      hide PlainFilters, PlainFilter, RequiredCount, Linked;
      ghost var whole := Network(filters, body);
      callCounters := [];
      BlankFacts(filters, wires, lists, history);
      LinkedKeys();
      var i := 0;
      while i < |filters|
        invariant 0 <= i <= |filters| && |counters| == i
        invariant Linked() && FiltersOk() && Structure(plain.filters, wires, lists)
        invariant fresh(dispositions - old(dispositions))
        invariant plain == Network(filters[..i], body) && wires == FilterWires(filters, i)
        invariant forall j :: 0 <= j < |counters| ==> fresh(counters[j])
        invariant Pristine(filters[..i], history) && Acyclic(WiredGraph(filters[..i], FilterWires(filters, i)))
        invariant Distinct(callCounters) && Ascending(callCounters)
        invariant forall f :: f in callCounters <==> 0 <= f < i && RequiredCount(filters[f].args) == 0
      {
        PlainFilterFacts(filters, i);
        PristineNext(filters[..i], history, filters[i]);
        assert filters[..i + 1] == filters[..i] + [filters[i]];
        OneMoreFilter(filters, i);
        status := AddSatCounter(filters[i]);
        if status == Threw(CycleDetected) {
          CycleStays(filters, i);
          AcyclicHere(WiredGraph(filters, FilterWires(filters, |filters|)), i, filters);
          return;
        }
        if status != Ok {
          RefusedMeansIllFormed(whole, wires, lists, i);
          return;
        }
        CountersPristine(filters[..i + 1], history);
        LinkedFilter(i);
        AscendingNext(callCounters, i);
        if counters[i].remaining == 0 {
          callCounters := callCounters + [i];
        }
        i := i + 1;
      }
      assert filters[..i] == filters;
      StructureIsFull(plain, lists);
      NothingGiven(plain);
      LinkedKeys();
      CountersPristine(filters, history);
      return Ok, callCounters;
    }

    /** Sets the packet up with a list of filters and calls those that need no input. The packet
        accepts exactly the well formed networks without cycles, in whatever order they are listed. */
    method Initialize(filters: seq<Filter>) returns (status: Status)
      requires Blank() && PlainFilters(filters)
      modifies this`counters, this`plain, this`net, this`decorationMap, this`dispositions
      modifies this`lists, this`wires, this`history, dispositions
      ensures status == Ok <==>
                WellFormed(Network(filters, body)) && Acyclic(WiredGraph(filters, FilterWires(filters, |filters|)))
      ensures fresh(dispositions - old(dispositions)) && forall j :: 0 <= j < |counters| ==> fresh(counters[j])
      ensures status == Ok ==> AtRest() && plain == net == Network(filters, body)
      ensures given == map[] && handed == {} && pending == map[] && Structure(plain.filters, wires, lists)
      ensures status == Ok ==> history.roots == map[] && IsOutcome(net, map[], history) && CalledByFlags()
      ensures status == Ok ==> StartersInTurn(filters, history.calls)
    {
      hide WellFormed, Acyclic, FilterWires, Pristine, WiredGraph, PlainFilters, Inv, FullyWired, Starting, IsOutcome;
      hide Structure, Quiescent, Linked, Effective, CalledByFlags, StartersInTurn, CalledThrough, Ascending;
      var callCounters;
      status, callCounters := AddFilters(filters);
      if status == Ok {
        LinkedKeys();
        PristineStarts(net, history, callCounters);
        StartingFacts(net, history, callCounters);
        ghost var s := history;
        RunStarters(callCounters);
        StartersCalled(filters, s, callCounters, history.calls);
        QuiescentIsOutcome(net, history);
        RestByTheFlags();
      }
    }

    /** Calls the filters that need no input. */
    method RunStarters(callCounters: seq<FilterId>)
      requires Running() && Starting(net, history, callCounters) && given == map[] && handed == {}
      modifies this`history, counters, dispositions
      ensures AtRest() && history.roots == old(history.roots)
      ensures CalledThrough(history.calls, callCounters, |callCounters|)
    {
      hide Running, Queued, Owes, Untold, Starting, Quiescent, OpenTypes, CalledThrough;
      assert callCounters[0..] == callCounters;
      NoneCalled(history.calls, callCounters);
      var i := 0;
      while i < |callCounters|
        invariant 0 <= i <= |callCounters|
        invariant Running() && Starting(net, history, callCounters[i..]) && history.roots == old(history.roots)
        invariant CalledThrough(history.calls, callCounters, i)
      {
        StartingFirst(net, history, callCounters[i..]);
        ghost var s := history;
        assert callCounters[i..][0] == callCounters[i];
        CallFilter(callCounters[i]);
        StarterCalled(net, s, history, callCounters, i);
        StartingCall(net, s, history, callCounters[i..]);
        assert callCounters[i..][1..] == callCounters[i + 1..];
        i := i + 1;
      }
      assert callCounters[i..] == [];
      StartingFacts(net, history, callCounters[i..]);
      StartingDone(net, history);
    }

    // -------------------------------------------------------------- broadcasts on any packet

    /** Whatever additions were refused, every disposition is one that occurs in a run of events. */
    lemma CellHere(t: TypeId)
      requires Linked() && Structure(plain.filters, wires, lists) && t in decorationMap
      ensures CellOk(Cell(history.slots[t], lists[t]))
      ensures var d := decorationMap[t];
              !SubscriberThrows(d.AsSlot(), d.subscribers) && !ModifierThrows(d.AsSlot(), d.modifiers)
    {
      hide Effective, CountersHold, WiredPublishers, SubscribersOk, ModifiersOk, Holds;
      LinkedLists(t);
      HoldsFacts(decorationMap[t], history.slots[t], lists[t], Lookup(pending, t));
      assert ListOk(plain.filters, wires, lists, t);
      HoldsBroadcast(decorationMap[t], history.slots[t], lists[t], Lookup(pending, t));
      CellNeverThrows(Cell(history.slots[t], lists[t]));
    }

    /** Tells a filter that a type with one decoration is complete, or that one without any is, if the filter can do
        without. */
    method NotifyOne(f: FilterId, t: TypeId, callQueue: seq<FilterId>) returns (callQueue': seq<FilterId>)
      requires Linked() && 0 <= f < |counters| && f !in handed
      modifies this`history, counters
      ensures Linked() && history.slots == old(history.slots) && history.calls == old(history.calls)
      ensures callQueue' == if old(history.remaining[f]) == 1 then callQueue + [f] else callQueue
      ensures var n := old(history.remaining[f]);
              history.remaining == old(history.remaining)[f := if n == 0 then 0 else n - 1]
    {
      hide DispositionsHold, Effective;
      callQueue' := callQueue;
      var satisfied := Decrement(f, t);
      if satisfied {
        callQueue' := callQueue' + [f];
      }
    }

    /** The modifiers of a completed type are told first. One that takes a shared pointer is called even without a
        decoration. */
    method NotifyModifiers(t: TypeId)
      returns (status: Status, callQueue: seq<FilterId>, unsat: seq<(FilterId, TypeId)>)
      requires Linked() && FiltersOk() && Structure(plain.filters, wires, lists) && t in decorationMap
      modifies this`history, counters
      ensures Linked() && history.slots == old(history.slots) && history.calls == old(history.calls)
      ensures status == Ok
      ensures Notified(plain.filters, Listeners(lists[t]), |lists[t].modifiers|, |decorationMap[t].decorations|,
                old(history.remaining), history.remaining, callQueue, unsat)
    {
      hide Linked, Structure, Effective, FiltersOk, Notified, Told, Satisfies, Fails, HasOutput;
      LinkedKeys();
      LinkedLists(t);
      CellHere(t);
      var mods, n := decorationMap[t].modifiers, |decorationMap[t].decorations|;
      ghost var before, ls := history.remaining, Listeners(lists[t]);
      DifferentListeners(t);
      NotifiedNone(plain.filters, ls, n, before);
      status, callQueue, unsat := Ok, [], [];
      if mods != [] && n > 1 {
        status := Threw(SingleInputInBroadcast);
      }
      var i := 0;
      while i < |mods| && status == Ok
        invariant 0 <= i <= |mods| && Linked() && status == Ok
        invariant history.slots == old(history.slots) && history.calls == old(history.calls)
        invariant Notified(plain.filters, ls, i, n, before, history.remaining, callQueue, unsat)
      {
        ModifierRange(plain.filters, wires, lists, t, i);
        LinkedKeys();
        ghost var mid, queue, outputs := history.remaining, callQueue, unsat;
        if mods[i].isShared || n <= 1 {
          callQueue, unsat := NotifyModifier(mods[i], t, n, callQueue, unsat);
          NotifiedNext(
            plain.filters, ls, i, n, before, mid, queue, outputs, history.remaining, callQueue, unsat);
        } else {
          status := Threw(SingleInputInBroadcast);
        }
        i := i + 1;
      }
    }

    /** Tells one modifier of a type with at most one decoration. */
    method NotifyModifier(m: Modifier, t: TypeId, n: nat, callQueue: seq<FilterId>, unsat: seq<(FilterId, TypeId)>)
      returns (callQueue': seq<FilterId>, unsat': seq<(FilterId, TypeId)>)
      requires Linked() && FiltersOk() && 0 <= m.counter < |counters| && (n <= 1 || m.isShared)
      modifies this`history, counters
      ensures Linked() && history.slots == old(history.slots) && history.calls == old(history.calls)
      ensures 0 <= m.counter < |old(history.remaining)|
      ensures var r := old(history.remaining[m.counter]);
              && history.remaining == old(history.remaining)[m.counter := Told(r, n, !m.isShared)]
              && callQueue' == (if Satisfies(r, n, !m.isShared) then callQueue + [m.counter] else callQueue)
              && forall p :: p in unsat' <==>
                   || p in unsat
                   || (p.0 == m.counter && Fails(r, n, !m.isShared) && HasOutput(plain.filters, p.0, p.1))
    {
      hide Linked;
      LinkedKeys();
      callQueue', unsat' := callQueue, unsat;
      if m.isShared || n == 1 {
        callQueue' := NotifyOne(m.counter, t, callQueue');
      } else {
        var outputs := MarkOutputsUnsat(m.counter);
        unsat' := unsat' + outputs;
      }
    }

    /** Tells one subscriber of a type with `n` decorations. */
    method NotifySubscriber(sub: Subscriber, t: TypeId, n: nat, callQueue: seq<FilterId>,
        unsat: seq<(FilterId, TypeId)>)
      returns (callQueue': seq<FilterId>, unsat': seq<(FilterId, TypeId)>)
      requires Linked() && FiltersOk() && 0 <= sub.counter < |counters|
      modifies this`history, counters
      ensures Linked() && history.slots == old(history.slots) && history.calls == old(history.calls)
      ensures 0 <= sub.counter < |old(history.remaining)|
      ensures var r := old(history.remaining[sub.counter]);
              && history.remaining == old(history.remaining)[sub.counter := Told(r, n, sub.kind == Normal)]
              && callQueue' == (if Satisfies(r, n, sub.kind == Normal) then callQueue + [sub.counter] else callQueue)
              && forall p :: p in unsat' <==>
                   || p in unsat
                   || (p.0 == sub.counter && Fails(r, n, sub.kind == Normal) && HasOutput(plain.filters, p.0, p.1))
    {
      hide Linked;
      LinkedKeys();
      callQueue', unsat' := callQueue, unsat;
      if n == 0 && sub.kind == Normal {
        var outputs := MarkOutputsUnsat(sub.counter);
        unsat' := unsat' + outputs;
      } else {
        callQueue' := NotifyOne(sub.counter, t, callQueue');
      }
    }

    /** Tells the modifiers and subscribers of a completed type, on a packet that need not have been initialized
        and may have refused additions. The exceptions for several decorations are never thrown. */
    method Notify(t: TypeId)
      returns (status: Status, callQueue: seq<FilterId>, unsat: seq<(FilterId, TypeId)>)
      requires Linked() && FiltersOk() && Structure(plain.filters, wires, lists) && t in decorationMap
      modifies this`history, counters
      ensures Linked() && history.slots == old(history.slots) && history.calls == old(history.calls)
      ensures status == Ok
      ensures t in lists && ToldAll(plain.filters, lists[t], |decorationMap[t].decorations|,
                old(history.remaining), history.remaining, callQueue, unsat)
    {
      hide Linked, Structure, Effective, FiltersOk, Notified, Told, Satisfies, Fails, HasOutput, ToldAll;
      LinkedKeys();
      LinkedLists(t);
      CellHere(t);
      var subs, n := decorationMap[t].subscribers, |decorationMap[t].decorations|;
      ghost var before, ls, m := history.remaining, Listeners(lists[t]), |lists[t].modifiers|;
      DifferentListeners(t);
      status, callQueue, unsat := NotifyModifiers(t);
      var i := 0;
      while i < |subs| && status == Ok
        invariant 0 <= i <= |subs| && Linked() && status == Ok
        invariant history.slots == old(history.slots) && history.calls == old(history.calls)
        invariant Notified(plain.filters, ls, m + i, n, before, history.remaining, callQueue, unsat)
      {
        SubscriberHere(t, i);
        LinkedKeys();
        if n > 1 && subs[i].kind != Multi {
          status := Threw(SingleInputInBroadcast);
        } else {
          ghost var mid, queue, outputs := history.remaining, callQueue, unsat;
          callQueue, unsat := NotifySubscriber(subs[i], t, n, callQueue, unsat);
          NotifiedNext(
            plain.filters, ls, m + i, n, before, mid, queue, outputs, history.remaining, callQueue, unsat);
        }
        i := i + 1;
      }
      NotifiedAll(plain.filters, lists[t], n, before, history.remaining, callQueue, unsat);
    }

    lemma DifferentListeners(t: TypeId)
      requires Linked() && FiltersOk() && Structure(plain.filters, wires, lists) && t in decorationMap
      ensures t in lists && DistinctCounters(Listeners(lists[t]))
    {
      hide Linked, Structure, Effective, DistinctCounters, Listeners;
      LinkedLists(t);
      ListenersDiffer(plain.filters, wires, lists, t);
    }

    lemma SubscriberHere(t: TypeId, i: nat)
      requires Linked() && FiltersOk() && Structure(plain.filters, wires, lists)
      requires t in decorationMap && i < |decorationMap[t].subscribers|
      ensures 0 <= decorationMap[t].subscribers[i].counter < |counters|
      ensures decorationMap[t].subscribers[i] in decorationMap[t].subscribers
    {
      hide Linked, Structure, Effective;
      LinkedKeys();
      LinkedLists(t);
      SubscriberArgument(plain.filters, wires, lists, t, i);
    }

    /** Attaches a pointer to a type that may have publishers, and tells those who listen once the last of them has
        run. Nothing is called yet. */
    method DecorateNoPriors(t: TypeId, ptr: Emission)
      returns (status: Status, callQueue: seq<FilterId>, unsat: seq<(FilterId, TypeId)>)
      requires Linked() && FiltersOk() && Structure(plain.filters, wires, lists)
      modifies this`decorationMap, this`dispositions, this`lists, this`history, counters, dispositions
      ensures Linked() && Structure(plain.filters, wires, lists) && fresh(dispositions - old(dispositions))
      ensures status == (if old(Completed(history.slots, t)) then
                           Threw(if old(At(history.slots, t).decorations) == []
                                 then MarkedUnsatisfiable else AlreadySatisfied)
                         else Ok)
      ensures At(history.slots, t) == old(if Completed(history.slots, t) then At(history.slots, t)
                                          else Advance(At(history.slots, t), ptr, |ListOf(lists, t).publishers|))
      ensures forall u :: u != t ==> At(history.slots, u) == old(At(history.slots, u))
      ensures t in lists && t in decorationMap
      ensures if status == Ok && Completed(history.slots, t) then
                ToldAll(plain.filters, lists[t], |decorationMap[t].decorations|, old(history.remaining),
                  history.remaining, callQueue, unsat)
              else history.remaining == old(history.remaining) && callQueue == [] && unsat == []
    {
      hide Linked, Structure, Effective, Advance, ToldAll;
      var d := WiredEntry(t);
      LinkedLists(t);
      HoldsFacts(d, history.slots[t], lists[t], Lookup(pending, t));
      callQueue, unsat := [], [];
      if d.phase == Complete {
        return Threw(if d.decorations == [] then MarkedUnsatisfiable else AlreadySatisfied), callQueue, unsat;
      }
      var completed := AttachAny(t, ptr);
      if completed {
        status, callQueue, unsat := Notify(t);
      } else {
        status := Ok;
      }
    }

    method AttachAny(t: TypeId, ptr: Emission) returns (completed: bool)
      requires Linked() && t in decorationMap && pending == map[] && !Completed(history.slots, t)
      modifies this`history, decorationMap[t]
      ensures Linked()
      ensures history == old(history).(
                slots := old(history.slots)[t := Advance(old(history.slots[t]), ptr, |lists[t].publishers|)])
      ensures completed <==> Completed(history.slots, t)
    {
      hide Advance, Effective, BroadcastOk, CountersHold;
      assert Holds(decorationMap[t], history.slots[t], lists[t], Lookup(pending, t));
      AdvanceKeeps(history.slots[t], ptr, |lists[t].publishers|);
      completed := decorationMap[t].Attach(ptr);
      history := history.(slots := history.slots[t := decorationMap[t].AsSlot()]);
    }

    /** Marks any type, published or decided before or not, and tells those who listen. */
    method MarkAny(t: TypeId)
      returns (status: Status, callQueue: seq<FilterId>, unsat: seq<(FilterId, TypeId)>)
      requires Linked() && FiltersOk() && Structure(plain.filters, wires, lists)
      modifies this`decorationMap, this`dispositions, this`lists, this`history, this`pending, counters, dispositions
      ensures Linked() && Structure(plain.filters, wires, lists) && fresh(dispositions - old(dispositions))
      ensures status == Ok && Completed(history.slots, t) && At(history.slots, t).decorations == []
      ensures forall u :: u != t ==> At(history.slots, u) == old(At(history.slots, u))
      ensures t in old(lists) ==> lists == old(lists)
      ensures t in lists &&
              ToldAll(plain.filters, lists[t], 0, old(history.remaining), history.remaining, callQueue, unsat)
    {
      hide Linked, Structure, Effective, ToldAll;
      var d := WiredEntry(t);
      LinkedKeys();
      LinkedLists(t);
      ClearEntry(t);
      LinkedLists(t);
      HoldsFacts(d, history.slots[t], lists[t], Lookup(pending, t));
      status, callQueue, unsat := Notify(t);
    }

    // -------------------------------------------------------------- whole runs

    /** Takes decisions about types that no filter publishes, in the order given. */
    method Decide(decisions: seq<Decision>)
      requires AtRest() && OnRoots(plain, history.roots, decisions)
      requires forall i :: 0 <= i < |decisions| ==> decisions[i].t !in pending
      modifies this`decorationMap, this`dispositions, this`lists, this`history, this`pending, counters, dispositions
      ensures AtRest() && history.roots == Decided(old(history.roots), decisions)
      ensures IsOutcome(net, history.roots, history) && CalledByFlags()
      ensures old(history.calls) <= history.calls && fresh(dispositions - old(dispositions))
    {
      hide AtRest, IsOutcome, Publishers, CalledByFlags;
      RestIsOutcome();
      ghost var roots := history.roots;
      var i := 0;
      while i < |decisions|
        invariant 0 <= i <= |decisions|
        invariant AtRest() && fresh(dispositions - old(dispositions)) && old(history.calls) <= history.calls
        invariant history.roots == Decided(roots, decisions[..i]) && IsOutcome(net, history.roots, history)
        invariant forall t :: t in pending ==> t in old(pending)
      {
        DecidedNext(roots, decisions, i);
        var d := decisions[i];
        if d.ptr.Some? {
          var status := Decorate(d.t, d.ptr.value);
        } else {
          MarkUnsatisfiable(d.t);
        }
        i := i + 1;
      }
      assert decisions[..i] == decisions;
      RestByTheFlags();
    }

    /** The counters and dispositions of a packet at rest count what they stand for: the counter of a filter that
        was neither given up nor handed an immediate is the number of its inputs that are not complete. */
    lemma CountsAtRest(f: FilterId, t: TypeId)
      requires AtRest()
      ensures 0 <= f < |counters| && f !in history.doomed && f !in given ==>
        counters[f].remaining == OpenInputs(counters[f].filter.args, history.slots)
      ensures f in given ==> 0 <= f < |counters| && counters[f].remaining == 0
      ensures t in decorationMap && decorationMap[t].publishers != [] ==>
        && decorationMap[t].producersRun ==
             ConcludedPublishers(net, history.calls, history.doomed, decorationMap[t].publishers, t)
        && (decorationMap[t].phase == Complete <==>
              forall g :: Produces(net, g, t) ==> HasConcluded(net, history.calls, history.doomed, g, t))
    {
      hide Inv, WellFormed, Quiescent, OpenInputs, ConcludedPublishers, Produces, HasConcluded, SubscribersMatch;
      hide Effective, Publishers, GivenFits, Consumes, Missing;
      RunningFacts();
      if 0 <= f < |counters| && f !in history.doomed && f !in given {
        NoneWithout(plain.filters[f].args);
        CountersAtRest(net, history, f);
      }
      if f in given { GivenWaitsForNothing(plain, given, handed, history, f); }
      if t in decorationMap && Publishers(net, t) != [] {
        LinkedLists(t);
        HoldsFacts(decorationMap[t], history.slots[t], lists[t], Lookup(pending, t));
        ProducersAtRest(net, history, t);
      }
    }
  }

  /** A whole run: filters are added to a new packet, and decisions are taken in turn. */
  method Run(body: Body, filters: seq<Filter>, decisions: seq<Decision>) returns (status: Status, packet: AutoPacket)
    requires PlainFilters(filters) && OnRoots(Network(filters, body), map[], decisions)
    ensures status == Ok <==>
              WellFormed(Network(filters, body)) && Acyclic(WiredGraph(filters, FilterWires(filters, |filters|)))
    ensures status == Ok ==> packet.AtRest() && packet.history.roots == Decided(map[], decisions)
    ensures status == Ok ==> IsOutcome(Network(filters, body), Decided(map[], decisions), packet.history)
    ensures status == Ok ==> packet.plain == Network(filters, body) && packet.CalledByFlags()
  {
    hide WellFormed, Acyclic, FilterWires, WiredGraph, PlainFilters, IsOutcome, OnRoots, Decided, AutoPacket.AtRest;
    packet := new AutoPacket(body);
    status := packet.Initialize(filters);
    if status == Ok {
      packet.Decide(decisions);
    }
  }

  /** Decisions on distinct types lead to the same calls, completed types and decorations in whatever order they
      are taken. */
  method TwoOrders(body: Body, filters: seq<Filter>, a: seq<Decision>, b: seq<Decision>)
    returns (status: Status, packet: AutoPacket, other: AutoPacket)
    requires PlainFilters(filters) && DistinctDecisions(map[], a) && DistinctDecisions(map[], b)
    requires (forall d :: d in a <==> d in b) && forall d :: d in a ==> Publishers(Network(filters, body), d.t) == []
    ensures status == Ok <==>
              WellFormed(Network(filters, body)) && Acyclic(WiredGraph(filters, FilterWires(filters, |filters|)))
    ensures status == Ok ==> Agree(packet.history, other.history)
  {
    hide WellFormed, Acyclic, FilterWires, WiredGraph, PlainFilters, IsOutcome, OnRoots, Decided, Publishers, Agree;
    hide DistinctDecisions, AutoPacket.AtRest;
    DistinctOnRoots(Network(filters, body), map[], a);
    DistinctOnRoots(Network(filters, body), map[], b);
    OrderOfDecisions(map[], a, b);
    status, packet := Run(body, filters, a);
    status, other := Run(body, filters, b);
    if status == Ok {
      OutcomesAgree(Network(filters, body), Decided(map[], a), packet.history, other.history);
    }
  }
}
