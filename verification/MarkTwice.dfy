/** Why a type may be marked unsatisfiable only once: the second mark takes away its decorations and tells the
    subscribers again, and those that still wait for something else count it as one more input delivered. */
module MarkTwice {
  import opened Prelude
  import opened FilterNetwork
  import opened PacketState
  import opened PacketSteps
  import opened PacketOutcome
  import opened PacketSetup
  import opened Wiring
  import opened Notification

  // ---------------------------------------------------------------- a second mark of a complete type

  /** The filter was told that `t` is complete, does not need a value of it, and waits for something else. */
  ghost predicate StillWaits(net: Network, s: State, f: FilterId, t: TypeId) {
    Consumes(net, f, t) && !Needs(net, f, t) && f !in s.doomed && 0 <= f < |s.remaining| && s.remaining[f] > 0
  }

  /** What a second mark of `t` leaves, before anything is called: no decorations, and every subscriber told again. */
  ghost predicate Remarked(net: Network, s: State, t: TypeId, s': State) {
    && |s'.remaining| == |s.remaining| == |net.filters|
    && (forall f :: 0 <= f < |s.remaining| ==>
          s'.remaining[f] == if Consumes(net, f, t) then Told(s.remaining[f], 0, Needs(net, f, t)) else s.remaining[f])
    && (forall f :: f in s'.doomed <==>
          f in s.doomed || (0 <= f < |s.remaining| && s.remaining[f] > 0 && Needs(net, f, t)))
    && s'.slots == s.slots[t := Slot(At(s.slots, t).producersRun, [], Complete)]
    && s'.roots == s.roots && s'.calls == s.calls && s'.delivered == s.delivered && s'.emitted == s.emitted
    && s'.clock == s.clock
  }

  /** Telling the subscribers of the network is what does this to the counters. */
  lemma NotifiedIsRemarked(net: Network, s: State, t: TypeId, l: Lists, after: seq<nat>, queue: seq<FilterId>,
      unsat: seq<(FilterId, TypeId)>)
    requires SubscribersMatch(net, t, l.subscribers) && l.modifiers == [] && |s.remaining| == |net.filters|
    requires ToldAll(net.filters, l, 0, s.remaining, after, queue, unsat)
    ensures Remarked(net, s, t, s.(
              remaining := after,
              doomed := s.doomed + (set f | 0 <= f < |s.remaining| && s.remaining[f] > 0 && Needs(net, f, t)),
              slots := s.slots[t := Slot(At(s.slots, t).producersRun, [], Complete)]))
    ensures forall p :: p in unsat <==>
      HasOutput(net.filters, p.0, p.1) && 0 <= p.0 < |s.remaining| && s.remaining[p.0] > 0 && Needs(net, p.0, t)
  {
    hide ArgumentFor, SharedInput, HasOutput, QueueOf, Listeners;
    forall f
      ensures Consumes(net, f, t) <==> Subscribes(l, f)
      ensures Needs(net, f, t) <==> exists x :: x in l.subscribers && x.counter == f && x.kind == Normal
      ensures Consumes(net, f, t) ==> exists x :: x in l.subscribers && x.counter == f && x.kind == KindOf(net, f, t)
    {
      SubscriberOf(net, t, l.subscribers, f);
    }
  }

  lemma SubscriberOf(net: Network, t: TypeId, subs: seq<Subscriber>, f: FilterId)
    requires SubscribersMatch(net, t, subs)
    ensures Consumes(net, f, t) ==> exists x :: x in subs && x.counter == f && x.kind == KindOf(net, f, t)
    ensures forall x :: x in subs && x.counter == f ==> Consumes(net, f, t) && x.kind == KindOf(net, f, t)
  {
    hide ArgumentFor, SharedInput;
    if Consumes(net, f, t) {
      var i :| 0 <= i < |subs| && subs[i].counter == f;
      assert subs[i] in subs;
    }
  }

  /** A second mark keeps the invariant exactly if the type had no decorations and none of its Optional or Multi
      subscribers still waits; then it changes nothing. Otherwise either decorations that were handed out are
      gone, or a counter is lower than the number of inputs missing. */
  lemma SecondMark(net: Network, s: State, t: TypeId, s': State)
    requires WellFormed(net) && Inv(net, s) && Quiescent(net, s) && Completed(s.slots, t) && t in s.slots
    requires Remarked(net, s, t, s')
    ensures Inv(net, s') <==> At(s.slots, t).decorations == [] && forall f :: !StillWaits(net, s, f, t)
    ensures Inv(net, s') ==> s'.remaining == s.remaining && s'.slots == s.slots
    ensures Inv(net, s') ==> forall f :: f in s'.doomed <==> f in s.doomed
  {
    hide ArgumentFor, Missing, WellFormed, SoundOk, EmittedOk, Publishers, Concluded, Emitted;
    if Inv(net, s') {
      SecondMarkCounts(net, s, t, s');
      SecondMarkSlots(net, s, t, s');
    }
    if At(s.slots, t).decorations == [] && forall f :: !StillWaits(net, s, f, t) {
      HarmlessMark(net, s, t, s');
    }
  }

  lemma SecondMarkSlots(net: Network, s: State, t: TypeId, s': State)
    requires SlotsOk(net, s.slots, s.roots, s.emitted) && SlotsOk(net, s'.slots, s.roots, s.emitted)
    requires Completed(s.slots, t) && Remarked(net, s, t, s')
    ensures At(s.slots, t).decorations == []
  {
    hide Publishers, Concluded, Emitted;
    assert SlotOk(net, s.slots, s.roots, s.emitted, t) && SlotOk(net, s'.slots, s.roots, s.emitted, t);
    assert |Values(s.slots, t)| == |At(s.slots, t).decorations|;
  }

  /** A filter that still waits has been told of one input too many. */
  lemma SecondMarkCounts(net: Network, s: State, t: TypeId, s': State)
    requires Inv(net, s) && Remarked(net, s, t, s') && CountersOk(net, s'.remaining, s'.doomed, s.delivered)
    ensures forall f :: !StillWaits(net, s, f, t)
  {
    hide SlotsOk, DeliveredOk, CallsOk, DoomedOk, EmittedOk, SoundOk, Missing, ArgumentFor;
  }

  lemma HarmlessMark(net: Network, s: State, t: TypeId, s': State)
    requires WellFormed(net) && Inv(net, s) && Quiescent(net, s) && Completed(s.slots, t) && t in s.slots
    requires Remarked(net, s, t, s') && At(s.slots, t).decorations == [] && forall f :: !StillWaits(net, s, f, t)
    ensures Inv(net, s') && s'.remaining == s.remaining && s'.slots == s.slots
    ensures forall f :: f in s'.doomed <==> f in s.doomed
  {
    hide ArgumentFor, Missing, WellFormed, SoundOk, EmittedOk, SlotsOk, CallsOk;
    forall f | 0 <= f < |s.remaining| && Consumes(net, f, t) ensures s.remaining[f] == 0 {
      assert !Untold(net, s, f, t) && !StillWaits(net, s, f, t);
    }
    assert s'.slots[t] == s.slots[t];
    assert s'.slots == s.slots && s'.remaining == s.remaining;
    SameDoomed(net, s, s');
  }

  lemma SameDoomed(net: Network, s: State, s': State)
    requires Inv(net, s) && s' == s.(doomed := s'.doomed) && forall f :: f in s'.doomed <==> f in s.doomed
    ensures Inv(net, s')
  {
    hide SoundOk, SlotsOk, DeliveredOk, Missing, Starved;
    forall f, u | (f, u) in s.emitted
      ensures EmissionOk(net, s.slots, s.calls, s'.doomed, f, u, s.emitted[(f, u)])
    {
      assert EmissionOk(net, s.slots, s.calls, s.doomed, f, u, s.emitted[(f, u)]);
    }
  }
}
