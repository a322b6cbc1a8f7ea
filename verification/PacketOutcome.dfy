/** What a packet that has come to rest has computed: exactly the least fixed point, whatever the
    order in which the caller decorated and marked types. */
module PacketOutcome {
  import opened Prelude
  import opened FilterNetwork
  import opened PacketState
  import opened PacketSteps

  lemma {:induction false} QuiescentType(net: Network, s: State, n: nat, t: TypeId)
    requires WellFormed(net) && Inv(net, s) && Quiescent(net, s) && TypeAt(net, s.roots, n, t).Some?
    ensures Completed(s.slots, t) && TypeAt(net, s.roots, n, t).value == Values(s.slots, t)
    decreases n, 0
  {
    hide TypeAt, Produces, Concluded, Emitted, Gathered, ContributionAt, EmittedOk, CountersOk, DoomedOk, CallsOk;
    hide SoundOk, DeliveredOk, WellFormed;
    var pubs := Publishers(net, t);
    assert SlotOk(net, s.slots, s.roots, s.emitted, t);
    if pubs == [] {
      TypeAtUnpublished(net, s.roots, n, t);
    } else {
      TypeAtStageZero(net, s.roots, t);
      TypeAtPublished(net, s.roots, n, t);
      forall f | f in pubs
        ensures (f, t) in s.emitted
      {
        QuiescentFilter(net, s, n - 1, f);
        assert !Owes(net, s, f, t);
      }
      ConcludedBound(pubs, t, s.emitted);
      CompletedAgrees(net, s, n, t);
    }
  }

  lemma CompletedAgrees(net: Network, s: State, n: nat, t: TypeId)
    requires Inv(net, s) && Completed(s.slots, t) && TypeAt(net, s.roots, n, t).Some?
    ensures TypeAt(net, s.roots, n, t).value == Values(s.slots, t)
  {
    var m := if n > s.clock then n else s.clock;
    TypeAtMonotone(net, s.roots, s.roots, n, m, t);
    TypeAtMonotone(net, s.roots, s.roots, s.clock, m, t);
  }

  lemma {:induction false} QuiescentFilter(net: Network, s: State, n: nat, f: FilterId)
    requires WellFormed(net) && Inv(net, s) && Quiescent(net, s)
    ensures ReadyAt(net, s.roots, n, f) ==> f in s.calls
    ensures DoomedAt(net, s.roots, n, f) ==> f in s.doomed
    decreases n, 1
  {
    if DoomedAt(net, s.roots, n, f) {
      var t :| Needs(net, f, t) && TypeAt(net, s.roots, n, t) == Some(multiset{});
      QuiescentType(net, s, n, t);
      assert !Untold(net, s, f, t);
      if (f, t) in s.delivered { DeliveredIsDerivable(net, s, f, t); }
    }
    if ReadyAt(net, s.roots, n, f) {
      forall t | Consumes(net, f, t)
        ensures Completed(s.slots, t) && TypeAt(net, s.roots, n, t).value == Values(s.slots, t)
      {
        QuiescentType(net, s, n, t);
      }
      if f in s.doomed {
        DoomedIsDerivable(net, s, f);
        ReadyNeverDoomed(net, s.roots, n, s.clock, f);
      }
      forall t | Consumes(net, f, t)
        ensures (f, t) in s.delivered
      {
        assert !Untold(net, s, f, t);
      }
      assert !Queued(net, s, f);
    }
  }

  lemma ReadyNeverDoomed(net: Network, roots: Roots, n: nat, m: nat, f: FilterId)
    ensures !(ReadyAt(net, roots, n, f) && DoomedAt(net, roots, m, f))
  {
    var k := if n > m then n else m;
    ReadyMonotone(net, roots, roots, n, k, f);
    ReadyMonotone(net, roots, roots, m, k, f);
    ReadyNotDoomed(net, roots, k, f);
  }

  /** A filter runs, in the sense of the least fixed point. */
  ghost predicate Runs(net: Network, roots: Roots, f: FilterId) {
    exists n: nat :: ReadyAt(net, roots, n, f)
  }

  /** A type completes with these decorations, in the sense of the least fixed point. */
  ghost predicate Completes(net: Network, roots: Roots, t: TypeId, v: multiset<Value>) {
    exists n: nat :: TypeAt(net, roots, n, t) == Some(v)
  }

  /** The outcome: no filter was called twice, the filters called are those in the least fixed point,
      and the completed types and their decorations are those of the least fixed point. */
  ghost predicate IsOutcome(net: Network, roots: Roots, s: State) {
    && Distinct(s.calls)
    && (forall f :: f in s.calls <==> Runs(net, roots, f))
    && (forall t, v :: Completed(s.slots, t) && v == Values(s.slots, t) <==> Completes(net, roots, t, v))
  }

  lemma QuiescentIsOutcome(net: Network, s: State)
    requires WellFormed(net) && Inv(net, s) && Quiescent(net, s)
    ensures IsOutcome(net, s.roots, s)
  {
    forall f ensures f in s.calls <==> Runs(net, s.roots, f) {
      if f in s.calls { CalledIsReady(net, s, f); }
      if Runs(net, s.roots, f) {
        var n: nat :| ReadyAt(net, s.roots, n, f);
        QuiescentFilter(net, s, n, f);
      }
    }
    forall t, v ensures Completed(s.slots, t) && v == Values(s.slots, t) <==> Completes(net, s.roots, t, v) {
      if Completed(s.slots, t) && v == Values(s.slots, t) {
        assert TypeAt(net, s.roots, s.clock, t) == Some(v);
      }
      if Completes(net, s.roots, t, v) {
        var n: nat :| TypeAt(net, s.roots, n, t) == Some(v);
        QuiescentType(net, s, n, t);
      }
    }
  }

  /** Two packets on the same network that have seen the same decisions, in any order, agree on
      which filters ran, which types are complete and what decorates them. */
  lemma OrderIndependence(net: Network, s: State, s': State)
    requires WellFormed(net) && s.roots == s'.roots
    requires Inv(net, s) && Quiescent(net, s) && Inv(net, s') && Quiescent(net, s')
    ensures forall f :: f in s.calls <==> f in s'.calls
    ensures multiset(s.calls) == multiset(s'.calls)
    ensures forall t :: Completed(s.slots, t) <==> Completed(s'.slots, t)
    ensures forall t :: Completed(s.slots, t) ==> Values(s.slots, t) == Values(s'.slots, t)
  {
    hide Inv;
    QuiescentIsOutcome(net, s);
    QuiescentIsOutcome(net, s');
    forall f ensures f in s.calls <==> f in s'.calls {
      assert Runs(net, s.roots, f) <==> f in s.calls;
    }
    DistinctMultisets(s.calls, s'.calls);
    forall t | Completed(s.slots, t) ensures Completed(s'.slots, t) && Values(s.slots, t) == Values(s'.slots, t) {
      assert Completes(net, s.roots, t, Values(s.slots, t));
    }
    forall t | Completed(s'.slots, t) ensures Completed(s.slots, t) {
      assert Completes(net, s.roots, t, Values(s'.slots, t));
    }
  }

  lemma DistinctMultisets(a: seq<FilterId>, b: seq<FilterId>)
    requires Distinct(a) && Distinct(b) && forall f :: f in a <==> f in b
    ensures multiset(a) == multiset(b)
  {
    forall f ensures multiset(a)[f] == multiset(b)[f] {
      DistinctOccurs(a, f);
      DistinctOccurs(b, f);
    }
  }

  lemma {:induction false} DistinctOccurs(a: seq<FilterId>, f: FilterId)
    requires Distinct(a)
    ensures multiset(a)[f] == if f in a then 1 else 0
  {
    if a != [] {
      assert a == [a[0]] + a[1..];
      DistinctOccurs(a[1..], f);
    }
  }

  // ---------------------------------------------------------------- what the counters count

  /** The number of inputs among `args` whose types are not complete. */
  function OpenInputs(args: seq<Argument>, slots: Slots): nat {
    if args == [] then 0
    else (if args[0].Subscribes() && !Completed(slots, args[0].id) then 1 else 0) + OpenInputs(args[1..], slots)
  }

  /** A publisher has committed the type or was given up. */
  predicate HasConcluded(net: Network, calls: seq<FilterId>, doomed: set<FilterId>, f: FilterId, t: TypeId) {
    f in doomed || (f in calls && Commits(net, f, t))
  }

  function ConcludedPublishers(
    net: Network, calls: seq<FilterId>, doomed: set<FilterId>, pubs: seq<FilterId>, t: TypeId): nat
  {
    if pubs == [] then 0
    else
      var first := if HasConcluded(net, calls, doomed, pubs[0], t) then 1 else 0;
      first + ConcludedPublishers(net, calls, doomed, pubs[1..], t)
  }

  lemma {:induction false} MissingIsOpen(args: seq<Argument>, f: FilterId, delivered: Pairs, slots: Slots)
    requires forall a :: a in args && a.Subscribes() ==> ((f, a.id) in delivered <==> Completed(slots, a.id))
    ensures Missing(args, f, delivered) == OpenInputs(args, slots)
  {
    if args != [] {
      assert args[0] in args;
      assert forall a :: a in args[1..] ==> a in args;
      MissingIsOpen(args[1..], f, delivered, slots);
    }
  }

  lemma {:induction false} ConcludedIsCount(
    net: Network, calls: seq<FilterId>, doomed: set<FilterId>, pubs: seq<FilterId>, t: TypeId, emitted: Emissions)
    requires forall f :: f in pubs ==> ((f, t) in emitted <==> HasConcluded(net, calls, doomed, f, t))
    ensures Concluded(pubs, t, emitted) == ConcludedPublishers(net, calls, doomed, pubs, t)
  {
    if pubs != [] {
      assert pubs[0] in pubs;
      assert forall f :: f in pubs[1..] ==> f in pubs;
      ConcludedIsCount(net, calls, doomed, pubs[1..], t, emitted);
    }
  }

  /** While no call is in progress, the counter of a live filter is the number of its inputs that are not
      complete. */
  lemma CountersAtRest(net: Network, s: State, f: FilterId)
    requires WellFormed(net) && Inv(net, s) && Quiescent(net, s) && 0 <= f < |net.filters| && f !in s.doomed
    ensures |s.remaining| == |net.filters| && s.remaining[f] == OpenInputs(net.filters[f].args, s.slots)
  {
    hide WellFormed, SlotsOk, EmittedOk, SoundOk, CallsOk, DoomedOk, Missing, OpenInputs;
    ArgumentsOf(net, f);
    var args := net.filters[f].args;
    forall a | a in args && a.Subscribes() ensures (f, a.id) in s.delivered <==> Completed(s.slots, a.id) {
      assert Consumes(net, f, a.id);
      assert !Untold(net, s, f, a.id);
    }
    MissingIsOpen(args, f, s.delivered, s.slots);
  }

  /** While no call is in progress, a published type counts each publisher that committed it or was given up,
      once, and is complete exactly when all of them have. */
  lemma ProducersAtRest(net: Network, s: State, t: TypeId)
    requires Inv(net, s) && Quiescent(net, s) && Publishers(net, t) != []
    ensures At(s.slots, t).producersRun == ConcludedPublishers(net, s.calls, s.doomed, Publishers(net, t), t)
    ensures Completed(s.slots, t) <==> forall f :: Produces(net, f, t) ==> HasConcluded(net, s.calls, s.doomed, f, t)
  {
    hide CountersOk, SoundOk, CallsOk, DoomedOk, DeliveredOk, Produces, Commits, Concluded, Emitted, ViewNow;
    var pubs := Publishers(net, t);
    assert SlotOk(net, s.slots, s.roots, s.emitted, t);
    forall f | f in pubs ensures (f, t) in s.emitted <==> HasConcluded(net, s.calls, s.doomed, f, t) {
      assert !Owes(net, s, f, t);
      if (f, t) in s.emitted {
        assert EmissionOk(net, s.slots, s.calls, s.doomed, f, t, s.emitted[(f, t)]);
      }
    }
    ConcludedIsCount(net, s.calls, s.doomed, pubs, t, s.emitted);
    ConcludedBound(pubs, t, s.emitted);
    assert forall f :: Produces(net, f, t) <==> f in pubs;
  }
}
