/** Telling the subscribers of a completed type, one by one: what the partial result satisfies. */
module PacketPropagation {
  import opened Prelude
  import opened FilterNetwork
  import opened PacketState
  import opened PacketSteps

  /** The filters in `told` know that `t` is complete. `queue` holds exactly the filters this has
      newly satisfied, `unsat` exactly the outputs newly owed by filters this has doomed. */
  ghost predicate Telling(
    net: Network, start: State, s: State, t: TypeId,
    told: set<FilterId>, queue: seq<FilterId>, unsat: seq<(FilterId, TypeId)>)
  {
    && Inv(net, s) && Extends(start, s)
    && s.slots == start.slots && s.roots == start.roots && s.calls == start.calls
    && Distinct(queue) && Distinct(unsat)
    && (forall f :: f in queue ==> !Queued(net, start, f))
    && (forall f :: Queued(net, s, f) <==> Queued(net, start, f) || f in queue)
    && (forall p :: p in unsat ==> !Owes(net, start, p.0, p.1) && p.0 in s.doomed)
    && (forall f, u :: Owes(net, s, f, u) <==> Owes(net, start, f, u) || (f, u) in unsat)
    && (forall f, u :: Untold(net, s, f, u) <==>
          Untold(net, start, f, u) && f !in s.doomed && !(u == t && f in told))
  }

  lemma TellingStart(net: Network, s: State, t: TypeId)
    requires Inv(net, s)
    ensures Telling(net, s, s, t, {}, [], [])
  {
    hide Inv;
  }

  lemma TellingUntold(
    net: Network, start: State, s: State, t: TypeId,
    told: set<FilterId>, queue: seq<FilterId>, unsat: seq<(FilterId, TypeId)>, f: FilterId)
    requires Telling(net, start, s, t, told, queue, unsat)
    requires Consumes(net, f, t) && Completed(start.slots, t) && (f, t) !in start.delivered
    requires f !in told && f !in s.doomed
    ensures Untold(net, s, f, t)
  {
    hide Inv;
    assert Untold(net, start, f, t);
  }

  /** A doomed subscriber is passed over. */
  lemma TellSkip(
    net: Network, start: State, s: State, t: TypeId,
    told: set<FilterId>, queue: seq<FilterId>, unsat: seq<(FilterId, TypeId)>, f: FilterId)
    requires Telling(net, start, s, t, told, queue, unsat) && f in s.doomed
    ensures Telling(net, start, s, t, told + {f}, queue, unsat)
  {
    hide Inv, Queued, Owes, Untold;
  }

  lemma TellDeliver(
    net: Network, start: State, s: State, t: TypeId,
    told: set<FilterId>, queue: seq<FilterId>, unsat: seq<(FilterId, TypeId)>, f: FilterId)
    requires WellFormed(net) && Telling(net, start, s, t, told, queue, unsat)
    requires Untold(net, s, f, t) && (Needs(net, f, t) ==> At(s.slots, t).decorations != [])
    ensures 0 <= f < |s.remaining| && s.remaining[f] > 0
    ensures var queue' := if s.remaining[f] == 1 then queue + [f] else queue;
            Telling(net, start, Deliver(s, f, t), t, told + {f}, queue', unsat)
  {
    hide Inv, Queued, Owes, Needs, Consumes, WellFormed, Extends;
    DeliverStep(net, s, f, t);
    ExtendsTransitive(start, s, Deliver(s, f, t));
    assert !Queued(net, s, f);
  }

  lemma TellDoom(
    net: Network, start: State, s: State, t: TypeId,
    told: set<FilterId>, queue: seq<FilterId>, unsat: seq<(FilterId, TypeId)>, f: FilterId,
      outs: seq<(FilterId, TypeId)>)
    requires WellFormed(net) && Telling(net, start, s, t, told, queue, unsat)
    requires Untold(net, s, f, t) && Needs(net, f, t) && At(s.slots, t).decorations == []
    requires Distinct(outs) && forall p :: p in outs <==> p.0 == f && Produces(net, f, p.1)
    ensures 0 <= f < |s.remaining| && s.remaining[f] > 0
    ensures Telling(net, start, Doom(s, f), t, told + {f}, queue, unsat + outs)
  {
    hide Inv, Queued, Needs, Consumes, WellFormed, Produces, Extends, Owes, Untold;
    DoomStep(net, s, f, t);
    ExtendsTransitive(start, s, Doom(s, f));
    assert forall p :: p in unsat + outs <==> p in unsat || p in outs;
    forall p | p in outs ensures !Owes(net, start, p.0, p.1) && p !in unsat {
      WaitingOwesNothing(net, s, f, t, p.1);
      assert Owes(net, s, p.0, p.1) <==> Owes(net, start, p.0, p.1) || (p.0, p.1) in unsat;
    }
    DistinctConcat(unsat, outs);
    forall g, u ensures Owes(net, Doom(s, f), g, u) <==> Owes(net, start, g, u) || (g, u) in unsat + outs {
      assert (g, u) in outs <==> g == f && Produces(net, f, u);
    }
  }

  /** A filter that still waits for an input has nothing to account for. */
  lemma WaitingOwesNothing(net: Network, s: State, f: FilterId, t: TypeId, u: TypeId)
    requires Inv(net, s) && Untold(net, s, f, t)
    ensures !Owes(net, s, f, u)
  {}

  /** What an update still has to do: call the filters in `queue`, then account for `unsat`. */
  ghost predicate Pending(
    net: Network, start: State, s: State, t: TypeId, queue: seq<FilterId>, unsat: seq<(FilterId, TypeId)>)
  {
    && Later(net, start, s)
    && Distinct(queue) && Distinct(unsat)
    && (forall f :: f in queue ==> !Queued(net, start, f))
    && (forall f :: Queued(net, s, f) <==> Queued(net, start, f) || f in queue)
    && (forall p :: p in unsat ==> !Owes(net, start, p.0, p.1) && p.0 in s.doomed)
    && (forall f, u :: Owes(net, s, f, u) <==> Owes(net, start, f, u) || (f, u) in unsat)
    && (forall f, u :: Untold(net, s, f, u) <==> Untold(net, start, f, u) && f !in s.doomed && u != t)
  }

  lemma PendingStart(
    net: Network, start: State, s: State, t: TypeId,
    told: set<FilterId>, queue: seq<FilterId>, unsat: seq<(FilterId, TypeId)>)
    requires Telling(net, start, s, t, told, queue, unsat)
    requires forall f :: Consumes(net, f, t) ==> f in told
    ensures Pending(net, start, s, t, queue, unsat)
  {
    hide Inv, Queued, Owes, Extends;
  }

  lemma DistinctTail<T(!new)>(s: seq<T>)
    requires Distinct(s) && s != []
    ensures Distinct(s[1..]) && s[0] !in s[1..]
    ensures forall x :: x in s <==> x == s[0] || x in s[1..]
  {}

  lemma PendingFirst(
    net: Network, start: State, s: State, t: TypeId, queue: seq<FilterId>, unsat: seq<(FilterId, TypeId)>)
    requires Pending(net, start, s, t, queue, unsat)
    ensures Later(net, start, s)
    ensures queue != [] ==> Queued(net, s, queue[0])
    ensures unsat != [] ==> Owes(net, s, unsat[0].0, unsat[0].1) && unsat[0].0 in s.doomed
  {
    hide Later, Queued, Owes, Untold;
    if unsat != [] {
      assert unsat[0] in unsat;
      assert Owes(net, s, unsat[0].0, unsat[0].1);
    }
  }

  lemma PendingCall(
    net: Network, start: State, s: State, s': State, t: TypeId, queue: seq<FilterId>, unsat: seq<(FilterId, TypeId)>)
    requires Pending(net, start, s, t, queue, unsat) && queue != [] && CalledOne(net, s, s', queue[0])
    ensures Pending(net, start, s', t, queue[1..], unsat)
  {
    hide Inv, Queued, Owes, Untold;
    LaterTransitive(net, start, s, s');
    DistinctTail(queue);
  }

  lemma PendingOutput(
    net: Network, start: State, s: State, s': State, t: TypeId, unsat: seq<(FilterId, TypeId)>)
    requires Pending(net, start, s, t, [], unsat) && unsat != []
    requires ConcludedOne(net, s, s', unsat[0].0, unsat[0].1)
    ensures Pending(net, start, s', t, [], unsat[1..])
  {
    hide Inv, Queued, Owes, Untold;
    LaterTransitive(net, start, s, s');
    DistinctTail(unsat);
    forall f, u ensures Owes(net, s', f, u) <==> Owes(net, start, f, u) || (f, u) in unsat[1..] {
      assert (f, u) in unsat <==> (f, u) == unsat[0] || (f, u) in unsat[1..];
      assert !Owes(net, start, unsat[0].0, unsat[0].1);
    }
  }

  lemma PendingDone(net: Network, start: State, s: State, t: TypeId)
    requires Pending(net, start, s, t, [], [])
    ensures Updated(net, start, s, t)
  {
    hide Later, Queued, Owes, Untold;
  }

  /** What a call still has to do: commit the outputs of `f` of the types in `left`. */
  ghost predicate Committing(net: Network, start: State, s: State, f: FilterId, left: set<TypeId>) {
    && Later(net, start, s)
    && f in s.calls
    && (forall g :: Queued(net, s, g) <==> Queued(net, start, g) && g != f)
    && (forall u :: u in left ==> !Owes(net, start, f, u))
    && (forall g, u :: Owes(net, s, g, u) <==> Owes(net, start, g, u) || (g == f && u in left))
    && (forall g, u :: Untold(net, s, g, u) <==> Untold(net, start, g, u) && g !in s.doomed)
  }

  ghost function OutputTypes(net: Network, f: FilterId): set<TypeId> {
    if !(0 <= f < |net.filters|) then {} else
    set a | a in net.filters[f].args && Commits(net, f, a.id) :: a.id
  }

  lemma CommittingStart(net: Network, s: State, f: FilterId)
    requires WellFormed(net) && Inv(net, s) && Queued(net, s, f)
    ensures Committing(net, s, Call(s, f), f, OutputTypes(net, f))
  {
    hide Inv, Extends, Consumes, Queued;
    CallStep(net, s, f);
    assert f in Call(s, f).calls;
    QueuedIsNotCalled(net, s, f);
    forall u ensures u in OutputTypes(net, f) <==> Commits(net, f, u) {
      if Commits(net, f, u) {
        var a := ArgumentFor(net.filters[f].args, u).value;
        assert a in net.filters[f].args && a.id == u;
      }
    }
  }

  lemma QueuedIsNotCalled(net: Network, s: State, f: FilterId)
    requires Inv(net, s) && Queued(net, s, f)
    ensures 0 <= f < |net.filters| && f !in s.calls && f !in s.doomed && AllDelivered(net, s.delivered, f)
  {}

  lemma CommittingOutput(net: Network, start: State, s: State, s': State, f: FilterId, left: set<TypeId>, t: TypeId)
    requires Committing(net, start, s, f, left) && t in left && ConcludedOne(net, s, s', f, t)
    ensures Committing(net, start, s', f, left - {t})
  {
    hide Inv, Queued, Owes, Untold;
    LaterTransitive(net, start, s, s');
    assert f in s'.calls;
  }

  lemma CommittingDone(net: Network, start: State, s: State, f: FilterId)
    requires Committing(net, start, s, f, {})
    ensures CalledOne(net, start, s, f)
  {
    hide Later, Queued, Owes, Untold;
  }

  /** Committing or giving up an output, and then updating if that completed its type. */
  lemma ConcludedByUpdate(net: Network, s: State, m: State, s': State, f: FilterId, t: TypeId)
    requires Inv(net, s) && Owes(net, s, f, t) && t in s.slots
    requires m == Conclude(net, s, f, t, DueEmission(net, s, f, t))
    requires if Completed(m.slots, t) then Updated(net, m, s', t) else s' == m
    ensures ConcludedOne(net, s, s', f, t)
  {
    hide Inv, Queued, Owes, Extends, DueEmission;
    ConcludeStep(net, s, f, t);
    assert Later(net, s, m);
    if Completed(m.slots, t) {
      LaterTransitive(net, s, m, s');
      assert s.doomed <= m.doomed;
      DoomedGrows(net, m, s');
      forall g, u ensures Untold(net, s', g, u) <==> Untold(net, s, g, u) && g !in s'.doomed {
        assert Untold(net, s', g, u) <==> Untold(net, m, g, u) && u != t && g !in s'.doomed;
      }
    } else {
      forall g, u ensures Untold(net, s', g, u) <==> Untold(net, s, g, u) && g !in s'.doomed {
        assert s'.doomed == s.doomed;
      }
    }
  }

  lemma DoomedGrows(net: Network, s: State, s': State)
    requires Later(net, s, s')
    ensures s.doomed <= s'.doomed
  {}

  /** A called filter still sees what it saw when it was called. */
  lemma ViewStable(net: Network, s: State, s': State, f: FilterId)
    requires Inv(net, s) && AllDelivered(net, s.delivered, f) && Extends(s, s')
    ensures ViewNow(net, s'.slots, f) == ViewNow(net, s.slots, f)
  {
    hide TypeAt, SoundOk, SlotsOk, EmittedOk, DoomedOk, CallsOk, CountersOk;
  }

  lemma ConcludedView(net: Network, s: State, s': State, f: FilterId, t: TypeId)
    requires Inv(net, s) && f in s.calls && ConcludedOne(net, s, s', f, t)
    ensures ViewNow(net, s'.slots, f) == ViewNow(net, s.slots, f)
  {
    hide ViewNow, SoundOk, SlotsOk, EmittedOk, DoomedOk, CountersOk;
    ViewStable(net, s, s', f);
  }

  lemma QueuedInRange(net: Network, s: State, f: FilterId)
    requires Queued(net, s, f)
    ensures 0 <= f < |net.filters|
  {}

  lemma OutputsProduced(net: Network, f: FilterId, u: TypeId)
    requires WellFormed(net) && 0 <= f < |net.filters|
    ensures (exists a :: a in net.filters[f].args && a.isOutput && a.id == u) <==> Produces(net, f, u)
  {
    var args := net.filters[f].args;
    if a :| a in args && a.isOutput && a.id == u {
      var i :| 0 <= i < |args| && args[i] == a;
      ArgumentForFinds(args, i);
    }
  }

  lemma {:induction false} EmittedSize(pubs: seq<FilterId>, t: TypeId, emitted: Emissions)
    requires forall p :: p in emitted ==> |emitted[p]| <= 1
    ensures |Emitted(pubs, t, emitted)| <= Concluded(pubs, t, emitted)
  {
    if pubs != [] { EmittedSize(pubs[1..], t, emitted); }
  }

  /** Several decorations come from several publishers. */
  lemma ManyDecorations(net: Network, s: State, t: TypeId)
    requires Inv(net, s) && |At(s.slots, t).decorations| > 1
    ensures |Publishers(net, t)| > 1
  {
    hide TypeAt, Produces, ViewNow, Commits;
    assert SlotOk(net, s.slots, s.roots, s.emitted, t);
    forall p | p in s.emitted ensures |s.emitted[p]| <= 1 {
      assert EmissionOk(net, s.slots, s.calls, s.doomed, p.0, p.1, s.emitted[(p.0, p.1)]);
    }
    EmittedSize(Publishers(net, t), t, s.emitted);
    ConcludedBound(Publishers(net, t), t, s.emitted);
    assert |Values(s.slots, t)| == |At(s.slots, t).decorations|;
  }

  lemma TellingFacts(
    net: Network, start: State, s: State, t: TypeId,
    told: set<FilterId>, queue: seq<FilterId>, unsat: seq<(FilterId, TypeId)>)
    requires Telling(net, start, s, t, told, queue, unsat)
    ensures Inv(net, s) && s.slots == start.slots && Extends(start, s)
    ensures |s.remaining| == |net.filters|
    ensures forall f :: f in s.doomed && 0 <= f < |net.filters| ==> s.remaining[f] == 0
  {}

  lemma UntoldWaits(net: Network, s: State, f: FilterId, t: TypeId)
    requires WellFormed(net) && Inv(net, s) && Untold(net, s, f, t)
    ensures 0 <= f < |s.remaining| && s.remaining[f] > 0
  {
    CounterZero(net, s.remaining, s.doomed, s.delivered, f);
  }

  /** All that a packet still has to do is to call the filters in the queue. */
  ghost predicate Starting(net: Network, s: State, queue: seq<FilterId>) {
    && Inv(net, s)
    && Distinct(queue)
    && (forall f :: Queued(net, s, f) <==> f in queue)
    && (forall f, u :: !Owes(net, s, f, u))
    && (forall f, u :: !Untold(net, s, f, u))
  }

  lemma StartingFirst(net: Network, s: State, queue: seq<FilterId>)
    requires Starting(net, s, queue) && queue != []
    ensures Queued(net, s, queue[0])
  {
    hide Inv, Queued, Owes, Untold;
    var f := queue[0];
    assert f in queue;
  }

  lemma StartingCall(net: Network, s: State, s': State, queue: seq<FilterId>)
    requires Starting(net, s, queue) && queue != [] && CalledOne(net, s, s', queue[0])
    ensures Starting(net, s', queue[1..]) && s'.roots == s.roots && s.calls <= s'.calls && Extends(s, s')
  {
    hide Inv, Queued, Owes, Untold;
    DistinctTail(queue);
    forall f ensures Queued(net, s', f) <==> f in queue[1..] {
      assert f in queue <==> f == queue[0] || f in queue[1..];
    }
  }

  lemma StartingDone(net: Network, s: State)
    requires Starting(net, s, [])
    ensures Quiescent(net, s)
  {
    hide Inv, Queued, Owes, Untold;
  }

  /** A filter that was in the queue and is no more has been called. */
  lemma StartingCalled(net: Network, s: State, s': State, f: FilterId)
    requires Inv(net, s) && Queued(net, s, f) && CalledOne(net, s, s', f)
    ensures f in s'.calls && f !in s.calls
  {
    hide SlotsOk, SoundOk, CountersOk, EmittedOk;
    assert AllDelivered(net, s'.delivered, f);
    assert f in s'.doomed ==> Starved(net, s'.slots, f);
    assert !Queued(net, s', f);
  }

  lemma StartingDistinct(net: Network, s: State, queue: seq<FilterId>)
    requires Starting(net, s, queue)
    ensures Distinct(queue)
  {}

  lemma RestingFacts(net: Network, s: State)
    requires Quiescent(net, s)
    ensures forall f :: !Queued(net, s, f)
    ensures forall f, t :: !Owes(net, s, f, t) && !Untold(net, s, f, t)
  {}
}
