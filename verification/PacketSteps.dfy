/** Each step of a packet keeps the invariant, and what it does to the outstanding work. */
module PacketSteps {
  import opened Prelude
  import opened FilterNetwork
  import opened PacketState

  /** `s'` comes after `s` in the life of one packet, with no new decision by the caller. */
  ghost predicate Later(net: Network, s: State, s': State) {
    Inv(net, s') && Extends(s, s') && s'.roots == s.roots && s'.slots.Keys == s.slots.Keys
  }

  /** Everyone who could be told about `t` has been, and everything that followed from it is done.
      Work outstanding before is still outstanding, once. */
  ghost predicate Updated(net: Network, s: State, s': State, t: TypeId) {
    && Later(net, s, s')
    && (forall g :: Queued(net, s', g) <==> Queued(net, s, g))
    && (forall g, u :: Owes(net, s', g, u) <==> Owes(net, s, g, u))
    && (forall g, u :: Untold(net, s', g, u) <==> Untold(net, s, g, u) && u != t && g !in s'.doomed)
  }

  /** `f` was called and everything that followed is done; other work is untouched. */
  ghost predicate CalledOne(net: Network, s: State, s': State, f: FilterId) {
    && Later(net, s, s')
    && (forall g :: Queued(net, s', g) <==> Queued(net, s, g) && g != f)
    && (forall g, u :: Owes(net, s', g, u) <==> Owes(net, s, g, u))
    && (forall g, u :: Untold(net, s', g, u) <==> Untold(net, s, g, u) && g !in s'.doomed)
  }

  /** Output `t` of `f` was accounted for and everything that followed is done. */
  ghost predicate ConcludedOne(net: Network, s: State, s': State, f: FilterId, t: TypeId) {
    && Later(net, s, s')
    && (forall g :: Queued(net, s', g) <==> Queued(net, s, g))
    && (forall g, u :: Owes(net, s', g, u) <==> Owes(net, s, g, u) && (g, u) != (f, t))
    && (forall g, u :: Untold(net, s', g, u) <==> Untold(net, s, g, u) && g !in s'.doomed)
  }

  lemma ExtendsTransitive(a: State, b: State, c: State)
    requires Extends(a, b) && Extends(b, c)
    ensures Extends(a, c)
  {}

  lemma ExtendsItself(s: State)
    ensures Extends(s, s)
  {}

  lemma ExtendsCalls(s: State, s': State)
    requires Extends(s, s')
    ensures forall f :: f in s.calls ==> f in s'.calls
    ensures s.delivered <= s'.delivered && s.calls <= s'.calls
  {}

  lemma ExtendsRemaining(s: State, m: State, s': State)
    requires m == s.(remaining := m.remaining) && Extends(m, s')
    ensures Extends(s, s')
  {}

  lemma LaterTransitive(net: Network, a: State, b: State, c: State)
    requires Later(net, a, b) && Later(net, b, c)
    ensures Later(net, a, c)
  {
    hide Inv, Extends;
    ExtendsTransitive(a, b, c);
  }

  // ---------------------------------------------------------------- telling a filter

  lemma DeliverCounters(net: Network, s: State, f: FilterId, t: TypeId)
    requires WellFormed(net) && CountersOk(net, s.remaining, s.doomed, s.delivered)
    requires Consumes(net, f, t) && f !in s.doomed && (f, t) !in s.delivered
    ensures s.remaining[f] > 0
    ensures CountersOk(net, Deliver(s, f, t).remaining, s.doomed, Deliver(s, f, t).delivered)
  {
    MissingDeliver(net.filters[f].args, f, s.delivered, t);
    var s' := Deliver(s, f, t);
    forall g | 0 <= g < |net.filters| && g != f
      ensures Missing(net.filters[g].args, g, s'.delivered) == Missing(net.filters[g].args, g, s.delivered)
    {
      MissingCongruent(net.filters[g].args, g, s.delivered, s'.delivered);
    }
  }

  lemma DeliverStep(net: Network, s: State, f: FilterId, t: TypeId)
    requires WellFormed(net) && Inv(net, s) && Untold(net, s, f, t)
    requires Needs(net, f, t) ==> At(s.slots, t).decorations != []
    ensures 0 <= f < |s.remaining| && s.remaining[f] > 0
    ensures Inv(net, Deliver(s, f, t)) && Extends(s, Deliver(s, f, t))
    ensures Deliver(s, f, t).remaining[f] == 0 <==> Queued(net, Deliver(s, f, t), f)
    ensures forall g :: Queued(net, Deliver(s, f, t), g) && g != f ==> Queued(net, s, g)
    ensures forall g :: Queued(net, s, g) ==> g != f && Queued(net, Deliver(s, f, t), g)
    ensures forall g, u :: Owes(net, Deliver(s, f, t), g, u) <==> Owes(net, s, g, u)
    ensures forall g, u :: Untold(net, Deliver(s, f, t), g, u) <==> Untold(net, s, g, u) && (g, u) != (f, t)
  {
    hide TypeAt, ArgumentFor, Needs, Values, SlotsOk, SoundOk, Produces, Commits, Missing, EmittedOk, DoomedOk;
    hide WellFormed;
    DeliverCounters(net, s, f, t);
    var s' := Deliver(s, f, t);
    assert f !in s.calls;
    CounterZero(net, s'.remaining, s'.doomed, s'.delivered, f);
  }

  lemma DoomStep(net: Network, s: State, f: FilterId, t: TypeId)
    requires WellFormed(net) && Inv(net, s) && Untold(net, s, f, t)
    requires Needs(net, f, t) && At(s.slots, t).decorations == []
    ensures 0 <= f < |s.remaining| && s.remaining[f] > 0
    ensures Inv(net, Doom(s, f)) && Extends(s, Doom(s, f))
    ensures forall g :: Queued(net, Doom(s, f), g) <==> Queued(net, s, g)
    ensures forall g, u :: Owes(net, Doom(s, f), g, u) <==> Owes(net, s, g, u) || (g == f && Produces(net, f, u))
    ensures forall g, u :: Untold(net, Doom(s, f), g, u) <==> Untold(net, s, g, u) && g != f
  {
    hide TypeAt, ArgumentFor, Needs, Values, SlotsOk, SoundOk, Produces, Commits, Missing;
    CounterZero(net, s.remaining, s.doomed, s.delivered, f);
    assert f !in s.calls;
    assert Starved(net, s.slots, f);
    forall g, u | (g, u) in s.emitted
      ensures EmissionOk(net, s.slots, s.calls, s.doomed + {f}, g, u, s.emitted[(g, u)]) && g != f
    {
      assert EmissionOk(net, s.slots, s.calls, s.doomed, g, u, s.emitted[(g, u)]);
    }
  }

  lemma CallStep(net: Network, s: State, f: FilterId)
    requires WellFormed(net) && Inv(net, s) && Queued(net, s, f)
    ensures Inv(net, Call(s, f)) && Extends(s, Call(s, f))
    ensures forall g :: Queued(net, Call(s, f), g) <==> Queued(net, s, g) && g != f
    ensures forall g, u :: Owes(net, Call(s, f), g, u) <==> Owes(net, s, g, u) || (g == f && Commits(net, f, u))
    ensures forall g, u :: Untold(net, Call(s, f), g, u) <==> Untold(net, s, g, u)
  {
    var s' := Call(s, f);
    assert forall g :: g in s'.calls <==> g in s.calls || g == f;
    forall g, u | (g, u) in s.emitted
      ensures EmissionOk(net, s.slots, s'.calls, s.doomed, g, u, s.emitted[(g, u)]) && g != f
    {
      assert EmissionOk(net, s.slots, s.calls, s.doomed, g, u, s.emitted[(g, u)]);
    }
  }

  // ---------------------------------------------------------------- what history makes derivable

  lemma DoomedIsDerivable(net: Network, s: State, f: FilterId)
    requires Inv(net, s) && f in s.doomed
    ensures DoomedAt(net, s.roots, s.clock, f)
  {
    assert Starved(net, s.slots, f);
    var u :| Needs(net, f, u) && Completed(s.slots, u) && At(s.slots, u).decorations == [];
    assert TypeAt(net, s.roots, s.clock, u) == Some(Values(s.slots, u));
  }

  lemma DeliveredIsDerivable(net: Network, s: State, f: FilterId, t: TypeId)
    requires Inv(net, s) && (f, t) in s.delivered
    ensures TypeAt(net, s.roots, s.clock, t) == Some(Values(s.slots, t))
    ensures Needs(net, f, t) ==> Values(s.slots, t) != multiset{}
  {
    if Needs(net, f, t) {
      assert At(s.slots, t).decorations[0] in Values(s.slots, t);
    }
  }

  lemma CalledIsReady(net: Network, s: State, f: FilterId)
    requires Inv(net, s) && f in s.calls
    ensures ReadyAt(net, s.roots, s.clock, f)
    ensures ViewAt(net, s.roots, s.clock, f) == ViewNow(net, s.slots, f)
  {
    hide TypeAt, ArgumentFor, Consumes, Needs, Values, SlotsOk, EmittedOk, DoomedOk, CountersOk;
    forall t | Consumes(net, f, t)
      ensures TypeAt(net, s.roots, s.clock, t) == Some(Values(s.slots, t))
      ensures Needs(net, f, t) ==> Values(s.slots, t) != multiset{}
    {
      DeliveredIsDerivable(net, s, f, t);
    }
  }

  /** The emission the implementation has to account for when `f` concludes `t`. */
  ghost function DueEmission(net: Network, s: State, f: FilterId, t: TypeId): Emission {
    if f in s.doomed then Null else net.body(f, ViewNow(net, s.slots, f), t)
  }

  lemma OwedIsDerivable(net: Network, s: State, f: FilterId, t: TypeId)
    requires Inv(net, s) && (Owes(net, s, f, t) || (f, t) in s.emitted)
    ensures ConcludesAt(net, s.roots, s.clock, f, t)
    ensures ContributionAt(net, s.roots, s.clock, f, t) == DueEmission(net, s, f, t).Values()
    ensures (f, t) in s.emitted ==> s.emitted[(f, t)] == DueEmission(net, s, f, t).Values()
  {
    if (f, t) in s.emitted {
      assert EmissionOk(net, s.slots, s.calls, s.doomed, f, t, s.emitted[(f, t)]);
    }
    if f in s.doomed {
      DoomedIsDerivable(net, s, f);
      ReadyNotDoomed(net, s.roots, s.clock, f);
    } else {
      CalledIsReady(net, s, f);
    }
  }

  lemma {:induction false} EmittedGathers(
    net: Network, roots: Roots, n: nat, emitted: Emissions, pubs: seq<FilterId>, t: TypeId)
    requires forall f :: f in pubs ==> (f, t) in emitted && ContributionAt(net, roots, n, f, t) == emitted[(f, t)]
    ensures Gathered(net, roots, n, pubs, t) == Emitted(pubs, t, emitted)
  {
    if pubs != [] {
      assert pubs[0] in pubs;
      assert forall f :: f in pubs[1..] ==> f in pubs;
      EmittedGathers(net, roots, n, emitted, pubs[1..], t);
    }
  }

  // ---------------------------------------------------------------- concluding an output

  lemma OpenWhileOwed(net: Network, s: State, f: FilterId, t: TypeId)
    requires Inv(net, s) && Owes(net, s, f, t)
    ensures !Completed(s.slots, t) && f in Publishers(net, t) && t !in s.roots
    ensures At(s.slots, t).producersRun < |Publishers(net, t)|
  {
    assert SlotOk(net, s.slots, s.roots, s.emitted, t);
    ConcludedBound(Publishers(net, t), t, s.emitted);
  }

  lemma AdvanceTally(d: Slot, n: nat, run: nat, values: multiset<Value>, e: Emission)
    requires TallyOk(d, n, run, values) && run < n
    ensures TallyOk(Advance(d, e, n), n, run + 1, values + e.Values())
  {
    match e
    case Null => assert d.decorations + [] == d.decorations;
    case Item(v) =>
  }

  lemma ConcludeSlot(net: Network, s: State, f: FilterId, t: TypeId, e: Emission)
    requires SlotOk(net, s.slots, s.roots, s.emitted, t)
    requires f in Publishers(net, t) && (f, t) !in s.emitted && At(s.slots, t).producersRun < |Publishers(net, t)|
    ensures var s' := Conclude(net, s, f, t, e); SlotOk(net, s'.slots, s.roots, s'.emitted, t)
  {
    hide Publishers, Produces, TypeAt, Concluded, Emitted, PublishersBelow, Advance;
    PublishersDef(net, t);
    PublishersDistinct(net, |net.filters|, t);
    var pubs := Publishers(net, t);
    ConcludeCounts(pubs, t, s.emitted, f, e.Values());
    AdvanceTally(At(s.slots, t), |pubs|, Concluded(pubs, t, s.emitted), Emitted(pubs, t, s.emitted), e);
  }

  lemma ConcludeOtherSlot(net: Network, s: State, f: FilterId, t: TypeId, e: Emission, u: TypeId)
    requires SlotOk(net, s.slots, s.roots, s.emitted, u) && u != t
    ensures var s' := Conclude(net, s, f, t, e); SlotOk(net, s'.slots, s.roots, s'.emitted, u)
  {
    ConcludeElsewhere(Publishers(net, u), u, s.emitted, f, t, e.Values());
    assert At(s.slots[t := Advance(At(s.slots, t), e, |Publishers(net, t)|)], u) == At(s.slots, u);
  }

  lemma ConcludeSlots(net: Network, s: State, f: FilterId, t: TypeId, e: Emission)
    requires Inv(net, s) && Owes(net, s, f, t)
    ensures SlotsOk(net, Conclude(net, s, f, t, e).slots, s.roots, Conclude(net, s, f, t, e).emitted)
  {
    OpenWhileOwed(net, s, f, t);
    var s' := Conclude(net, s, f, t, e);
    forall u ensures SlotOk(net, s'.slots, s.roots, s'.emitted, u) {
      assert SlotOk(net, s.slots, s.roots, s.emitted, u);
      if u == t {
        ConcludeSlot(net, s, f, t, e);
      } else {
        ConcludeOtherSlot(net, s, f, t, e, u);
      }
    }
  }

  /** The last publisher of a type makes it derivable one stage later. */
  lemma ConcludeLast(net: Network, s: State, f: FilterId, t: TypeId)
    requires Inv(net, s) && Owes(net, s, f, t)
    requires forall g :: g in Publishers(net, t) ==> g == f || (g, t) in s.emitted
    ensures var emitted := s.emitted[(f, t) := DueEmission(net, s, f, t).Values()];
            TypeAt(net, s.roots, s.clock + 1, t) == Some(Emitted(Publishers(net, t), t, emitted))
  {
    hide Inv, Publishers, Produces, ConcludesAt, ContributionAt, Owes, TypeAt, DueEmission, Emitted, Gathered;
    var pubs := Publishers(net, t);
    var emitted := s.emitted[(f, t) := DueEmission(net, s, f, t).Values()];
    OpenWhileOwed(net, s, f, t);
    forall g | g in pubs
      ensures ConcludesAt(net, s.roots, s.clock, g, t)
      ensures ContributionAt(net, s.roots, s.clock, g, t) == emitted[(g, t)]
    {
      OwedIsDerivable(net, s, g, t);
    }
    EmittedGathers(net, s.roots, s.clock, emitted, pubs, t);
    TypeAtPublished(net, s.roots, s.clock + 1, t);
  }

  lemma ConcludeSound(net: Network, s: State, f: FilterId, t: TypeId)
    requires Inv(net, s) && Owes(net, s, f, t)
    ensures var s' := Conclude(net, s, f, t, DueEmission(net, s, f, t)); SoundOk(net, s'.slots, s.roots, s'.clock)
  {
    hide Publishers, Produces, TypeAt, Concluded, Emitted, DueEmission, EmittedOk, DoomedOk, CallsOk, CountersOk;
    var s' := Conclude(net, s, f, t, DueEmission(net, s, f, t));
    ConcludeSlots(net, s, f, t, DueEmission(net, s, f, t));
    forall u | Completed(s'.slots, u)
      ensures TypeAt(net, s.roots, s'.clock, u) == Some(Values(s'.slots, u))
    {
      if u != t {
        TypeAtMonotone(net, s.roots, s.roots, s.clock, s'.clock, u);
      } else {
        assert SlotOk(net, s'.slots, s.roots, s'.emitted, t);
        OpenWhileOwed(net, s, f, t);
        ConcludedBound(Publishers(net, t), t, s'.emitted);
        ConcludeLast(net, s, f, t);
      }
    }
  }

  lemma ConcludeEmissions(net: Network, s: State, f: FilterId, t: TypeId)
    requires Inv(net, s) && Owes(net, s, f, t)
    ensures var s' := Conclude(net, s, f, t, DueEmission(net, s, f, t));
            EmittedOk(net, s'.slots, s'.calls, s'.doomed, s'.emitted)
  {
    hide TypeAt, SoundOk, SlotsOk, Publishers, Produces, ArgumentFor, Consumes, Commits, CountersOk, DoomedOk;
    var s' := Conclude(net, s, f, t, DueEmission(net, s, f, t));
    OpenWhileOwed(net, s, f, t);
    forall g | g in s.calls
      ensures ViewNow(net, s'.slots, g) == ViewNow(net, s.slots, g)
    {
      assert AllDelivered(net, s.delivered, g);
    }
    forall g, u | (g, u) in s'.emitted
      ensures EmissionOk(net, s'.slots, s'.calls, s'.doomed, g, u, s'.emitted[(g, u)])
    {
      if (g, u) in s.emitted {
        assert EmissionOk(net, s.slots, s.calls, s.doomed, g, u, s.emitted[(g, u)]);
      }
    }
  }

  /** Accounting for an output of a called or doomed filter: the disposition gains the filter's
      emission and, once its last publisher is in, opens the type to its consumers. */
  lemma ConcludeStep(net: Network, s: State, f: FilterId, t: TypeId)
    requires Inv(net, s) && Owes(net, s, f, t)
    ensures !Completed(s.slots, t)
    ensures var s' := Conclude(net, s, f, t, DueEmission(net, s, f, t));
            && Inv(net, s') && Extends(s, s')
            && (forall g :: Queued(net, s', g) <==> Queued(net, s, g))
            && (forall g, u :: Owes(net, s', g, u) <==> Owes(net, s, g, u) && (g, u) != (f, t))
            && (forall g, u :: Untold(net, s', g, u) <==>
                  Untold(net, s, g, u) || (u == t && Completed(s'.slots, t) && Consumes(net, g, t) && g !in s.doomed))
  {
    hide TypeAt, SoundOk, SlotsOk, Publishers, Produces, ArgumentFor, Consumes, Commits, CountersOk, DueEmission;
    hide EmittedOk, Starved;
    OpenWhileOwed(net, s, f, t);
    ConcludeSlots(net, s, f, t, DueEmission(net, s, f, t));
    ConcludeSound(net, s, f, t);
    ConcludeEmissions(net, s, f, t);
    var s' := Conclude(net, s, f, t, DueEmission(net, s, f, t));
    forall g | g in s.doomed ensures Starved(net, s'.slots, g) {
      StarvedPersists(net, s.slots, s'.slots, g);
    }
  }

  // ---------------------------------------------------------------- root decisions

  function RootSlot(run: nat, v: Option<Value>): Slot {
    Slot(run, match v case None => [] case Some(x) => [x], Complete)
  }

  lemma RootSlots(net: Network, s: State, t: TypeId, v: Option<Value>, run: nat)
    requires SlotsOk(net, s.slots, s.roots, s.emitted) && Publishers(net, t) == []
    ensures SlotsOk(net, s.slots[t := RootSlot(run, v)], s.roots[t := v], s.emitted)
  {
    hide Publishers, Produces, Concluded, Emitted;
    var slots, roots := s.slots[t := RootSlot(run, v)], s.roots[t := v];
    forall u ensures SlotOk(net, slots, roots, s.emitted, u) {
      assert SlotOk(net, s.slots, s.roots, s.emitted, u);
      if u != t { assert At(slots, u) == At(s.slots, u); }
    }
  }

  lemma RootSound(net: Network, s: State, t: TypeId, v: Option<Value>, run: nat)
    requires SoundOk(net, s.slots, s.roots, s.clock) && Publishers(net, t) == [] && t !in s.roots
    ensures SoundOk(net, s.slots[t := RootSlot(run, v)], s.roots[t := v], s.clock)
  {
    var slots := s.slots[t := RootSlot(run, v)];
    forall u | Completed(slots, u)
      ensures TypeAt(net, s.roots[t := v], s.clock, u) == Some(Values(slots, u))
    {
      if u != t {
        assert At(slots, u) == At(s.slots, u);
        TypeAtMonotone(net, s.roots, s.roots[t := v], s.clock, s.clock, u);
      }
    }
  }

  lemma StarvedPersists(net: Network, slots: Slots, slots': Slots, f: FilterId)
    requires forall t :: Completed(slots, t) ==> At(slots', t) == At(slots, t)
    ensures Starved(net, slots, f) ==> Starved(net, slots', f)
  {
    if Starved(net, slots, f) {
      var u :| Needs(net, f, u) && Completed(slots, u) && At(slots, u).decorations == [];
      assert Needs(net, f, u) && Completed(slots', u) && At(slots', u).decorations == [];
    }
  }

  /** A caller decorates or marks a type that nobody publishes and that is not yet complete. */
  lemma RootStep(net: Network, s: State, t: TypeId, v: Option<Value>, run: nat)
    requires Inv(net, s) && Publishers(net, t) == [] && !Completed(s.slots, t)
    ensures var s' := SetRoot(s, t, v, RootSlot(run, v));
            && Inv(net, s') && RootsExtend(s.roots, s'.roots)
            && (forall g :: Queued(net, s', g) <==> Queued(net, s, g))
            && (forall g, u :: Owes(net, s', g, u) <==> Owes(net, s, g, u))
            && (forall g, u :: Untold(net, s', g, u) <==>
                  Untold(net, s, g, u) || (u == t && Consumes(net, g, t) && g !in s.doomed))
  {
    hide TypeAt, SoundOk, Produces, ArgumentFor, Consumes, Commits, CountersOk, EmittedOk, Starved;
    assert SlotOk(net, s.slots, s.roots, s.emitted, t);
    RootSlots(net, s, t, v, run);
    RootSound(net, s, t, v, run);
    RootEmissions(net, s, t, RootSlot(run, v));
    forall g | g in s.doomed ensures Starved(net, s.slots[t := RootSlot(run, v)], g) {
      StarvedPersists(net, s.slots, s.slots[t := RootSlot(run, v)], g);
    }
  }

  lemma RootEmissions(net: Network, s: State, t: TypeId, d: Slot)
    requires Inv(net, s) && !Completed(s.slots, t)
    ensures EmittedOk(net, s.slots[t := d], s.calls, s.doomed, s.emitted)
  {
    hide TypeAt, SoundOk, SlotsOk, Produces, ArgumentFor, Consumes, Commits, CountersOk, DoomedOk;
    forall g | g in s.calls
      ensures ViewNow(net, s.slots[t := d], g) == ViewNow(net, s.slots, g)
    {
      assert AllDelivered(net, s.delivered, g);
    }
    forall g, u | (g, u) in s.emitted
      ensures EmissionOk(net, s.slots[t := d], s.calls, s.doomed, g, u, s.emitted[(g, u)])
    {
      assert EmissionOk(net, s.slots, s.calls, s.doomed, g, u, s.emitted[(g, u)]);
    }
  }

  /** At rest, deciding a root and updating it brings the packet to rest again. */
  lemma RestAfterRoot(net: Network, s: State, m: State, s': State, t: TypeId)
    requires Quiescent(net, s)
    requires forall g :: Queued(net, m, g) <==> Queued(net, s, g)
    requires forall g, u :: Owes(net, m, g, u) <==> Owes(net, s, g, u)
    requires forall g, u :: Untold(net, m, g, u) ==> Untold(net, s, g, u) || u == t
    requires Updated(net, m, s', t)
    ensures Quiescent(net, s')
  {
    hide Queued, Owes, Untold, Later;
  }
}
