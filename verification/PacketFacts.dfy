/** Facts about a running packet, as values, that its methods use one at a time. */
module PacketFacts {
  import opened Prelude
  import opened FilterNetwork
  import opened PacketState
  import opened PacketSteps
  import opened PacketPropagation
  import opened PacketSetup
  import opened Wiring
  import opened Immediates

  lemma SubscriberFacts(net: Network, t: TypeId, subs: seq<Subscriber>, i: nat)
    requires SubscribersMatch(net, t, subs) && i < |subs|
    ensures var f := subs[i].counter;
            && 0 <= f < |net.filters|
            && Consumes(net, f, t)
            && KindOf(net, f, t) == subs[i].kind
            && (Needs(net, f, t) <==> subs[i].kind == Normal)
            && f !in (set j | 0 <= j < i :: subs[j].counter)
  {}

  lemma MultiOnly(net: Network, f: FilterId, t: TypeId)
    requires WellFormed(net) && |Publishers(net, t)| > 1 && Consumes(net, f, t)
    ensures KindOf(net, f, t) == Multi
  {}

  /** The types that still wait for a publisher. */
  ghost function OpenTypes(net: Network, slots: Slots): set<TypeId> {
    set t | t in slots && Publishers(net, t) != [] && !Completed(slots, t)
  }

  lemma OpenTypesShrink(net: Network, slots: Slots, slots': Slots)
    requires slots.Keys == slots'.Keys
    requires forall t :: Completed(slots, t) ==> Completed(slots', t)
    ensures OpenTypes(net, slots') <= OpenTypes(net, slots)
    ensures |OpenTypes(net, slots')| <= |OpenTypes(net, slots)|
  {
    Cardinality(OpenTypes(net, slots'), OpenTypes(net, slots));
  }

  lemma Cardinality(a: set<TypeId>, b: set<TypeId>)
    requires a <= b
    ensures |a| <= |b| && (a != b ==> |a| < |b|)
  {
    assert b == a + (b - a);
  }

  lemma OpenTypesClose(net: Network, slots: Slots, slots': Slots, t: TypeId)
    requires slots.Keys == slots'.Keys && t in slots && Publishers(net, t) != []
    requires !Completed(slots, t) && Completed(slots', t)
    requires forall u :: Completed(slots, u) ==> Completed(slots', u)
    ensures |OpenTypes(net, slots')| < |OpenTypes(net, slots)|
  {
    assert t in OpenTypes(net, slots) && t !in OpenTypes(net, slots');
    Cardinality(OpenTypes(net, slots'), OpenTypes(net, slots));
  }

  lemma OpenTypesLater(net: Network, s: State, s': State)
    requires Later(net, s, s')
    ensures |OpenTypes(net, s'.slots)| <= |OpenTypes(net, s.slots)|
  {
    OpenTypesShrink(net, s.slots, s'.slots);
  }

  lemma UntoldWhileOpen(net: Network, s: State, t: TypeId)
    requires Inv(net, s) && !Completed(s.slots, t)
    ensures forall f :: (f, t) !in s.delivered
  {}

  /** The view gathered from the first arguments of a filter that was handed `handed`. */
  ghost function Extracted(slots: Slots, handed: View, args: seq<Argument>): View {
    if args == [] then map[]
    else
      var n := |args| - 1;
      var rest := Extracted(slots, handed, args[..n]);
      if args[n].Subscribes() then rest[args[n].id := Extract(slots, handed, args[n].id)] else rest
  }

  ghost function Extract(slots: Slots, handed: View, t: TypeId): multiset<Value> {
    if t in handed then handed[t] else Values(slots, t)
  }

  lemma ExtractedNone(slots: Slots, handed: View)
    ensures Extracted(slots, handed, []) == map[]
  {}

  lemma ExtractedNext(slots: Slots, handed: View, args: seq<Argument>, i: nat)
    requires i < |args|
    ensures Extracted(slots, handed, args[..i + 1]) ==
            var rest := Extracted(slots, handed, args[..i]);
            if args[i].Subscribes() then rest[args[i].id := Extract(slots, handed, args[i].id)] else rest
  {
    assert args[..i + 1][..i] == args[..i];
  }

  lemma {:induction false} ExtractedMembers(slots: Slots, handed: View, args: seq<Argument>, t: TypeId)
    ensures t in Extracted(slots, handed, args) <==> exists a :: a in args && a.Subscribes() && a.id == t
    ensures t in Extracted(slots, handed, args) ==> Extracted(slots, handed, args)[t] == Extract(slots, handed, t)
  {
    if args != [] {
      var n := |args| - 1;
      ExtractedMembers(slots, handed, args[..n], t);
      assert args == args[..n] + [args[n]];
      assert forall a :: a in args <==> a in args[..n] || a == args[n];
    }
  }

  function GivenView(given: Given, f: FilterId): View {
    if f in given then given[f] else map[]
  }

  /** Extraction gives a filter what it sees in the network where it was handed immediates. */
  lemma ExtractedAll(plain: Network, given: Given, slots: Slots, f: FilterId)
    requires WellFormed(plain) && GivenFits(plain, given) && 0 <= f < |plain.filters|
    ensures Extracted(slots, GivenView(given, f), plain.filters[f].args) ==
            Seen(given, f, ViewNow(Effective(plain, given), slots, f))
  {
    hide Extracted, WellFormed, Values, InputTypes, Effective, Consumes, Publishers;
    var view, handed := Extracted(slots, GivenView(given, f), plain.filters[f].args), GivenView(given, f);
    var net := Effective(plain, given);
    var seen := Seen(given, f, ViewNow(net, slots, f));
    forall t ensures (t in view <==> t in seen) && (t in view ==> view[t] == seen[t]) {
      ExtractedMembers(slots, handed, plain.filters[f].args, t);
      ConsumesIsListed(plain, f, t);
      EffectiveArguments(plain, given, f, t);
      assert t in InputTypes(net, f) <==> Consumes(net, f, t);
    }
  }

  lemma ConsumesIsListed(net: Network, f: FilterId, t: TypeId)
    requires WellFormed(net) && 0 <= f < |net.filters|
    ensures Consumes(net, f, t) <==> exists a :: a in net.filters[f].args && a.Subscribes() && a.id == t
  {
    hide WellFormed;
    ArgumentsOf(net, f);
  }

  lemma InputListed(net: Network, lists: ListMap, f: FilterId, a: Argument)
    requires WellFormed(net) && FullyWired(net, lists) && 0 <= f < |net.filters| && a in net.filters[f].args
    ensures a.Subscribes() ==>
      a.id in lists && Consumes(net, f, a.id) && KindOf(net, f, a.id) == a.SubscriberKind()
  {
    ArgumentsOf(net, f);
    assert a.Subscribes() ==> Consumes(net, f, a.id);
  }

  lemma NothingLeftToCommit(net: Network, f: FilterId)
    ensures LeftToCommit(net, f, []) == {}
  {}

  lemma AllLeftToCommit(plain: Network, given: Given, f: FilterId)
    requires 0 <= f < |plain.filters| && GivenFits(plain, given)
    ensures OutputTypes(Effective(plain, given), f) == LeftToCommit(plain, f, plain.filters[f].args)
  {
    hide Commits, Consumes, Publishers, Effective, GivenFits, GivenTypes;
    var net, args := Effective(plain, given), plain.filters[f].args;
    forall t ensures t in OutputTypes(net, f) <==> t in LeftToCommit(plain, f, args) {
      EffectiveCommits(plain, given, f, t);
      if t in OutputTypes(net, f) {
        var a :| a in net.filters[f].args && Commits(net, f, a.id) && a.id == t;
        var i :| 0 <= i < |args| && net.filters[f].args[i] == a;
        assert args[i] in args && args[i].id == t;
      }
      if t in LeftToCommit(plain, f, args) {
        var a :| a in args && Commits(plain, f, a.id) && a.id == t;
        var i :| 0 <= i < |args| && args[i] == a;
        assert net.filters[f].args[i] in net.filters[f].args && net.filters[f].args[i].id == t;
      }
    }
  }

  ghost function LeftToCommit(net: Network, f: FilterId, args: seq<Argument>): set<TypeId> {
    set a | a in args && Commits(net, f, a.id) :: a.id
  }

  lemma ConsumersListed(net: Network, lists: ListMap, t: TypeId)
    requires FullyWired(net, lists)
    ensures HasConsumer(net, t) <==> t in lists && lists[t].subscribers != []
  {
    hide Produces, Publishers;
    if HasConsumer(net, t) {
      var g :| 0 <= g < |net.filters| && Consumes(net, g, t);
    }
    if t in lists && lists[t].subscribers != [] {
      SubscriberFacts(net, t, lists[t].subscribers, 0);
    }
  }

  /** The test a call makes on an output argument decides whether the output is committed. */
  lemma CommitsTest(net: Network, lists: ListMap, f: FilterId, args: seq<Argument>, i: nat)
    requires WellFormed(net) && FullyWired(net, lists) && 0 <= f < |net.filters|
    requires args == net.filters[f].args && i < |args|
    ensures Commits(net, f, args[i].id) <==>
              args[i].Publishes() && (args[i].onDemand ==> args[i].id in lists && lists[args[i].id].subscribers != [])
    ensures LeftToCommit(net, f, args[i..]) - {args[i].id} == LeftToCommit(net, f, args[i + 1..])
    ensures if Commits(net, f, args[i].id) then args[i].id in LeftToCommit(net, f, args[i..])
            else LeftToCommit(net, f, args[i + 1..]) == LeftToCommit(net, f, args[i..])
  {
    hide FullyWired, HasConsumer, WellFormed, LeftToCommit;
    ArgumentsOf(net, f);
    ConsumersListed(net, lists, args[i].id);
    assert ArgumentFor(args, args[i].id) == Some(args[i]);
    CommitNext(net, f, args, i);
  }

  lemma CommitNext(net: Network, f: FilterId, args: seq<Argument>, i: nat)
    requires DistinctTypes(args) && i < |args|
    ensures LeftToCommit(net, f, args[i..]) - {args[i].id} == LeftToCommit(net, f, args[i + 1..])
    ensures if Commits(net, f, args[i].id) then args[i].id in LeftToCommit(net, f, args[i..])
            else LeftToCommit(net, f, args[i + 1..]) == LeftToCommit(net, f, args[i..])
  {
    hide Commits;
    assert args[i..] == [args[i]] + args[i + 1..];
    forall b | b in args[i + 1..] ensures b.id != args[i].id {
      var j :| 0 <= j < |args[i + 1..]| && args[i + 1..][j] == b;
      assert args[i + 1 + j] == b;
    }
  }

  lemma CommittingFacts(net: Network, start: State, s: State, f: FilterId, left: set<TypeId>)
    requires Committing(net, start, s, f, left)
    ensures Later(net, start, s) && f in s.calls && f !in s.doomed
    ensures forall u :: u in left ==> Owes(net, s, f, u)
  {}

  /** The decision a decoration amounts to. */
  function AsRoot(e: Emission): Option<Value> {
    match e case Null => None case Item(v) => Some(v)
  }

  ghost predicate SameSlots(slots: Slots, slots': Slots) {
    forall t :: At(slots', t) == At(slots, t)
  }

  lemma SameSlotsView(net: Network, slots: Slots, slots': Slots, f: FilterId)
    requires SameSlots(slots, slots')
    ensures ViewNow(net, slots', f) == ViewNow(net, slots, f)
  {
    hide InputTypes;
  }

  lemma SameSlotsInv(net: Network, s: State, slots': Slots)
    requires Inv(net, s) && SameSlots(s.slots, slots')
    ensures Inv(net, s.(slots := slots'))
  {
    hide TypeAt, Concluded, Emitted, Publishers, Produces, Consumes, Commits, Needs, ViewNow, CountersOk, CallsOk;
    assert SlotsOk(net, slots', s.roots, s.emitted) by {
      forall t ensures SlotOk(net, slots', s.roots, s.emitted, t) {
        assert SlotOk(net, s.slots, s.roots, s.emitted, t);
      }
    }
    assert EmittedOk(net, slots', s.calls, s.doomed, s.emitted) by {
      forall f, t | (f, t) in s.emitted
        ensures EmissionOk(net, slots', s.calls, s.doomed, f, t, s.emitted[(f, t)])
      {
        SameSlotsView(net, s.slots, slots', f);
        assert EmissionOk(net, s.slots, s.calls, s.doomed, f, t, s.emitted[(f, t)]);
      }
    }
    forall f | f in s.doomed ensures Starved(net, slots', f) { StarvedPersists(net, s.slots, slots', f); }
  }

  lemma SameSlotsRest(net: Network, s: State, slots': Slots)
    requires Quiescent(net, s) && SameSlots(s.slots, slots')
    ensures Quiescent(net, s.(slots := slots'))
  {
    hide Consumes, Produces, Commits, AllDelivered;
    var s' := s.(slots := slots');
    forall f, t ensures !Untold(net, s', f, t) { assert !Untold(net, s, f, t); }
    forall f, t ensures !Owes(net, s', f, t) { assert !Owes(net, s, f, t); }
    forall f ensures !Queued(net, s', f) { assert !Queued(net, s, f); }
  }

  lemma EntryKeepsWiring(net: Network, lists: ListMap, t: TypeId)
    requires FullyWired(net, lists) && t !in lists
    ensures FullyWired(net, lists[t := NO_LISTS])
  {
    hide Produces, Consumes;
    NoPublishers(net, t);
  }

  lemma NoPublishers(net: Network, t: TypeId)
    requires forall f :: !Produces(net, f, t)
    ensures Publishers(net, t) == []
  {
    hide Produces;
    if Publishers(net, t) != [] {
      PublisherProduces(net, t, 0);
    }
  }

  lemma PublisherProduces(net: Network, t: TypeId, i: nat)
    requires i < |Publishers(net, t)|
    ensures Produces(net, Publishers(net, t)[i], t)
  {
    var f := Publishers(net, t)[i];
    assert f in Publishers(net, t);
  }

  lemma RootCompletes(net: Network, s: State, t: TypeId)
    requires Inv(net, s) && Publishers(net, t) == []
    ensures Completed(s.slots, t) <==> t in s.roots
  {
    assert SlotOk(net, s.slots, s.roots, s.emitted, t);
  }

  lemma OpenRootSlot(net: Network, s: State, t: TypeId)
    requires Inv(net, s) && Publishers(net, t) == [] && !Completed(s.slots, t)
    ensures At(s.slots, t).decorations == [] && At(s.slots, t).phase == Unsatisfied
  {
    assert SlotOk(net, s.slots, s.roots, s.emitted, t);
    assert |Values(s.slots, t)| == |At(s.slots, t).decorations|;
  }

  lemma AdvanceRoot(d: Slot, ptr: Emission)
    requires d.decorations == []
    ensures Advance(d, ptr, 0) == RootSlot(d.producersRun + 1, AsRoot(ptr))
  {}

  lemma UpdatedFacts(net: Network, s: State, s': State, t: TypeId)
    requires Updated(net, s, s', t)
    ensures s'.roots == s.roots && s.calls <= s'.calls
  {}

  // ---------------------------------------------------------------- filters that were handed immediates

  /** Filters that were handed immediates wait for nothing. They have been called, or are in the call queue of a
      pulse that is under way (`handed`), with counters that are not yet zero. */
  ghost predicate GivenOk(plain: Network, given: Given, handed: set<FilterId>, s: State) {
    && GivenFits(plain, given)
    && (forall f :: f in given ==>
          0 <= f < |plain.filters| && AllDelivered(Effective(plain, given), s.delivered, f) &&
            (f in s.calls || f in handed))
    && (forall f :: f in handed ==> f in given)
  }

  lemma GivenKept(plain: Network, given: Given, handed: set<FilterId>, s: State, s': State)
    requires GivenOk(plain, given, handed, s) && Extends(s, s')
    ensures GivenOk(plain, given, handed, s')
  {
    hide GivenFits, Effective, Consumes;
  }

  lemma SameDeliveries(plain: Network, given: Given, handed: set<FilterId>, s: State, s': State)
    requires GivenOk(plain, given, handed, s) && s'.calls == s.calls && s'.delivered == s.delivered
    ensures GivenOk(plain, given, handed, s')
  {
    hide GivenFits, Effective, Consumes;
  }

  lemma GivenWaitsForNothing(plain: Network, given: Given, handed: set<FilterId>, s: State, f: FilterId)
    requires WellFormed(plain) && Inv(Effective(plain, given), s) && GivenOk(plain, given, handed, s) && f in given
    ensures 0 <= f < |s.remaining| == |plain.filters| && s.remaining[f] == 0
    ensures forall t :: Consumes(Effective(plain, given), f, t) ==> (f, t) in s.delivered
  {
    hide Effective, GivenFits, WellFormed;
    EffectiveWellFormed(plain, given);
    if f !in s.doomed {
      CounterZero(Effective(plain, given), s.remaining, s.doomed, s.delivered, f);
    }
  }

  /** A filter that an update newly satisfies was not handed anything. */
  lemma NewlySatisfied(
    plain: Network, given: Given, handed: set<FilterId>, start: State, s: State, t: TypeId,
    told: set<FilterId>, queue: seq<FilterId>, unsat: seq<(FilterId, TypeId)>, f: FilterId)
    requires GivenOk(plain, given, handed, start)
    requires Telling(Effective(plain, given), start, s, t, told, queue, unsat) && f in queue
    ensures f !in given
  {
    hide GivenFits, Effective, Inv, Owes, Untold;
    var net := Effective(plain, given);
    assert Queued(net, s, f) && !Queued(net, start, f);
  }

  /** A filter that was handed the type is passed over. */
  lemma TellPassed(
    plain: Network, given: Given, start: State, s: State, t: TypeId,
    told: set<FilterId>, queue: seq<FilterId>, unsat: seq<(FilterId, TypeId)>, f: FilterId)
    requires Telling(Effective(plain, given), start, s, t, told, queue, unsat) && t in GivenTypes(given, f)
    ensures Telling(Effective(plain, given), start, s, t, told + {f}, queue, unsat)
  {
    hide Effective, Inv, Queued, Owes, Extends;
    EffectiveArguments(plain, given, f, t);
  }

  lemma OwedIsProduced(net: Network, s: State, f: FilterId, t: TypeId)
    requires Owes(net, s, f, t)
    ensures Produces(net, f, t)
  {}

  lemma LaterExtends(net: Network, s: State, s': State)
    requires Later(net, s, s')
    ensures Extends(s, s')
  {}

  lemma GivenTypesOf(given: Given, f: FilterId, t: TypeId)
    requires t in GivenTypes(given, f)
    ensures f in given && t in given[f]
  {}

  lemma NobodyHanded(plain: Network, given: Given, handed: set<FilterId>, s: State)
    requires GivenOk(plain, given, handed, s) && forall f :: f !in handed
    ensures GivenOk(plain, given, {}, s)
  {
    hide GivenFits, Effective;
  }
}
