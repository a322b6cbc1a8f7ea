/** Immediate decorations as values. A filter that is called in a pulse is handed the immediates among its inputs
    and from then on waits for its other inputs only. To the rest of the packet it is a filter without those inputs,
    so what a packet computes is still the least fixed point of a network: of the one in which every pulsed filter
    has been handed its immediates. */
module Immediates {
  import opened Prelude
  import opened FilterNetwork
  import opened PacketState
  import opened PacketSteps

  /** What was handed to each pulsed filter. */
  type Given = map<FilterId, View>

  function GivenTypes(given: Given, f: FilterId): set<TypeId> {
    if f in given then given[f].Keys else {}
  }

  /** What a filter sees: its view of the packet and what it was handed. */
  function Seen(given: Given, f: FilterId, view: View): View {
    if f in given then view + given[f] else view
  }

  /** What an input of some kind reads of an immediate: a Multi input gathers shared decorations only. */
  function HandedValues(kind: Kind, v: Value): multiset<Value> {
    if kind == Normal then multiset{v} else multiset{}
  }

  function Strip(a: Argument, types: set<TypeId>): Argument {
    if a.id in types && a.Subscribes() then a.(isInput := false) else a
  }

  /** The arguments of a filter that no longer waits for some of its inputs. */
  function Without(args: seq<Argument>, types: set<TypeId>): (r: seq<Argument>)
    ensures |r| == |args| && forall i :: 0 <= i < |args| ==> r[i] == Strip(args[i], types)
  {
    if args == [] then [] else [Strip(args[0], types)] + Without(args[1..], types)
  }

  ghost function Relieved(x: Filter, types: set<TypeId>): Filter {
    x.(args := Without(x.args, types))
  }

  ghost function SeenBody(body: Body, given: Given): Body {
    (f, view, t) => body(f, Seen(given, f, view), t)
  }

  /** The network in which filters have been handed immediates. */
  ghost function Effective(plain: Network, given: Given): (r: Network)
    ensures |r.filters| == |plain.filters|
    ensures forall f :: 0 <= f < |plain.filters| ==> r.filters[f] == Relieved(plain.filters[f], GivenTypes(given, f))
  {
    Network(
      seq(|plain.filters|, f requires 0 <= f < |plain.filters| => Relieved(plain.filters[f], GivenTypes(given, f))),
      if given == map[] then plain.body else SeenBody(plain.body, given))
  }

  lemma NothingGiven(plain: Network)
    ensures Effective(plain, map[]) == plain
  {
    var net := Effective(plain, map[]);
    forall f | 0 <= f < |plain.filters| ensures net.filters[f] == plain.filters[f] {
      assert Without(plain.filters[f].args, {}) == plain.filters[f].args;
    }
    assert net.filters == plain.filters;
  }

  lemma EffectiveBody(plain: Network, given: Given, f: FilterId, view: View, t: TypeId)
    ensures Effective(plain, given).body(f, view, t) == plain.body(f, Seen(given, f, view), t)
  {}

  lemma {:induction false} WithoutArgument(args: seq<Argument>, types: set<TypeId>, t: TypeId)
    ensures ArgumentFor(Without(args, types), t) ==
            if ArgumentFor(args, t).Some? then Some(Strip(ArgumentFor(args, t).value, types)) else None
  {
    if args != [] {
      WithoutArgument(args[1..], types, t);
      assert Without(args, types)[1..] == Without(args[1..], types);
    }
  }

  /** Only inputs that were handed out are no longer consumed; what is published stays. */
  lemma EffectiveArguments(plain: Network, given: Given, f: FilterId, t: TypeId)
    ensures Consumes(Effective(plain, given), f, t) <==> Consumes(plain, f, t) && t !in GivenTypes(given, f)
    ensures Consumes(Effective(plain, given), f, t) ==> KindOf(Effective(plain, given), f, t) == KindOf(plain, f, t)
    ensures Produces(Effective(plain, given), f, t) <==> Produces(plain, f, t)
    ensures Produces(plain, f, t) ==>
      ArgumentFor(Effective(plain, given).filters[f].args, t).value.onDemand ==
      ArgumentFor(plain.filters[f].args, t).value.onDemand
  {
    if 0 <= f < |plain.filters| {
      WithoutArgument(plain.filters[f].args, GivenTypes(given, f), t);
    }
  }

  lemma {:induction false} EffectivePublishersBelow(plain: Network, given: Given, k: nat, t: TypeId)
    requires k <= |plain.filters|
    ensures PublishersBelow(Effective(plain, given), k, t) == PublishersBelow(plain, k, t)
  {
    hide Effective, Produces, ArgumentFor, GivenTypes;
    if k > 0 {
      EffectivePublishersBelow(plain, given, k - 1, t);
      EffectiveArguments(plain, given, k - 1, t);
    }
  }

  lemma EffectivePublishers(plain: Network, given: Given, t: TypeId)
    ensures Publishers(Effective(plain, given), t) == Publishers(plain, t)
  {
    EffectivePublishersBelow(plain, given, |plain.filters|, t);
  }

  /** Only inputs of the filter, of types nobody publishes, can be handed to it. */
  ghost predicate GivenFits(plain: Network, given: Given) {
    forall f, t :: f in given && t in given[f] ==> Consumes(plain, f, t) && Publishers(plain, t) == []
  }

  lemma PublishedNotGiven(plain: Network, given: Given, f: FilterId, t: TypeId, g: FilterId)
    requires GivenFits(plain, given) && Produces(plain, f, t)
    ensures t !in GivenTypes(given, g)
  {
    assert f in Publishers(plain, t);
  }

  lemma EffectiveCommits(plain: Network, given: Given, f: FilterId, t: TypeId)
    requires GivenFits(plain, given)
    ensures Commits(Effective(plain, given), f, t) <==> Commits(plain, f, t)
  {
    hide GivenFits, Consumes, Produces, GivenTypes;
    var net := Effective(plain, given);
    EffectiveArguments(plain, given, f, t);
    if Produces(plain, f, t) {
      forall g | 0 <= g < |plain.filters| ensures Consumes(net, g, t) <==> Consumes(plain, g, t) {
        EffectiveArguments(plain, given, g, t);
        PublishedNotGiven(plain, given, f, t, g);
      }
    }
  }

  lemma EffectiveWellFormed(plain: Network, given: Given)
    requires WellFormed(plain)
    ensures WellFormed(Effective(plain, given))
  {
    hide Consumes, KindOf, Publishers, Effective;
    var net := Effective(plain, given);
    forall t, f | |Publishers(net, t)| > 1 && Consumes(net, f, t) ensures KindOf(net, f, t) == Multi {
      EffectivePublishers(plain, given, t);
      EffectiveArguments(plain, given, f, t);
    }
    forall f, a | 0 <= f < |net.filters| && a in net.filters[f].args ensures !a.isRvalue {
      var i :| 0 <= i < |net.filters[f].args| && net.filters[f].args[i] == a;
      assert plain.filters[f].args[i] in plain.filters[f].args;
    }
  }

  // ---------------------------------------------------------------- what handing out changes

  /** The networks differ at most in what the filters `fs` consume and compute. */
  ghost predicate Alike(net: Network, net': Network, fs: set<FilterId>) {
    && |net'.filters| == |net.filters|
    && (forall t :: Publishers(net', t) == Publishers(net, t))
    && (forall f, t :: Produces(net', f, t) <==> Produces(net, f, t))
    && (forall f, t :: Commits(net', f, t) <==> Commits(net, f, t))
    && (forall f, t :: f !in fs ==> (Consumes(net', f, t) <==> Consumes(net, f, t)))
    && (forall f, t :: f !in fs && Consumes(net, f, t) ==> KindOf(net', f, t) == KindOf(net, f, t))
    && (forall f, view, t :: f !in fs ==> net'.body(f, view, t) == net.body(f, view, t))
  }

  /** The filters `fs` conclude nothing, at any stage. */
  ghost predicate Idle(net: Network, roots: Roots, fs: set<FilterId>) {
    forall f, n: nat :: f in fs ==> !ReadyAt(net, roots, n, f) && !DoomedAt(net, roots, n, f)
  }

  /** What was derivable without the idle filters stays derivable, at the same stage. */
  lemma {:induction false} TypeTransfers(net: Network, net': Network, fs: set<FilterId>, roots: Roots, n: nat,
      t: TypeId)
    requires Alike(net, net', fs) && Idle(net, roots, fs) && TypeAt(net, roots, n, t).Some?
    ensures TypeAt(net', roots, n, t) == TypeAt(net, roots, n, t)
    decreases n, 0
  {
    hide Publishers, ConcludesAt, Gathered, Alike, Idle;
    assert Publishers(net', t) == Publishers(net, t) by { AlikePublishers(net, net', fs, t); }
    if Publishers(net, t) != [] {
      TypeAtPublished(net, roots, n, t);
      GatherTransfers(net, net', fs, roots, n - 1, Publishers(net, t), t);
      TypeAtPublished(net', roots, n, t);
    }
  }

  lemma AlikePublishers(net: Network, net': Network, fs: set<FilterId>, t: TypeId)
    requires Alike(net, net', fs)
    ensures Publishers(net', t) == Publishers(net, t)
  {}

  lemma {:induction false} GatherTransfers(
    net: Network, net': Network, fs: set<FilterId>, roots: Roots, n: nat, pubs: seq<FilterId>, t: TypeId)
    requires Alike(net, net', fs) && Idle(net, roots, fs)
    requires forall f :: f in pubs ==> ConcludesAt(net, roots, n, f, t)
    ensures forall f :: f in pubs ==> ConcludesAt(net', roots, n, f, t)
    ensures Gathered(net', roots, n, pubs, t) == Gathered(net, roots, n, pubs, t)
    decreases n, 2, |pubs|
  {
    hide Alike, Idle, ConcludesAt, ContributionAt;
    if pubs != [] {
      assert pubs[0] in pubs;
      ConcludeTransfers(net, net', fs, roots, n, pubs[0], t);
      assert forall f :: f in pubs[1..] ==> f in pubs;
      GatherTransfers(net, net', fs, roots, n, pubs[1..], t);
      assert forall f :: f in pubs ==> f == pubs[0] || f in pubs[1..];
    }
  }

  lemma {:induction false} ConcludeTransfers(
    net: Network, net': Network, fs: set<FilterId>, roots: Roots, n: nat, f: FilterId, t: TypeId)
    requires Alike(net, net', fs) && Idle(net, roots, fs) && ConcludesAt(net, roots, n, f, t)
    ensures ConcludesAt(net', roots, n, f, t)
    ensures ContributionAt(net', roots, n, f, t) == ContributionAt(net, roots, n, f, t)
    decreases n, 1
  {
    hide Publishers, TypeAt, Consumes, KindOf, Commits, Produces;
    assert f !in fs;
    forall u | TypeAt(net, roots, n, u).Some? ensures TypeAt(net', roots, n, u) == TypeAt(net, roots, n, u) {
      TypeTransfers(net, net', fs, roots, n, u);
    }
    ReadyNotDoomed(net, roots, n, f);
    ReadyNotDoomed(net', roots, n, f);
    if ReadyAt(net, roots, n, f) {
      assert ReadyAt(net', roots, n, f);
      assert ViewAt(net', roots, n, f) == ViewAt(net, roots, n, f);
    } else {
      var u :| Needs(net, f, u) && TypeAt(net, roots, n, u) == Some(multiset{});
      assert Needs(net', f, u);
    }
  }

  // ---------------------------------------------------------------- the step

  ghost function Newly(given: Given, given': Given): set<FilterId> { given'.Keys - given.Keys }

  /** Every filter newly given something waits for nothing else. */
  ghost predicate MayHandOut(plain: Network, given: Given, given': Given, s: State) {
    && GivenFits(plain, given')
    && (forall f :: f in given ==> f in given' && given'[f] == given[f])
    && (forall f :: f in Newly(given, given') ==>
          && 0 <= f < |plain.filters| && f !in s.calls && f !in s.doomed && (exists t :: t in given'[f])
          && (forall t :: t in given'[f] ==> t !in s.roots)
          && (forall t :: Consumes(plain, f, t) ==> t in given'[f] || (f, t) in s.delivered))
  }

  /** The state once the filters `fs` wait for nothing. */
  ghost function HandedOut(s: State, fs: set<FilterId>): State {
    s.(remaining := seq(|s.remaining|, f requires 0 <= f < |s.remaining| => if f in fs then 0 else s.remaining[f]))
  }

  lemma HandedOutFacts(s: State, fs: set<FilterId>)
    ensures HandedOut(s, fs) == s.(remaining := HandedOut(s, fs).remaining)
  {}

  lemma HandOutAlike(plain: Network, given: Given, given': Given, s: State)
    requires MayHandOut(plain, given, given', s)
    ensures Alike(Effective(plain, given), Effective(plain, given'), Newly(given, given'))
  {
    hide Effective, Consumes, KindOf, Produces, Commits, Publishers;
    var net, net' := Effective(plain, given), Effective(plain, given');
    assert GivenFits(plain, given);
    forall t ensures Publishers(net', t) == Publishers(net, t) {
      EffectivePublishers(plain, given, t);
      EffectivePublishers(plain, given', t);
    }
    forall f, t
      ensures Produces(net', f, t) <==> Produces(net, f, t)
      ensures Commits(net', f, t) <==> Commits(net, f, t)
      ensures f !in Newly(given, given') ==> (Consumes(net', f, t) <==> Consumes(net, f, t))
      ensures f !in Newly(given, given') && Consumes(net, f, t) ==> KindOf(net', f, t) == KindOf(net, f, t)
    {
      EffectiveArguments(plain, given, f, t);
      EffectiveArguments(plain, given', f, t);
      EffectiveCommits(plain, given, f, t);
      EffectiveCommits(plain, given', f, t);
    }
    forall f, view, t | f !in Newly(given, given') ensures net'.body(f, view, t) == net.body(f, view, t) {
      EffectiveBody(plain, given, f, view, t);
      EffectiveBody(plain, given', f, view, t);
    }
  }

  /** A filter that misses only immediates concludes nothing until it is handed them. */
  lemma HandOutIdle(plain: Network, given: Given, given': Given, s: State)
    requires MayHandOut(plain, given, given', s) && Inv(Effective(plain, given), s)
    ensures Idle(Effective(plain, given), s.roots, Newly(given, given'))
  {
    hide Effective, Consumes, KindOf, Produces, Commits, Publishers, TypeAt, Inv;
    var net := Effective(plain, given);
    forall f, n: nat | f in Newly(given, given')
      ensures !ReadyAt(net, s.roots, n, f) && !DoomedAt(net, s.roots, n, f)
    {
      forall t | t in given'[f] ensures Consumes(net, f, t) && TypeAt(net, s.roots, n, t) == None {
        EffectiveArguments(plain, given, f, t);
        EffectivePublishers(plain, given, t);
        TypeAtUnpublished(net, s.roots, n, t);
      }
      var u :| u in given'[f];
      assert !ReadyAt(net, s.roots, n, f);
      forall t | Needs(net, f, t) ensures TypeAt(net, s.roots, n, t) != Some(multiset{}) {
        EffectiveArguments(plain, given, f, t);
        if t !in given'[f] && TypeAt(net, s.roots, n, t).Some? {
          DeliveredIsDerivable(net, s, f, t);
          TypeAtAgrees(net, s.roots, n, s.clock, t);
        }
      }
    }
  }

  lemma TypeAtAgrees(net: Network, roots: Roots, n: nat, m: nat, t: TypeId)
    requires TypeAt(net, roots, n, t).Some? && TypeAt(net, roots, m, t).Some?
    ensures TypeAt(net, roots, n, t) == TypeAt(net, roots, m, t)
  {
    hide TypeAt;
    if n <= m {
      TypeAtMonotone(net, roots, roots, n, m, t);
    } else {
      TypeAtMonotone(net, roots, roots, m, n, t);
    }
  }

  lemma {:induction false} NothingMissing(args: seq<Argument>, types: set<TypeId>, f: FilterId, delivered: Pairs)
    requires forall a :: a in args && a.Subscribes() ==> a.id in types || (f, a.id) in delivered
    ensures Missing(Without(args, types), f, delivered) == 0
  {
    if args != [] {
      assert args[0] in args;
      assert forall a :: a in args[1..] ==> a in args;
      NothingMissing(args[1..], types, f, delivered);
      assert Without(args, types)[1..] == Without(args[1..], types);
    }
  }

  lemma HandOutCounters(plain: Network, given: Given, given': Given, s: State)
    requires WellFormed(plain) && MayHandOut(plain, given, given', s)
    requires CountersOk(Effective(plain, given), s.remaining, s.doomed, s.delivered)
    ensures var s' := HandedOut(s, Newly(given, given'));
            CountersOk(Effective(plain, given'), s'.remaining, s.doomed, s.delivered)
  {
    hide Consumes, Publishers, Missing, WellFormed;
    forall f | f in Newly(given, given')
      ensures Missing(Effective(plain, given').filters[f].args, f, s.delivered) == 0
    {
      ArgumentsOf(plain, f);
      forall a | a in plain.filters[f].args && a.Subscribes()
        ensures a.id in given'[f] || (f, a.id) in s.delivered
      {
        assert Consumes(plain, f, a.id) by { ConsumesArgument(plain, f, a); }
      }
      NothingMissing(plain.filters[f].args, given'[f].Keys, f, s.delivered);
    }
  }

  lemma ConsumesArgument(net: Network, f: FilterId, a: Argument)
    requires 0 <= f < |net.filters| && a.Subscribes() && ArgumentFor(net.filters[f].args, a.id) == Some(a)
    ensures Consumes(net, f, a.id)
  {}

  lemma HandOutEmissions(plain: Network, given: Given, given': Given, s: State)
    requires MayHandOut(plain, given, given', s) && Inv(Effective(plain, given), s)
    ensures EmittedOk(Effective(plain, given'), s.slots, s.calls, s.doomed, s.emitted)
  {
    hide Effective, Consumes, KindOf, Produces, Commits, Publishers, CountersOk, SlotsOk, SoundOk, DeliveredOk;
    var net, net' := Effective(plain, given), Effective(plain, given');
    HandOutAlike(plain, given, given', s);
    forall f, t | (f, t) in s.emitted
      ensures EmissionOk(net', s.slots, s.calls, s.doomed, f, t, s.emitted[(f, t)])
    {
      assert EmissionOk(net, s.slots, s.calls, s.doomed, f, t, s.emitted[(f, t)]);
      if f !in s.doomed {
        assert InputTypes(net', f) == InputTypes(net, f);
        assert ViewNow(net', s.slots, f) == ViewNow(net, s.slots, f);
      }
    }
  }

  lemma HandOutSlots(plain: Network, given: Given, given': Given, s: State)
    requires MayHandOut(plain, given, given', s) && Inv(Effective(plain, given), s)
    ensures SlotsOk(Effective(plain, given'), s.slots, s.roots, s.emitted)
    ensures SoundOk(Effective(plain, given'), s.slots, s.roots, s.clock)
    ensures DoomedOk(Effective(plain, given'), s.slots, s.doomed)
  {
    hide Effective, Consumes, KindOf, Produces, Commits, Publishers, CountersOk, TypeAt, DeliveredOk, Concluded;
    hide Emitted;
    var net, net' := Effective(plain, given), Effective(plain, given');
    HandOutAlike(plain, given, given', s);
    HandOutIdle(plain, given, given', s);
    forall t ensures SlotOk(net', s.slots, s.roots, s.emitted, t) {
      assert SlotOk(net, s.slots, s.roots, s.emitted, t);
    }
    forall t | Completed(s.slots, t) ensures TypeAt(net', s.roots, s.clock, t) == Some(Values(s.slots, t)) {
      TypeTransfers(net, net', Newly(given, given'), s.roots, s.clock, t);
    }
    forall f | f in s.doomed ensures Starved(net', s.slots, f) {
      assert Starved(net, s.slots, f);
      var u :| Needs(net, f, u) && Completed(s.slots, u) && At(s.slots, u).decorations == [];
      assert Needs(net', f, u);
    }
  }

  /** Handing immediates to filters that miss nothing else keeps the invariant, of the network in which those
      filters no longer wait, and leaves exactly them to be called. */
  lemma HandOutStep(plain: Network, given: Given, given': Given, s: State)
    requires WellFormed(plain) && MayHandOut(plain, given, given', s) && Inv(Effective(plain, given), s)
    ensures var net, net', s' := Effective(plain, given), Effective(plain, given'), HandedOut(s, Newly(given, given'));
            && Inv(net', s')
            && (forall f :: Queued(net', s', f) <==> Queued(net, s, f) || f in Newly(given, given'))
            && (forall f, t :: Owes(net', s', f, t) <==> Owes(net, s, f, t))
            && (forall f, t :: Untold(net', s', f, t) ==> Untold(net, s, f, t))
  {
    hide Effective, Consumes, KindOf, Produces, Commits, Publishers, TypeAt, SlotsOk, SoundOk, Starved, EmittedOk;
    hide WellFormed;
    var net, net', s' := Effective(plain, given), Effective(plain, given'), HandedOut(s, Newly(given, given'));
    HandOutAlike(plain, given, given', s);
    HandOutCounters(plain, given, given', s);
    HandOutEmissions(plain, given, given', s);
    HandOutSlots(plain, given, given', s);
    forall f, t
      ensures Consumes(net, f, t) <==> Consumes(plain, f, t) && t !in GivenTypes(given, f)
      ensures Consumes(net', f, t) <==> Consumes(plain, f, t) && t !in GivenTypes(given', f)
      ensures Consumes(net', f, t) ==> KindOf(net', f, t) == KindOf(plain, f, t) == KindOf(net, f, t)
    {
      EffectiveArguments(plain, given, f, t);
      EffectiveArguments(plain, given', f, t);
    }
    HandOutDeliveries(plain, given, given', s);
  }

  lemma HandOutDeliveries(plain: Network, given: Given, given': Given, s: State)
    requires MayHandOut(plain, given, given', s) && Inv(Effective(plain, given), s)
    ensures DeliveredOk(Effective(plain, given'), s.slots, s.delivered)
  {
    hide Effective, Consumes, KindOf, Produces, Commits, Publishers, TypeAt, SlotsOk, SoundOk, Starved, EmittedOk;
    hide CountersOk, CallsOk, DoomedOk;
    var net, net' := Effective(plain, given), Effective(plain, given');
    forall f, t | (f, t) in s.delivered
      ensures Consumes(net', f, t) && Completed(s.slots, t) && (Needs(net', f, t) ==> At(s.slots, t).decorations != [])
    {
      EffectiveArguments(plain, given, f, t);
      EffectiveArguments(plain, given', f, t);
      if t in GivenTypes(given', f) && t !in GivenTypes(given, f) {
        HandedIsOpen(plain, given, given', s, f, t);
        assert false;
      }
    }
  }

  lemma HandedIsOpen(plain: Network, given: Given, given': Given, s: State, f: FilterId, t: TypeId)
    requires MayHandOut(plain, given, given', s) && Inv(Effective(plain, given), s)
    requires f in Newly(given, given') && t in given'[f]
    ensures !Completed(s.slots, t)
  {
    hide Effective, Consumes, Produces, Publishers, TypeAt;
    EffectivePublishers(plain, given, t);
    assert SlotOk(Effective(plain, given), s.slots, s.roots, s.emitted, t);
  }
}
