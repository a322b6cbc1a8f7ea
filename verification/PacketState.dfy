/** The state of a packet as a value, the steps a packet takes on it, and the invariant they keep.

    Besides the counters and dispositions of the implementation, the state records history: which
    filters were called, which were given up (`doomed`), which inputs were delivered to which
    filter and what each publisher has concluded. The invariant says what the counters count and
    that every completed type is derivable in the sense of FilterNetwork.TypeAt. */
module PacketState {
  import opened Prelude
  import opened FilterNetwork

  datatype Phase = Unsatisfied | PartlySatisfied | Complete

  datatype Slot = Slot(producersRun: nat, decorations: seq<Value>, phase: Phase)

  const EMPTY_SLOT := Slot(0, [], Unsatisfied)

  type Slots = map<TypeId, Slot>
  type Pairs = set<(FilterId, TypeId)>
  type Emissions = map<(FilterId, TypeId), multiset<Value>>

  function At(slots: Slots, t: TypeId): Slot { if t in slots then slots[t] else EMPTY_SLOT }
  predicate Completed(slots: Slots, t: TypeId) { At(slots, t).phase == Complete }
  function Values(slots: Slots, t: TypeId): multiset<Value> { multiset(At(slots, t).decorations) }

  datatype State = State(
    remaining: seq<nat>,
    slots: Slots,
    roots: Roots,
    calls: seq<FilterId>,
    doomed: set<FilterId>,
    delivered: Pairs,
    emitted: Emissions,
    clock: nat)

  const EMPTY_STATE := State([], map[], map[], [], {}, {}, map[], 0)

  /** The number of inputs among `args` not yet delivered to `f`. */
  function Missing(args: seq<Argument>, f: FilterId, delivered: Pairs): nat {
    if args == [] then 0
    else (if args[0].Subscribes() && (f, args[0].id) !in delivered then 1 else 0) + Missing(args[1..], f, delivered)
  }

  /** The number of publishers among `pubs` that have committed `t` or were given up. */
  function Concluded(pubs: seq<FilterId>, t: TypeId, emitted: Emissions): nat {
    if pubs == [] then 0
    else (if (pubs[0], t) in emitted then 1 else 0) + Concluded(pubs[1..], t, emitted)
  }

  function Emitted(pubs: seq<FilterId>, t: TypeId, emitted: Emissions): multiset<Value> {
    if pubs == [] then multiset{}
    else (if (pubs[0], t) in emitted then emitted[(pubs[0], t)] else multiset{}) + Emitted(pubs[1..], t, emitted)
  }

  ghost function ViewNow(net: Network, slots: Slots, f: FilterId): View {
    map t | t in InputTypes(net, f) :: Values(slots, t)
  }

  // ---------------------------------------------------------------- invariant

  /** A counter counts the inputs not yet delivered, until its filter is given up. */
  ghost predicate CountersOk(net: Network, remaining: seq<nat>, doomed: set<FilterId>, delivered: Pairs) {
    && |remaining| == |net.filters|
    && forall f :: 0 <= f < |net.filters| ==>
         remaining[f] == if f in doomed then 0 else Missing(net.filters[f].args, f, delivered)
  }

  /** A disposition with `n` publishers of which `run` have concluded, having emitted `values`. */
  ghost predicate TallyOk(d: Slot, n: nat, run: nat, values: multiset<Value>) {
    && d.producersRun == run
    && multiset(d.decorations) == values
    && (d.phase == Complete <==> run == n)
    && (d.phase == Unsatisfied <==> run == 0)
  }

  /** A disposition counts each concluded publisher once, holds what they emitted, and is complete
      exactly when all of them have concluded (or, without publishers, when the caller spoke). */
  ghost predicate SlotOk(net: Network, slots: Slots, roots: Roots, emitted: Emissions, t: TypeId) {
    var d := At(slots, t);
    var pubs := Publishers(net, t);
    if pubs == [] then
      && (d.phase == Complete <==> t in roots)
      && d.phase != PartlySatisfied
      && Values(slots, t) == (if t in roots then RootValues(roots[t]) else multiset{})
    else
      t !in roots && TallyOk(d, |pubs|, Concluded(pubs, t, emitted), Emitted(pubs, t, emitted))
  }

  ghost predicate SlotsOk(net: Network, slots: Slots, roots: Roots, emitted: Emissions) {
    forall t :: SlotOk(net, slots, roots, emitted, t)
  }

  ghost predicate DeliveredOk(net: Network, slots: Slots, delivered: Pairs) {
    forall f, t :: (f, t) in delivered ==>
      Consumes(net, f, t) && Completed(slots, t) && (Needs(net, f, t) ==> At(slots, t).decorations != [])
  }

  ghost predicate AllDelivered(net: Network, delivered: Pairs, f: FilterId) {
    forall t :: Consumes(net, f, t) ==> (f, t) in delivered
  }

  ghost predicate CallsOk(net: Network, calls: seq<FilterId>, doomed: set<FilterId>, delivered: Pairs) {
    && Distinct(calls)
    && forall f :: f in calls ==> 0 <= f < |net.filters| && f !in doomed && AllDelivered(net, delivered, f)
  }

  /** Some Normal input of `f` is complete without a decoration. */
  ghost predicate Starved(net: Network, slots: Slots, f: FilterId) {
    exists t :: Needs(net, f, t) && Completed(slots, t) && At(slots, t).decorations == []
  }

  ghost predicate DoomedOk(net: Network, slots: Slots, doomed: set<FilterId>) {
    forall f :: f in doomed ==> Starved(net, slots, f)
  }

  ghost predicate EmissionOk(
    net: Network, slots: Slots, calls: seq<FilterId>, doomed: set<FilterId>, f: FilterId, t: TypeId, v: multiset<Value>)
  {
    && Produces(net, f, t)
    && if f in doomed then v == multiset{}
       else f in calls && Commits(net, f, t) && v == net.body(f, ViewNow(net, slots, f), t).Values()
  }

  ghost predicate EmittedOk(
    net: Network, slots: Slots, calls: seq<FilterId>, doomed: set<FilterId>, emitted: Emissions)
  {
    forall f, t :: (f, t) in emitted ==> EmissionOk(net, slots, calls, doomed, f, t, emitted[(f, t)])
  }

  /** Every completed type is derivable, with these very decorations. */
  ghost predicate SoundOk(net: Network, slots: Slots, roots: Roots, clock: nat) {
    forall t :: Completed(slots, t) ==> TypeAt(net, roots, clock, t) == Some(Values(slots, t))
  }

  ghost predicate Inv(net: Network, s: State) {
    && CountersOk(net, s.remaining, s.doomed, s.delivered)
    && SlotsOk(net, s.slots, s.roots, s.emitted)
    && DeliveredOk(net, s.slots, s.delivered)
    && CallsOk(net, s.calls, s.doomed, s.delivered)
    && DoomedOk(net, s.slots, s.doomed)
    && EmittedOk(net, s.slots, s.calls, s.doomed, s.emitted)
    && SoundOk(net, s.slots, s.roots, s.clock)
  }

  // ---------------------------------------------------------------- outstanding work

  /** `f` has all its inputs and still has to be called. */
  ghost predicate Queued(net: Network, s: State, f: FilterId) {
    0 <= f < |net.filters| && f !in s.doomed && f !in s.calls && AllDelivered(net, s.delivered, f)
  }

  /** `f` was called or given up and its output `t` has not been accounted for. */
  ghost predicate Owes(net: Network, s: State, f: FilterId, t: TypeId) {
    && (f, t) !in s.emitted
    && Produces(net, f, t)
    && (f in s.doomed || (f in s.calls && Commits(net, f, t)))
  }

  /** `t` is complete and `f` has not been told. */
  ghost predicate Untold(net: Network, s: State, f: FilterId, t: TypeId) {
    Consumes(net, f, t) && Completed(s.slots, t) && f !in s.doomed && (f, t) !in s.delivered
  }

  ghost predicate Quiescent(net: Network, s: State) {
    && (forall f :: !Queued(net, s, f))
    && (forall f, t :: !Owes(net, s, f, t))
    && (forall f, t :: !Untold(net, s, f, t))
  }

  /** What never changes once it has happened. */
  ghost predicate Extends(s: State, s': State) {
    && s.calls <= s'.calls
    && s.doomed <= s'.doomed
    && s.delivered <= s'.delivered
    && (forall p :: p in s.emitted ==> p in s'.emitted && s'.emitted[p] == s.emitted[p])
    && (forall t :: Completed(s.slots, t) ==> At(s'.slots, t) == At(s.slots, t))
    && s.clock <= s'.clock
  }

  // ---------------------------------------------------------------- steps

  ghost function Deliver(s: State, f: FilterId, t: TypeId): State
    requires 0 <= f < |s.remaining| && s.remaining[f] > 0
  {
    s.(remaining := s.remaining[f := s.remaining[f] - 1], delivered := s.delivered + {(f, t)})
  }

  ghost function Doom(s: State, f: FilterId): State
    requires 0 <= f < |s.remaining|
  {
    s.(remaining := s.remaining[f := 0], doomed := s.doomed + {f})
  }

  ghost function Call(s: State, f: FilterId): State {
    s.(calls := s.calls + [f])
  }

  /** The disposition after one more producer has concluded, with `published` publishers in all. */
  function Advance(d: Slot, e: Emission, published: nat): Slot {
    var run := d.producersRun + 1;
    Slot(run,
         d.decorations + (match e case Null => [] case Item(v) => [v]),
         if d.phase == Complete || run >= published then Complete else PartlySatisfied)
  }

  ghost function Conclude(net: Network, s: State, f: FilterId, t: TypeId, e: Emission): State {
    s.(slots := s.slots[t := Advance(At(s.slots, t), e, |Publishers(net, t)|)],
       emitted := s.emitted[(f, t) := e.Values()],
       clock := s.clock + 1)
  }

  ghost function SetRoot(s: State, t: TypeId, v: Option<Value>, d: Slot): State {
    s.(slots := s.slots[t := d], roots := s.roots[t := v])
  }

  // ---------------------------------------------------------------- counting lemmas

  lemma {:induction false} MissingDeliver(args: seq<Argument>, f: FilterId, d: Pairs, t: TypeId)
    requires DistinctTypes(args) && (f, t) !in d
    requires ArgumentFor(args, t).Some? && ArgumentFor(args, t).value.Subscribes()
    ensures Missing(args, f, d) == Missing(args, f, d + {(f, t)}) + 1
  {
    if args[0].id == t {
      MissingCongruent(args[1..], f, d, d + {(f, t)});
    } else {
      MissingDeliver(args[1..], f, d, t);
    }
  }

  lemma {:induction false} MissingCongruent(args: seq<Argument>, f: FilterId, d: Pairs, e: Pairs)
    requires forall a :: a in args ==> ((f, a.id) in d <==> (f, a.id) in e)
    ensures Missing(args, f, d) == Missing(args, f, e)
  {
    if args != [] {
      assert args[0] in args;
      assert forall a :: a in args[1..] ==> a in args;
      MissingCongruent(args[1..], f, d, e);
    }
  }

  lemma {:induction false} MissingZero(args: seq<Argument>, f: FilterId, d: Pairs)
    ensures Missing(args, f, d) == 0 <==> forall a :: a in args && a.Subscribes() ==> (f, a.id) in d
  {
    if args != [] {
      MissingZero(args[1..], f, d);
      assert forall a :: a in args <==> a == args[0] || a in args[1..];
    }
  }

  lemma {:induction false} ConcludeCounts(
    pubs: seq<FilterId>, t: TypeId, em: Emissions, f: FilterId, v: multiset<Value>)
    requires Distinct(pubs) && f in pubs && (f, t) !in em
    ensures Concluded(pubs, t, em[(f, t) := v]) == Concluded(pubs, t, em) + 1
    ensures Emitted(pubs, t, em[(f, t) := v]) == Emitted(pubs, t, em) + v
  {
    if pubs[0] == f {
      ConcludeElsewhere(pubs[1..], t, em, f, t, v);
    } else {
      assert pubs == [pubs[0]] + pubs[1..];
      ConcludeCounts(pubs[1..], t, em, f, v);
    }
  }

  lemma {:induction false} ConcludeElsewhere(
    pubs: seq<FilterId>, u: TypeId, em: Emissions, f: FilterId, t: TypeId, v: multiset<Value>)
    requires f !in pubs || u != t
    ensures Concluded(pubs, u, em[(f, t) := v]) == Concluded(pubs, u, em)
    ensures Emitted(pubs, u, em[(f, t) := v]) == Emitted(pubs, u, em)
  {
    if pubs != [] {
      ConcludeElsewhere(pubs[1..], u, em, f, t, v);
    }
  }

  lemma {:induction false} ConcludedBound(pubs: seq<FilterId>, t: TypeId, em: Emissions)
    ensures Concluded(pubs, t, em) <= |pubs|
    ensures Concluded(pubs, t, em) == |pubs| <==> forall f :: f in pubs ==> (f, t) in em
  {
    if pubs != [] {
      ConcludedBound(pubs[1..], t, em);
      assert forall f :: f in pubs <==> f == pubs[0] || f in pubs[1..];
    }
  }

  /** A counter of a live filter is zero exactly when all its inputs were delivered. */
  lemma CounterZero(net: Network, remaining: seq<nat>, doomed: set<FilterId>, delivered: Pairs, f: FilterId)
    requires WellFormed(net) && CountersOk(net, remaining, doomed, delivered)
    requires 0 <= f < |net.filters| && f !in doomed
    ensures remaining[f] == 0 <==> AllDelivered(net, delivered, f)
  {
    var args := net.filters[f].args;
    MissingZero(args, f, delivered);
    forall a | a in args && a.Subscribes()
      ensures Consumes(net, f, a.id)
    {
      var i :| 0 <= i < |args| && args[i] == a;
      ArgumentForFinds(args, i);
    }
  }
}
