/** What a run computes, in terms of the flags in the argument tables: the rules of the least fixed point, and what
    they say about a packet at rest. */
module PacketFlags {
  import opened Prelude
  import opened FilterNetwork
  import opened PacketState
  import opened PacketSteps
  import opened PacketOutcome
  import opened Immediates
  import opened PacketFacts
  import opened PulseTargets

  // ---------------------------------------------------------------- the rules of the fixed point

  lemma CompletesOnce(net: Network, roots: Roots, t: TypeId, v: multiset<Value>, w: multiset<Value>)
    requires Completes(net, roots, t, v) && Completes(net, roots, t, w)
    ensures v == w
  {
    hide TypeAt;
    var n: nat :| TypeAt(net, roots, n, t) == Some(v);
    var m: nat :| TypeAt(net, roots, m, t) == Some(w);
    TypeAtAgrees(net, roots, n, m, t);
  }

  /** The input has what it waits for. */
  ghost predicate Satisfied(net: Network, roots: Roots, a: Argument) {
    exists v :: Completes(net, roots, a.id, v) && (!a.isMulti && !a.isShared ==> v != multiset{})
  }

  lemma SatisfiedLater(net: Network, roots: Roots, a: Argument, n: nat, m: nat)
    requires n <= m && TypeAt(net, roots, n, a.id).Some?
    ensures TypeAt(net, roots, m, a.id) == TypeAt(net, roots, n, a.id)
  {
    TypeAtMonotone(net, roots, roots, n, m, a.id);
  }

  /** All these inputs have what they wait for by a common stage. */
  lemma {:induction false} CommonStage(net: Network, roots: Roots, args: seq<Argument>) returns (n: nat)
    requires forall a :: a in args && a.isInput && !a.isRvalue ==> Satisfied(net, roots, a)
    ensures forall a :: a in args && a.isInput && !a.isRvalue ==>
      && TypeAt(net, roots, n, a.id).Some?
      && (!a.isMulti && !a.isShared ==> TypeAt(net, roots, n, a.id).value != multiset{})
  {
    hide TypeAt;
    if args == [] {
      n := 0;
    } else {
      var b := args[0];
      assert b in args;
      assert forall a :: a in args[1..] ==> a in args;
      n := CommonStage(net, roots, args[1..]);
      if b.isInput && !b.isRvalue {
        assert Satisfied(net, roots, b);
        var v :| Completes(net, roots, b.id, v) && (!b.isMulti && !b.isShared ==> v != multiset{});
        var m: nat :| TypeAt(net, roots, m, b.id) == Some(v);
        var k := if n > m then n else m;
        SatisfiedLater(net, roots, b, m, k);
        forall a | a in args[1..] && a.isInput && !a.isRvalue
          ensures TypeAt(net, roots, k, a.id) == TypeAt(net, roots, n, a.id)
        {
          SatisfiedLater(net, roots, a, n, k);
        }
        n := k;
      }
      assert forall a :: a in args ==> a == b || a in args[1..];
    }
  }

  /** A filter runs exactly if each of its inputs completes, with a value where the input is neither shared nor
      multi. */
  lemma RunRule(net: Network, roots: Roots, f: FilterId)
    requires WellFormed(net) && 0 <= f < |net.filters|
    ensures Runs(net, roots, f) <==>
      forall a :: a in net.filters[f].args && a.isInput && !a.isRvalue ==> Satisfied(net, roots, a)
  {
    hide TypeAt, WellFormed;
    ArgumentsOf(net, f);
    var args := net.filters[f].args;
    if Runs(net, roots, f) {
      var n: nat :| ReadyAt(net, roots, n, f);
      forall a | a in args && a.isInput && !a.isRvalue ensures Satisfied(net, roots, a) {
        assert Consumes(net, f, a.id);
        assert Completes(net, roots, a.id, TypeAt(net, roots, n, a.id).value);
      }
    }
    if forall a :: a in args && a.isInput && !a.isRvalue ==> Satisfied(net, roots, a) {
      var n := CommonStage(net, roots, args);
      assert ReadyAt(net, roots, n, f);
    }
  }

  /** An input that takes one value. */
  predicate PlainInput(a: Argument) { a.isInput && !a.isRvalue && !a.isMulti && !a.isShared }

  /** A filter is given up, in the sense of the least fixed point. */
  ghost predicate GivenUp(net: Network, roots: Roots, f: FilterId) {
    exists n: nat :: DoomedAt(net, roots, n, f)
  }

  /** A filter is given up exactly if an input that is neither shared nor multi completes without a value. */
  lemma GivenUpRule(net: Network, roots: Roots, f: FilterId)
    requires WellFormed(net) && 0 <= f < |net.filters|
    ensures GivenUp(net, roots, f) <==>
      exists a :: PlainInput(a) && a in net.filters[f].args && Completes(net, roots, a.id, multiset{})
  {
    hide TypeAt, WellFormed;
    ArgumentsOf(net, f);
    var args := net.filters[f].args;
    if GivenUp(net, roots, f) {
      var n: nat :| DoomedAt(net, roots, n, f);
      var t :| Needs(net, f, t) && TypeAt(net, roots, n, t) == Some(multiset{});
      var a := ArgumentFor(args, t).value;
      assert a in args && Completes(net, roots, a.id, multiset{});
    }
    if exists a :: PlainInput(a) && a in args && Completes(net, roots, a.id, multiset{}) {
      var a :| PlainInput(a) && a in args && Completes(net, roots, a.id, multiset{});
      var n: nat :| TypeAt(net, roots, n, a.id) == Some(multiset{});
      assert Needs(net, f, a.id);
      assert DoomedAt(net, roots, n, f);
    }
  }

  lemma NeverBoth(net: Network, roots: Roots, f: FilterId)
    ensures !(Runs(net, roots, f) && GivenUp(net, roots, f))
  {
    hide ReadyAt, DoomedAt;
    if Runs(net, roots, f) && GivenUp(net, roots, f) {
      var n: nat :| ReadyAt(net, roots, n, f);
      var m: nat :| DoomedAt(net, roots, m, f);
      ReadyNeverDoomed(net, roots, n, m, f);
    }
  }

  /** Argument `a` of filter `f` publishes `t`. */
  predicate PublishesBy(net: Network, f: FilterId, a: Argument, t: TypeId) {
    0 <= f < |net.filters| && a in net.filters[f].args && a.isOutput && !a.isRvalue && a.id == t
  }

  /** Some input of the network is of type `t`. */
  predicate Wanted(net: Network, t: TypeId) {
    exists f, a :: 0 <= f < |net.filters| && a in net.filters[f].args && a.isInput && !a.isRvalue && a.id == t
  }

  lemma PublisherFlags(net: Network, f: FilterId, t: TypeId)
    requires WellFormed(net)
    ensures f in Publishers(net, t) <==> exists a :: PublishesBy(net, f, a, t)
    ensures forall a :: PublishesBy(net, f, a, t) ==>
      Produces(net, f, t) && ArgumentFor(net.filters[f].args, t) == Some(a)
  {
    hide WellFormed;
    if 0 <= f < |net.filters| {
      ArgumentsOf(net, f);
      if Produces(net, f, t) { assert PublishesBy(net, f, ArgumentFor(net.filters[f].args, t).value, t); }
    }
  }

  lemma WantedFlags(net: Network, t: TypeId)
    requires WellFormed(net)
    ensures HasConsumer(net, t) <==> Wanted(net, t)
  {
    hide WellFormed;
    if HasConsumer(net, t) {
      var f :| 0 <= f < |net.filters| && Consumes(net, f, t);
      assert ArgumentFor(net.filters[f].args, t).value in net.filters[f].args;
    }
    if Wanted(net, t) {
      var f, a :| 0 <= f < |net.filters| && a in net.filters[f].args && a.isInput && !a.isRvalue && a.id == t;
      ArgumentsOf(net, f);
      assert Consumes(net, f, t);
    }
  }

  /** A type nobody publishes completes exactly with what the caller decided. */
  lemma RootRule(net: Network, roots: Roots, t: TypeId, v: multiset<Value>)
    requires WellFormed(net) && forall f, a :: !PublishesBy(net, f, a, t)
    ensures Completes(net, roots, t, v) <==>
      t in roots && v == match roots[t] case None => multiset{} case Some(x) => multiset{x}
  {
    hide TypeAt, WellFormed;
    var pubs := Publishers(net, t);
    if pubs != [] {
      assert pubs[0] in pubs;
      PublisherFlags(net, pubs[0], t);
    }
    forall n: nat
      ensures TypeAt(net, roots, n, t) == if t in roots then Some(RootValues(roots[t])) else None
    {
      TypeAtUnpublished(net, roots, n, t);
    }
    if t in roots && v == RootValues(roots[t]) { assert TypeAt(net, roots, 0, t) == Some(v); }
  }

  /** A publisher is done with its output: it is given up, or it runs, and hands the output over unless it does so
      on demand only and nobody asks. */
  ghost predicate DoneWith(net: Network, roots: Roots, f: FilterId, a: Argument) {
    GivenUp(net, roots, f) || (Runs(net, roots, f) && (a.onDemand ==> Wanted(net, a.id)))
  }

  ghost predicate Concludes(net: Network, roots: Roots, f: FilterId, t: TypeId) {
    exists n: nat :: ConcludesAt(net, roots, n, f, t)
  }

  lemma ConcludesCases(net: Network, roots: Roots, n: nat, f: FilterId, t: TypeId)
    requires ConcludesAt(net, roots, n, f, t)
    ensures GivenUp(net, roots, f) || (Runs(net, roots, f) && Commits(net, f, t))
  {
    hide Commits;
    assert DoomedAt(net, roots, n, f) || ReadyAt(net, roots, n, f);
  }

  lemma ConcludesFlags(net: Network, roots: Roots, f: FilterId, a: Argument, t: TypeId)
    requires WellFormed(net) && PublishesBy(net, f, a, t)
    ensures DoneWith(net, roots, f, a) <==> Concludes(net, roots, f, t)
  {
    hide ReadyAt, DoomedAt, WellFormed;
    PublisherFlags(net, f, t);
    WantedFlags(net, t);
    if Concludes(net, roots, f, t) {
      var n: nat :| ConcludesAt(net, roots, n, f, t);
      ConcludesCases(net, roots, n, f, t);
    }
    if GivenUp(net, roots, f) {
      var n: nat :| DoomedAt(net, roots, n, f);
      assert ConcludesAt(net, roots, n, f, t);
    } else if DoneWith(net, roots, f, a) {
      var n: nat :| ReadyAt(net, roots, n, f);
      assert ConcludesAt(net, roots, n, f, t);
    }
  }

  lemma {:induction false} CommonConclusion(net: Network, roots: Roots, pubs: seq<FilterId>, t: TypeId)
    returns (n: nat)
    requires forall f :: f in pubs ==> Concludes(net, roots, f, t)
    ensures forall f :: f in pubs ==> ConcludesAt(net, roots, n, f, t)
  {
    hide ConcludesAt;
    if pubs == [] {
      n := 0;
    } else {
      assert pubs[0] in pubs;
      assert forall f :: f in pubs[1..] ==> f in pubs;
      assert Concludes(net, roots, pubs[0], t);
      n := CommonConclusion(net, roots, pubs[1..], t);
      var m: nat :| ConcludesAt(net, roots, m, pubs[0], t);
      var k := if n > m then n else m;
      ConcludesMonotone(net, roots, roots, m, k, pubs[0], t);
      forall f | f in pubs[1..] ensures ConcludesAt(net, roots, k, f, t) {
        ConcludesMonotone(net, roots, roots, n, k, f, t);
      }
      n := k;
      assert forall f :: f in pubs ==> f == pubs[0] || f in pubs[1..];
    }
  }

  lemma ConcludesNow(net: Network, roots: Roots, n: nat, f: FilterId, t: TypeId)
    requires ConcludesAt(net, roots, n, f, t)
    ensures Concludes(net, roots, f, t)
  {}

  /** A published type completes exactly if every publisher is done with it. */
  lemma PublishedRule(net: Network, roots: Roots, t: TypeId)
    requires WellFormed(net) && exists f, a :: PublishesBy(net, f, a, t)
    ensures (exists v :: Completes(net, roots, t, v)) <==>
      forall f, a :: PublishesBy(net, f, a, t) ==> DoneWith(net, roots, f, a)
  {
    hide TypeAt, WellFormed, ConcludesAt, PublishesBy, DoneWith, Concludes;
    var pubs := Publishers(net, t);
    forall f ensures f in pubs <==> exists a :: PublishesBy(net, f, a, t) { PublisherFlags(net, f, t); }
    var g, b :| PublishesBy(net, g, b, t);
    assert g in pubs;
    forall f, a | PublishesBy(net, f, a, t)
      ensures DoneWith(net, roots, f, a) <==> Concludes(net, roots, f, t)
    {
      ConcludesFlags(net, roots, f, a, t);
    }
    if exists v :: Completes(net, roots, t, v) {
      var v :| Completes(net, roots, t, v);
      var n: nat :| TypeAt(net, roots, n, t) == Some(v);
      TypeAtStageZero(net, roots, t);
      TypeAtPublished(net, roots, n, t);
      forall f | f in pubs ensures Concludes(net, roots, f, t) { ConcludesNow(net, roots, n - 1, f, t); }
    }
    if forall f, a :: PublishesBy(net, f, a, t) ==> DoneWith(net, roots, f, a) {
      var n := CommonConclusion(net, roots, pubs, t);
      TypeAtPublished(net, roots, n + 1, t);
      assert Completes(net, roots, t, TypeAt(net, roots, n + 1, t).value);
    }
  }

  // ---------------------------------------------------------------- the decorations of a published type

  /** What a filter that runs sees: each input with the decorations it completes with. */
  ghost predicate IsView(net: Network, roots: Roots, f: FilterId, view: View) {
    0 <= f < |net.filters| &&
    forall u ::
      && (u in view <==> exists a :: a in net.filters[f].args && a.isInput && !a.isRvalue && a.id == u)
      && (u in view ==> Completes(net, roots, u, view[u]))
  }

  lemma ViewFlags(net: Network, roots: Roots, n: nat, f: FilterId)
    requires WellFormed(net) && ReadyAt(net, roots, n, f)
    ensures IsView(net, roots, f, ViewAt(net, roots, n, f))
  {
    hide TypeAt, WellFormed;
    ArgumentsOf(net, f);
    var args := net.filters[f].args;
    forall u | Consumes(net, f, u)
      ensures (exists a :: a in args && a.isInput && !a.isRvalue && a.id == u) && TypeAt(net, roots, n, u).Some?
    {
      assert ArgumentFor(args, u).value in args;
    }
    forall a | a in args && a.isInput && !a.isRvalue ensures Consumes(net, f, a.id) {}
    forall u | Consumes(net, f, u) ensures Completes(net, roots, u, TypeAt(net, roots, n, u).value) {}
  }

  ghost function Total(vs: seq<multiset<Value>>): multiset<Value> {
    if vs == [] then multiset{} else vs[0] + Total(vs[1..])
  }

  predicate HandsOver(e: Emission, v: multiset<Value>) {
    v == match e case Null => multiset{} case Item(x) => multiset{x}
  }

  /** What one publisher adds: nothing if it is given up, and else what it hands over for what it sees. */
  ghost predicate Adds(net: Network, roots: Roots, f: FilterId, t: TypeId, v: multiset<Value>) {
    && (GivenUp(net, roots, f) ==> v == multiset{})
    && (Runs(net, roots, f) ==> exists view :: IsView(net, roots, f, view) && HandsOver(net.body(f, view, t), v))
  }

  lemma {:induction false} GatheredAdds(net: Network, roots: Roots, n: nat, pubs: seq<FilterId>, t: TypeId)
    returns (vs: seq<multiset<Value>>)
    requires WellFormed(net) && forall f :: f in pubs ==> ConcludesAt(net, roots, n, f, t)
    ensures |vs| == |pubs| && Total(vs) == Gathered(net, roots, n, pubs, t)
    ensures forall i :: 0 <= i < |pubs| ==> Adds(net, roots, pubs[i], t, vs[i])
  {
    hide WellFormed, Adds, ConcludesAt, ContributionAt;
    if pubs == [] {
      vs := [];
    } else {
      assert pubs[0] in pubs;
      assert forall f :: f in pubs[1..] ==> f in pubs;
      var rest := GatheredAdds(net, roots, n, pubs[1..], t);
      vs := [ContributionAt(net, roots, n, pubs[0], t)] + rest;
      assert vs[1..] == rest;
      ContributionAdds(net, roots, n, pubs[0], t);
    }
  }

  lemma ContributionAdds(net: Network, roots: Roots, n: nat, f: FilterId, t: TypeId)
    requires WellFormed(net) && ConcludesAt(net, roots, n, f, t)
    ensures Adds(net, roots, f, t, ContributionAt(net, roots, n, f, t))
  {
    hide WellFormed, ReadyAt, DoomedAt, ViewAt, IsView;
    NeverBoth(net, roots, f);
    if ReadyAt(net, roots, n, f) {
      assert Runs(net, roots, f);
      ViewFlags(net, roots, n, f);
      var view := ViewAt(net, roots, n, f);
      assert IsView(net, roots, f, view);
    } else {
      assert GivenUp(net, roots, f);
    }
  }

  /** A published type completes with what its publishers add, each once. */
  lemma ValueRule(net: Network, roots: Roots, t: TypeId, v: multiset<Value>)
    returns (pubs: seq<FilterId>, vs: seq<multiset<Value>>)
    requires WellFormed(net) && (exists f, a :: PublishesBy(net, f, a, t)) && Completes(net, roots, t, v)
    ensures Distinct(pubs) && forall f :: f in pubs <==> exists a :: PublishesBy(net, f, a, t)
    ensures |vs| == |pubs| && v == Total(vs)
    ensures forall i :: 0 <= i < |pubs| ==> Adds(net, roots, pubs[i], t, vs[i])
  {
    hide TypeAt, WellFormed, ConcludesAt, PublishesBy, Adds, Gathered;
    pubs := Publishers(net, t);
    PublishersDistinct(net, |net.filters|, t);
    forall f ensures f in pubs <==> exists a :: PublishesBy(net, f, a, t) { PublisherFlags(net, f, t); }
    var g, b :| PublishesBy(net, g, b, t);
    assert g in pubs;
    var n: nat :| TypeAt(net, roots, n, t) == Some(v);
    TypeAtStageZero(net, roots, t);
    TypeAtPublished(net, roots, n, t);
    vs := GatheredAdds(net, roots, n - 1, pubs, t);
  }

  // ---------------------------------------------------------------- a packet at rest

  /** The input has arrived: it was handed over by a pulse, or its type is complete, with a decoration where the
      input takes one value. */
  ghost predicate HasArrived(given: Given, slots: Slots, f: FilterId, a: Argument) {
    || (f in given && a.id in given[f])
    || (At(slots, a.id).phase == Complete && (!a.isMulti && !a.isShared ==> At(slots, a.id).decorations != []))
  }

  /** The filters called are those all of whose inputs have arrived. */
  ghost predicate CallsByFlags(plain: Network, given: Given, slots: Slots, calls: seq<FilterId>) {
    forall f :: f in calls <==>
      0 <= f < |plain.filters| &&
      forall a :: a in plain.filters[f].args && a.isInput && !a.isRvalue ==> HasArrived(given, slots, f, a)
  }

  lemma RestByFlags(plain: Network, given: Given, handed: set<FilterId>, s: State)
    requires WellFormed(plain) && GivenOk(plain, given, handed, s)
    requires Inv(Effective(plain, given), s) && Quiescent(Effective(plain, given), s)
    ensures CallsByFlags(plain, given, s.slots, s.calls)
  {
    hide Effective, WellFormed, GivenFits, SlotsOk, EmittedOk, SoundOk, CountersOk;
    var net := Effective(plain, given);
    forall f ensures f in s.calls <==>
      0 <= f < |plain.filters| &&
      forall a :: a in plain.filters[f].args && a.isInput && !a.isRvalue ==> HasArrived(given, s.slots, f, a)
    {
      if 0 <= f < |plain.filters| {
        if f in s.calls { CalledArrived(plain, given, s, f); }
        if forall a :: a in plain.filters[f].args && a.isInput && !a.isRvalue ==> HasArrived(given, s.slots, f, a) {
          ArrivedCalled(plain, given, s, f);
        }
      }
    }
  }

  lemma InputFlags(plain: Network, given: Given, f: FilterId, a: Argument)
    requires WellFormed(plain) && 0 <= f < |plain.filters| && a in plain.filters[f].args && a.isInput && !a.isRvalue
    ensures Consumes(Effective(plain, given), f, a.id) <==> !(f in given && a.id in given[f])
    ensures Consumes(Effective(plain, given), f, a.id) ==>
      (Needs(Effective(plain, given), f, a.id) <==> !a.isMulti && !a.isShared)
  {
    hide WellFormed, Effective;
    ArgumentsOf(plain, f);
    EffectiveArguments(plain, given, f, a.id);
  }

  lemma CalledArrived(plain: Network, given: Given, s: State, f: FilterId)
    requires WellFormed(plain) && Inv(Effective(plain, given), s) && f in s.calls && 0 <= f < |plain.filters|
    ensures forall a :: a in plain.filters[f].args && a.isInput && !a.isRvalue ==> HasArrived(given, s.slots, f, a)
  {
    hide Effective, WellFormed, SlotsOk, EmittedOk, SoundOk, CountersOk, Consumes, Needs;
    forall a | a in plain.filters[f].args && a.isInput && !a.isRvalue ensures HasArrived(given, s.slots, f, a) {
      InputFlags(plain, given, f, a);
    }
  }

  lemma ArrivedCalled(plain: Network, given: Given, s: State, f: FilterId)
    requires WellFormed(plain) && 0 <= f < |plain.filters|
    requires Inv(Effective(plain, given), s) && Quiescent(Effective(plain, given), s)
    requires forall a :: a in plain.filters[f].args && a.isInput && !a.isRvalue ==> HasArrived(given, s.slots, f, a)
    ensures f in s.calls
  {
    hide Effective, WellFormed, SlotsOk, EmittedOk, SoundOk, CountersOk, Needs, Consumes;
    var net := Effective(plain, given);
    forall t | Consumes(net, f, t)
      ensures Completed(s.slots, t) && (Needs(net, f, t) ==> At(s.slots, t).decorations != [])
    {
      var a := ConsumedInput(plain, given, f, t);
      InputFlags(plain, given, f, a);
      assert HasArrived(given, s.slots, f, a);
    }
    assert f in s.doomed ==> Starved(net, s.slots, f);
    forall t | Needs(net, f, t) ensures Consumes(net, f, t) { NeededIsConsumed(net, f, t); }
    forall t | Consumes(net, f, t) ensures (f, t) in s.delivered { assert !Untold(net, s, f, t); }
    assert !Queued(net, s, f);
  }

  lemma NeededIsConsumed(net: Network, f: FilterId, t: TypeId)
    requires Needs(net, f, t)
    ensures Consumes(net, f, t)
  {}

  lemma ConsumedInput(plain: Network, given: Given, f: FilterId, t: TypeId) returns (a: Argument)
    requires Consumes(Effective(plain, given), f, t) && 0 <= f < |plain.filters|
    ensures a in plain.filters[f].args && a.isInput && !a.isRvalue && a.id == t
  {
    hide Effective;
    EffectiveArguments(plain, given, f, t);
    a := ArgumentFor(plain.filters[f].args, t).value;
  }

  /** No filter was called with a plain input of a type that was decided without a value. */
  ghost predicate NoneWithoutValue(plain: Network, given: Given, roots: Roots, calls: seq<FilterId>) {
    forall f, a ::
      && 0 <= f < |plain.filters| && a in plain.filters[f].args
      && a.isInput && !a.isRvalue && !a.isMulti && !a.isShared
      && a.id in roots && roots[a.id] == None && !(f in given && a.id in given[f])
      ==> f !in calls
  }

  lemma RestWithoutValue(plain: Network, given: Given, s: State)
    requires CallsByFlags(plain, given, s.slots, s.calls)
    requires SlotsOk(Effective(plain, given), s.slots, s.roots, s.emitted)
    ensures NoneWithoutValue(plain, given, s.roots, s.calls)
  {
    hide Effective, Publishers, Concluded, Emitted;
    forall f, a |
      && 0 <= f < |plain.filters| && a in plain.filters[f].args
      && a.isInput && !a.isRvalue && !a.isMulti && !a.isShared
      && a.id in s.roots && s.roots[a.id] == None && !(f in given && a.id in given[f])
      ensures f !in s.calls
    {
      assert SlotOk(Effective(plain, given), s.slots, s.roots, s.emitted, a.id);
      assert |Values(s.slots, a.id)| == |At(s.slots, a.id).decorations|;
      assert !HasArrived(given, s.slots, f, a);
    }
  }

  // ---------------------------------------------------------------- what the filters called have seen and handed over

  /** The view of a filter: for each input what a pulse handed to it, or else the decorations of its type. */
  ghost predicate ViewByFlags(plain: Network, given: Given, slots: Slots, f: FilterId, view: View) {
    0 <= f < |plain.filters| &&
    forall t ::
      && (t in view <==> exists a :: a in plain.filters[f].args && a.isInput && !a.isRvalue && a.id == t)
      && (t in view ==>
            view[t] == if f in given && t in given[f] then given[f][t] else multiset(At(slots, t).decorations))
  }

  /** Each filter called has handed over what its body gives for its view, for every output that is not on demand
      or is asked for. */
  ghost predicate EmitsByFlags(plain: Network, given: Given, slots: Slots, calls: seq<FilterId>, emitted: Emissions) {
    forall f :: f in calls ==> exists view ::
      && ViewByFlags(plain, given, slots, f, view)
      && HandedOver(plain, f, view, emitted)
  }

  ghost predicate HandedOver(plain: Network, f: FilterId, view: View, emitted: Emissions) {
    forall a, t :: PublishesBy(plain, f, a, t) && (a.onDemand ==> Wanted(plain, t)) ==>
      (f, t) in emitted && HandsOver(plain.body(f, view, t), emitted[(f, t)])
  }

  lemma RestEmits(plain: Network, given: Given, handed: set<FilterId>, s: State)
    requires WellFormed(plain) && GivenOk(plain, given, handed, s)
    requires Inv(Effective(plain, given), s) && Quiescent(Effective(plain, given), s)
    ensures EmitsByFlags(plain, given, s.slots, s.calls, s.emitted)
  {
    hide Effective, WellFormed, GivenFits, SlotsOk, SoundOk, CountersOk, ViewByFlags, HandedOver, ViewNow, Seen;
    hide EmittedOk, DeliveredOk, DoomedOk;
    forall f | f in s.calls
      ensures exists view :: ViewByFlags(plain, given, s.slots, f, view) && HandedOver(plain, f, view, s.emitted)
    {
      var view := Seen(given, f, ViewNow(Effective(plain, given), s.slots, f));
      SeenFlags(plain, given, s.slots, f);
      CalledHandsOver(plain, given, s, f);
    }
  }

  lemma SeenFlags(plain: Network, given: Given, slots: Slots, f: FilterId)
    requires WellFormed(plain) && GivenFits(plain, given) && 0 <= f < |plain.filters|
    ensures ViewByFlags(plain, given, slots, f, Seen(given, f, ViewNow(Effective(plain, given), slots, f)))
  {
    hide Effective, WellFormed, Publishers, Consumes;
    ArgumentsOf(plain, f);
    forall t
      ensures Consumes(plain, f, t) <==> exists a :: a in plain.filters[f].args && a.isInput && !a.isRvalue && a.id == t
      ensures Consumes(Effective(plain, given), f, t) <==> Consumes(plain, f, t) && t !in GivenTypes(given, f)
    {
      EffectiveArguments(plain, given, f, t);
      InputOf(plain, f, t);
    }
  }

  lemma InputOf(plain: Network, f: FilterId, t: TypeId)
    requires WellFormed(plain) && 0 <= f < |plain.filters|
    ensures Consumes(plain, f, t) <==> exists a :: a in plain.filters[f].args && a.isInput && !a.isRvalue && a.id == t
  {
    hide WellFormed;
    ArgumentsOf(plain, f);
    if Consumes(plain, f, t) { assert ArgumentFor(plain.filters[f].args, t).value in plain.filters[f].args; }
  }

  lemma CalledHandsOver(plain: Network, given: Given, s: State, f: FilterId)
    requires WellFormed(plain) && GivenFits(plain, given) && f in s.calls
    requires Inv(Effective(plain, given), s) && Quiescent(Effective(plain, given), s)
    ensures HandedOver(plain, f, Seen(given, f, ViewNow(Effective(plain, given), s.slots, f)), s.emitted)
  {
    hide Effective, WellFormed, GivenFits, SlotsOk, SoundOk, CountersOk, ViewNow, Seen, Wanted, PublishesBy, Commits;
    hide Produces;
    var net := Effective(plain, given);
    var view := ViewNow(net, s.slots, f);
    forall a, t | PublishesBy(plain, f, a, t) && (a.onDemand ==> Wanted(plain, t))
      ensures (f, t) in s.emitted && HandsOver(plain.body(f, Seen(given, f, view), t), s.emitted[(f, t)])
    {
      WantedOutput(plain, given, f, a, t);
      assert !Owes(net, s, f, t);
      assert EmissionOk(net, s.slots, s.calls, s.doomed, f, t, s.emitted[(f, t)]);
      EffectiveBody(plain, given, f, view, t);
    }
  }

  lemma WantedOutput(plain: Network, given: Given, f: FilterId, a: Argument, t: TypeId)
    requires WellFormed(plain) && GivenFits(plain, given)
    requires PublishesBy(plain, f, a, t) && (a.onDemand ==> Wanted(plain, t))
    ensures Produces(Effective(plain, given), f, t) && Commits(Effective(plain, given), f, t)
  {
    hide Effective, WellFormed, GivenFits, Wanted, HasConsumer;
    PublisherFlags(plain, f, t);
    WantedFlags(plain, t);
    EffectiveCommits(plain, given, f, t);
    EffectiveArguments(plain, given, f, t);
  }

  // ---------------------------------------------------------------- pulses

  /** The filter was handed each immediate among its inputs: the value itself for an input that takes one value, and
      nothing to gather for one that is multi or shared. */
  ghost predicate HandedByFlags(plain: Network, given: Given, imms: Immeds, f: FilterId) {
    && 0 <= f < |plain.filters| && f in given
    && (forall a :: a in plain.filters[f].args && a.isInput && !a.isRvalue && a.id in imms ==>
          && a.id in given[f]
          && given[f][a.id] == if !a.isMulti && !a.isShared then multiset{imms[a.id]} else multiset{})
    && (forall t :: t in given[f] ==>
          t in imms && exists a :: a in plain.filters[f].args && a.isInput && !a.isRvalue && a.id == t)
  }

  lemma HandoutFlags(plain: Network, given: Given, imms: Immeds, f: FilterId)
    requires WellFormed(plain) && 0 <= f < |plain.filters| && f in given && given[f] == Handout(plain, imms, f)
    ensures HandedByFlags(plain, given, imms, f)
  {
    hide WellFormed;
    ArgumentsOf(plain, f);
    forall t | t in given[f]
      ensures t in imms && exists a :: a in plain.filters[f].args && a.isInput && !a.isRvalue && a.id == t
    {
      InputOf(plain, f, t);
    }
    forall a | a in plain.filters[f].args && a.isInput && !a.isRvalue && a.id in imms
      ensures a.id in given[f]
      ensures given[f][a.id] == if !a.isMulti && !a.isShared then multiset{imms[a.id]} else multiset{}
    {
      assert Consumes(plain, f, a.id);
    }
  }

  /** The filter takes part in a pulse, flag by flag. */
  ghost predicate PulsesByFlags(plain: Network, net: Network, roots: Roots, imms: Immeds, f: FilterId) {
    && 0 <= f < |plain.filters| && !plain.filters[f].deferred
    && (exists a :: a in plain.filters[f].args && a.isInput && !a.isRvalue && !a.isShared && a.id in imms)
    && (forall a :: a in plain.filters[f].args && a.isInput && !a.isRvalue ==>
          (a.id in imms && !a.isShared) || Satisfied(net, roots, a))
  }

  lemma PulsesFlags(plain: Network, net: Network, roots: Roots, imms: Immeds, f: FilterId)
    requires WellFormed(plain)
    ensures Pulses(plain, net, roots, imms, f) <==> PulsesByFlags(plain, net, roots, imms, f)
  {
    hide WellFormed, Completes;
    if 0 <= f < |plain.filters| {
      ArgumentsOf(plain, f);
      forall a | a in plain.filters[f].args && a.isInput && !a.isRvalue
        ensures Consumes(plain, f, a.id) && (Serves(plain, imms, f, a.id) <==> a.id in imms && !a.isShared)
        ensures Gets(plain, net, roots, f, a.id) <==> Satisfied(net, roots, a)
      {
        assert Needs(plain, f, a.id) <==> !a.isMulti && !a.isShared;
      }
      forall t | Consumes(plain, f, t)
        ensures exists a :: a in plain.filters[f].args && a.isInput && !a.isRvalue && a.id == t
      {
        InputOf(plain, f, t);
      }
    }
  }
}
