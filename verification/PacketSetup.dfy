/** Setting a packet up: the state before anything has happened, and which networks are accepted. */
module PacketSetup {
  import opened Prelude
  import opened FilterNetwork
  import opened PacketState
  import opened PacketSteps
  import opened Wiring
  import opened CycleGraph

  /** The number of input arguments, modifiers included. */
  function RequiredCount(args: seq<Argument>): nat {
    if args == [] then 0
    else RequiredCount(args[..|args| - 1]) + (if args[|args| - 1].isInput then 1 else 0)
  }

  lemma {:induction false} MissingSnoc(args: seq<Argument>, a: Argument, f: FilterId, d: Pairs)
    ensures Missing(args + [a], f, d) == Missing(args, f, d) + (if a.Subscribes() && (f, a.id) !in d then 1 else 0)
  {
    if args == [] {
      assert args + [a] == [a];
    } else {
      assert (args + [a])[1..] == args[1..] + [a];
      MissingSnoc(args[1..], a, f, d);
    }
  }

  /** Without modifiers the required count is the number of inputs to be delivered. */
  lemma {:induction false} RequiredIsMissing(args: seq<Argument>, f: FilterId)
    requires forall a :: a in args ==> !a.isRvalue
    ensures RequiredCount(args) == Missing(args, f, {})
  {
    if args != [] {
      var n := |args| - 1;
      assert args == args[..n] + [args[n]];
      assert args[n] in args;
      MissingSnoc(args[..n], args[n], f, {});
      RequiredIsMissing(args[..n], f);
    }
  }

  /** Nothing has happened to the packet: it only has counters and empty dispositions. */
  ghost predicate Pristine(filters: seq<Filter>, s: State) {
    && |s.remaining| == |filters|
    && (forall f :: 0 <= f < |filters| ==> s.remaining[f] == RequiredCount(filters[f].args))
    && (forall t :: At(s.slots, t) == EMPTY_SLOT)
    && s.roots == map[] && s.calls == [] && s.doomed == {} && s.delivered == {} && s.emitted == map[] && s.clock == 0
  }

  lemma {:induction false} NothingConcluded(pubs: seq<FilterId>, t: TypeId)
    ensures Concluded(pubs, t, map[]) == 0 && Emitted(pubs, t, map[]) == multiset{}
  {
    if pubs != [] { NothingConcluded(pubs[1..], t); }
  }

  lemma PristineInv(net: Network, s: State)
    requires WellFormed(net) && Pristine(net.filters, s)
    ensures Inv(net, s)
    ensures forall f :: Queued(net, s, f) <==> 0 <= f < |net.filters| && s.remaining[f] == 0
    ensures forall f, t :: !Owes(net, s, f, t) && !Untold(net, s, f, t)
  {
    hide TypeAt, Publishers, Produces, ArgumentFor, RequiredCount, Missing;
    forall f | 0 <= f < |net.filters|
      ensures s.remaining[f] == Missing(net.filters[f].args, f, {})
    {
      RequiredIsMissing(net.filters[f].args, f);
    }
    forall t ensures SlotOk(net, s.slots, s.roots, s.emitted, t) {
      NothingConcluded(Publishers(net, t), t);
    }
    forall f | 0 <= f < |net.filters|
      ensures s.remaining[f] == 0 <==> AllDelivered(net, s.delivered, f)
    {
      CounterZero(net, s.remaining, s.doomed, s.delivered, f);
    }
  }

  // ---------------------------------------------------------------- fully wired networks

  ghost predicate SubscribersMatch(net: Network, t: TypeId, subs: seq<Subscriber>) {
    && (forall i, j :: 0 <= i < j < |subs| ==> subs[i].counter != subs[j].counter)
    && (forall i :: 0 <= i < |subs| ==>
          && Consumes(net, subs[i].counter, t)
          && KindOf(net, subs[i].counter, t) == subs[i].kind
          && SharedInput(net, subs[i].counter, t) == subs[i].isShared)
    && (forall f :: Consumes(net, f, t) ==> exists i :: 0 <= i < |subs| && subs[i].counter == f)
  }

  /** The subscribers stand in the order of the altitudes of their filters. */
  ghost predicate AltitudesRise(filters: seq<Filter>, subs: seq<Subscriber>) {
    && (forall i :: 0 <= i < |subs| ==> 0 <= subs[i].counter < |filters|)
    && forall i, j :: 0 <= i < j < |subs| ==>
         filters[subs[i].counter].altitude <= filters[subs[j].counter].altitude
  }

  /** The dispositions are those of the whole network. */
  ghost predicate FullyWired(net: Network, lists: ListMap) {
    && (forall t :: t in lists ==>
          && lists[t].publishers == Publishers(net, t)
          && lists[t].modifiers == []
          && SubscribersMatch(net, t, lists[t].subscribers)
          && AltitudesRise(net.filters, lists[t].subscribers))
    && (forall f, t :: Produces(net, f, t) || Consumes(net, f, t) ==> t in lists)
  }

  /** What Initialize is given: arguments from the table, distinct types, no modifiers. */
  ghost predicate PlainFilter(x: Filter) {
    DistinctTypes(x.args) && forall a :: a in x.args ==> a.Tabled() && !a.isRvalue
  }

  ghost predicate PlainFilters(filters: seq<Filter>) {
    forall i :: 0 <= i < |filters| ==> PlainFilter(filters[i])
  }

  lemma WireOfConsumer(net: Network, f: FilterId, t: TypeId)
    requires PlainFilters(net.filters)
    ensures Consumes(net, f, t) ==>
              exists a :: (f, a) in FilterWires(net.filters, |net.filters|) && a.id == t && a.Subscribes() &&
                a.SubscriberKind() == KindOf(net, f, t)
  {
    if Consumes(net, f, t) {
      var a := ArgumentFor(net.filters[f].args, t).value;
      FilterWiresMembers(net.filters, |net.filters|, (f, a));
      assert (f, a) in FilterWires(net.filters, |net.filters|) && a.id == t && a.Subscribes();
    }
  }

  lemma ConsumerOfWire(net: Network, f: FilterId, a: Argument)
    requires PlainFilters(net.filters) && (f, a) in FilterWires(net.filters, |net.filters|)
    ensures 0 <= f < |net.filters| && a in net.filters[f].args && !a.isRvalue
    ensures a.Subscribes() ==>
      Consumes(net, f, a.id) && KindOf(net, f, a.id) == a.SubscriberKind() && SharedInput(net, f, a.id) == a.isShared
    ensures a.Publishes() ==> Produces(net, f, a.id)
  {
    FilterWiresMembers(net.filters, |net.filters|, (f, a));
    assert PlainFilter(net.filters[f]);
    var args := net.filters[f].args;
    var i :| 0 <= i < |args| && args[i] == a;
    ArgumentForFinds(args, i);
  }

  lemma WiredSubscribersMatch(net: Network, t: TypeId, subs: seq<Subscriber>)
    requires PlainFilters(net.filters)
    requires var w := FilterWires(net.filters, |net.filters|);
             WiresInRange(net.filters, w) && SubscribersOk(net.filters, w, t, subs)
    ensures SubscribersMatch(net, t, subs) && AltitudesRise(net.filters, subs)
  {
    hide FilterWires, Consumes, KindOf, SharedInput;
    var w := FilterWires(net.filters, |net.filters|);
    forall i | 0 <= i < |subs|
      ensures Consumes(net, subs[i].counter, t) && KindOf(net, subs[i].counter, t) == subs[i].kind
      ensures SharedInput(net, subs[i].counter, t) == subs[i].isShared
      ensures 0 <= subs[i].counter < |net.filters| && subs[i].altitude == net.filters[subs[i].counter].altitude
    {
      assert subs[i] in subs;
      var p :| p in w && p.1.id == t && p.1.Subscribes() && subs[i] == SubscriberFor(net.filters, p.0, p.1);
      assert p == (p.0, p.1);
      ConsumerOfWire(net, p.0, p.1);
    }
    forall i, j | 0 <= i < j < |subs| ensures subs[i].counter != subs[j].counter {
      assert subs[i].Before(subs[j]);
    }
    forall f | Consumes(net, f, t) ensures exists i :: 0 <= i < |subs| && subs[i].counter == f {
      WireOfConsumer(net, f, t);
      var a :| (f, a) in w && a.id == t && a.Subscribes();
      assert SubscriberFor(net.filters, (f, a).0, (f, a).1) in subs;
    }
  }

  lemma NoModifiers(net: Network, t: TypeId, mods: seq<Modifier>)
    requires PlainFilters(net.filters)
    requires var w := FilterWires(net.filters, |net.filters|);
             WiresInRange(net.filters, w) && ModifiersOk(net.filters, w, t, mods)
    ensures mods == []
  {
    hide FilterWires, ModifiersOk;
    var w := FilterWires(net.filters, |net.filters|);
    forall p | p in w ensures !p.1.isRvalue { ConsumerOfWire(net, p.0, p.1); }
    if mods != [] { ModifierHasWire(net.filters, w, t, mods); }
  }

  lemma ModifierHasWire(filters: seq<Filter>, w: Wires, t: TypeId, mods: seq<Modifier>)
    requires WiresInRange(filters, w) && ModifiersOk(filters, w, t, mods) && mods != []
    ensures exists p :: p in w && p.1.isRvalue
  {
    assert mods[0] in mods;
  }

  /** Once every argument is wired, the dispositions are those of the network, and the network is
      one the main theorems speak about. */
  lemma StructureIsFull(net: Network, lists: ListMap)
    requires PlainFilters(net.filters) && Structure(net.filters, FilterWires(net.filters, |net.filters|), lists)
    ensures FullyWired(net, lists) && WellFormed(net)
  {
    hide FilterWires, Consumes, Produces, Publishers, KindOf, SubscribersOk, ModifiersOk, SubscribersMatch;
    hide AltitudesRise;
    var w := FilterWires(net.filters, |net.filters|);
    forall t | t in lists
      ensures lists[t].publishers == Publishers(net, t) && lists[t].modifiers == []
      ensures SubscribersMatch(net, t, lists[t].subscribers) && AltitudesRise(net.filters, lists[t].subscribers)
    {
      assert ListOk(net.filters, w, lists, t);
      assert forall f :: 0 <= f < |net.filters| ==> DistinctTypes(net.filters[f].args) by {
        assert forall f :: 0 <= f < |net.filters| ==> PlainFilter(net.filters[f]);
      }
      FilterPublishers(net, |net.filters|, t);
      PublishersDef(net, t);
      NoModifiers(net, t, lists[t].modifiers);
      WiredSubscribersMatch(net, t, lists[t].subscribers);
    }
    forall f, t | Produces(net, f, t) || Consumes(net, f, t)
      ensures t in lists
    {
      UsedIsListed(net, lists, f, t);
    }
    assert PlainFilters(net.filters);
    forall f | 0 <= f < |net.filters| ensures PlainFilter(net.filters[f]) {}
    forall t, f | |Publishers(net, t)| > 1 && Consumes(net, f, t)
      ensures KindOf(net, f, t) == Multi
    {
      assert ListOk(net.filters, w, lists, t);
      ConsumerIsMulti(net, t, lists[t].subscribers, f);
    }
  }

  lemma ConsumerIsMulti(net: Network, t: TypeId, subs: seq<Subscriber>, f: FilterId)
    requires SubscribersMatch(net, t, subs) && Consumes(net, f, t) && forall x :: x in subs ==> x.kind == Multi
    ensures KindOf(net, f, t) == Multi
  {
    var i :| 0 <= i < |subs| && subs[i].counter == f;
    assert subs[i] in subs;
  }

  lemma UsedIsListed(net: Network, lists: ListMap, f: FilterId, t: TypeId)
    requires PlainFilters(net.filters) && Structure(net.filters, FilterWires(net.filters, |net.filters|), lists)
    requires Produces(net, f, t) || Consumes(net, f, t)
    ensures t in lists
  {
    var a := ArgumentFor(net.filters[f].args, t).value;
    FilterWiresMembers(net.filters, |net.filters|, (f, a));
    assert (f, a).1.id in lists;
  }

  // ---------------------------------------------------------------- which networks are accepted

  lemma {:induction false} FilterWiresSplit(filters: seq<Filter>, i: nat, k: nat) returns (rest: Wires)
    requires i <= k <= |filters|
    ensures FilterWires(filters, k) == FilterWires(filters, i) + rest
    decreases k
  {
    hide FilterWires, ArgumentWires;
    if i == k {
      rest := [];
    } else {
      var r := FilterWiresSplit(filters, i, k - 1);
      OneMoreFilter(filters, k - 1);
      rest := r + ArgumentWires(k - 1, filters[k - 1].args);
    }
  }

  lemma {:induction false} ArgumentWiresSplit(f: FilterId, args: seq<Argument>, j: nat) returns (rest: Wires)
    requires j <= |args|
    ensures ArgumentWires(f, args) == ArgumentWires(f, args[..j]) + rest
  {
    if j == |args| {
      assert args[..j] == args;
      rest := [];
    } else {
      var n := |args| - 1;
      assert args[..n][..j] == args[..j];
      var r := ArgumentWiresSplit(f, args[..n], j);
      rest := r + [(f, args[n])];
    }
  }

  /** The wires when argument `j` of filter `i` is entered are an initial part of all wires. */
  lemma WiresAreInitial(filters: seq<Filter>, i: nat, j: nat) returns (rest: Wires)
    requires i < |filters| && j < |filters[i].args|
    ensures FilterWires(filters, |filters|) ==
            FilterWires(filters, i) + ArgumentWires(i, filters[i].args[..j]) + [(i, filters[i].args[j])] + rest
  {
    hide FilterWires, ArgumentWires;
    var args := filters[i].args;
    var later := FilterWiresSplit(filters, i + 1, |filters|);
    var more := ArgumentWiresSplit(i, args, j + 1);
    OneMoreFilter(filters, i);
    ArgumentWiresNext(i, args, j);
    rest := more + later;
  }

  lemma OneMoreFilter(filters: seq<Filter>, i: nat)
    requires i < |filters|
    ensures FilterWires(filters, i + 1) == FilterWires(filters, i) + ArgumentWires(i, filters[i].args)
  {}

  lemma ArgumentWiresNext(f: FilterId, args: seq<Argument>, j: nat)
    requires j < |args|
    ensures ArgumentWires(f, args[..j + 1]) == ArgumentWires(f, args[..j]) + [(f, args[j])]
  {
    assert args[..j + 1][..j] == args[..j];
  }

  /** A refused argument means a type with several publishers and a listener that takes only one. */
  lemma ClashMeansIllFormed(net: Network, filters: seq<Filter>, w: Wires, lists: ListMap, i: nat, j: nat)
    requires PlainFilters(net.filters) && i < |net.filters| && j < |net.filters[i].args|
    requires filters == net.filters[..i + 1]
    requires w == FilterWires(net.filters, i) + ArgumentWires(i, net.filters[i].args[..j])
    requires Structure(filters, w, lists)
    requires var a := net.filters[i].args[j];
             Clash(filters, if a.id in lists then lists[a.id] else NO_LISTS, i, a)
    ensures !WellFormed(net)
  {
    hide FilterWires, ArgumentWires, Consumes, KindOf, Produces, Publishers, WiredPublishers, Sorted, WellFormed;
    hide MultiplicityOk;
    var a := net.filters[i].args[j];
    var all := FilterWires(net.filters, |net.filters|);
    var rest := WiresAreInitial(net.filters, i, j);
    assert forall p :: p in w ==> p in all;
    assert (i, a) in all;
    ConsumerOfWire(net, i, a);
    assert a.id in lists;
    assert ListOk(filters, w, lists, a.id);
    var l := lists[a.id];
    FewerPublishers(net, w, i, a, rest);
    if a.isInput {
      SinglePublisherOnly(net, i, a.id);
    } else {
      NoModifiersYet(net, filters, w, all, a.id, l.modifiers);
      var x :| x in l.subscribers && x.kind != Multi;
      var p :| p in w && p.1.id == a.id && p.1.Subscribes() && x == SubscriberFor(filters, p.0, p.1);
      assert p == (p.0, p.1);
      ConsumerOfWire(net, p.0, p.1);
      SinglePublisherOnly(net, p.0, a.id);
    }
  }

  lemma SinglePublisherOnly(net: Network, f: FilterId, t: TypeId)
    requires Consumes(net, f, t) && KindOf(net, f, t) != Multi && |Publishers(net, t)| > 1
    ensures !WellFormed(net)
  {}

  lemma NoModifiersYet(net: Network, filters: seq<Filter>, w: Wires, all: Wires, t: TypeId, mods: seq<Modifier>)
    requires PlainFilters(net.filters) && all == FilterWires(net.filters, |net.filters|)
    requires WiresInRange(filters, w) && ModifiersOk(filters, w, t, mods)
    requires forall p :: p in w ==> p in all
    ensures mods == []
  {
    hide FilterWires, ModifiersOk;
    forall p | p in w ensures !p.1.isRvalue { ConsumerOfWire(net, p.0, p.1); }
    if mods != [] { ModifierHasWire(filters, w, t, mods); }
  }

  lemma FewerPublishers(net: Network, w: Wires, f: FilterId, a: Argument, rest: Wires)
    requires PlainFilters(net.filters)
    requires FilterWires(net.filters, |net.filters|) == w + [(f, a)] + rest
    ensures |WiredPublishers(w, a.id)| + (if a.Publishes() then 1 else 0) <= |Publishers(net, a.id)|
  {
    hide FilterWires, WiredPublishers, Publishers;
    assert forall g :: 0 <= g < |net.filters| ==> DistinctTypes(net.filters[g].args) by {
      assert forall g :: 0 <= g < |net.filters| ==> PlainFilter(net.filters[g]);
    }
    FilterPublishers(net, |net.filters|, a.id);
    PublishersDef(net, a.id);
    WiredPublishersConcat(w + [(f, a)], rest, a.id);
    PublishersNext(w, f, a, a.id);
  }

  /** A cycle among the filters added so far is a cycle of the whole network. */
  lemma CycleStays(filters: seq<Filter>, i: nat)
    requires i < |filters|
    requires CycleReachable(WiredGraph(filters[..i + 1], FilterWires(filters, i + 1)), i)
    ensures CycleReachable(WiredGraph(filters, FilterWires(filters, |filters|)), i)
  {
    hide FilterWires, Fed;
    var g := WiredGraph(filters[..i + 1], FilterWires(filters, i + 1));
    var g' := WiredGraph(filters, FilterWires(filters, |filters|));
    var rest := FilterWiresSplit(filters, i + 1, |filters|);
    var w :| IsWalk(g, w) && w[0] == i && Repeats(w);
    forall m | m in g ensures m in g' && g[m] <= g'[m] {
      FedConcat(FilterWires(filters, i + 1), rest, filters[m].args);
    }
    WalkInLarger(g, g', w);
  }

  lemma WalkInLarger(g: Graph, g': Graph, w: seq<Node>)
    requires IsWalk(g, w) && forall m :: m in g ==> m in g' && g[m] <= g'[m]
    ensures IsWalk(g', w)
  {
    forall i | 0 <= i < |w|
      ensures w[i] in g'
      ensures i + 1 < |w| ==> w[i + 1] in g'[w[i]]
    {
      var m := w[i];
      assert m in g;
      assert m in g' && g[m] <= g'[m];
      assert i + 1 < |w| ==> w[i + 1] in g[m];
    }
  }

  lemma {:induction false} FilterWiresPrefix(filters: seq<Filter>, i: nat, k: nat)
    requires k <= i <= |filters|
    ensures FilterWires(filters[..i], k) == FilterWires(filters, k)
  {
    if k > 0 { FilterWiresPrefix(filters, i, k - 1); }
  }
}
