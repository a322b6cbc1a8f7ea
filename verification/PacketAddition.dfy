/** What adding a filter does to a packet, as values. */
module PacketAddition {
  import opened Prelude
  import opened FilterNetwork
  import opened PacketState
  import opened PacketSteps
  import opened PacketPropagation
  import opened PacketSetup
  import opened Wiring
  import opened CycleGraph

  /** A subscriber is multi exactly when every argument of its filter of that type is. */
  lemma SubscriberArgument(filters: seq<Filter>, w: Wires, lists: ListMap, t: TypeId, i: nat)
    requires Structure(filters, w, lists) && t in lists && i < |lists[t].subscribers|
    requires forall f :: 0 <= f < |filters| ==> DistinctTypes(filters[f].args)
    ensures var x := lists[t].subscribers[i];
            && 0 <= x.counter < |filters|
            && (x.kind == Multi <==>
                  forall k :: 0 <= k < |filters[x.counter].args| && filters[x.counter].args[k].id == t ==>
                    filters[x.counter].args[k].isMulti)
  {
    hide WiredPublishers, Sorted, MultiplicityOk, ModifiersOk;
    assert ListOk(filters, w, lists, t);
    var x := lists[t].subscribers[i];
    assert x in lists[t].subscribers;
    var p :| p in w && p.1.id == t && p.1.Subscribes() && x == SubscriberFor(filters, p.0, p.1);
    var args := filters[p.0].args;
    var n :| 0 <= n < |args| && args[n] == p.1;
    forall k | 0 <= k < |args| && args[k].id == t ensures k == n {
      SameArgument(args, k, n);
    }
  }

  lemma ModifierRange(filters: seq<Filter>, w: Wires, lists: ListMap, t: TypeId, i: nat)
    requires Structure(filters, w, lists) && t in lists && i < |lists[t].modifiers|
    ensures 0 <= lists[t].modifiers[i].counter < |filters|
  {
    hide WiredPublishers, Sorted, MultiplicityOk, SubscribersOk;
    assert ListOk(filters, w, lists, t);
    var x := lists[t].modifiers[i];
    assert x in lists[t].modifiers;
  }

  lemma SameArgument(args: seq<Argument>, i: nat, j: nat)
    requires DistinctTypes(args) && i < |args| && j < |args| && args[i].id == args[j].id
    ensures i == j
  {}

  /** An input added after its type was completed: whether it counts as delivered at once. */
  predicate DeliveredOnArrival(slots: Slots, a: Argument) {
    a.isInput && Completed(slots, a.id) && (At(slots, a.id).decorations != [] || a.isShared)
  }

  ghost function WithEntry(s: State, t: TypeId): State {
    if t in s.slots then s else s.(slots := s.slots[t := EMPTY_SLOT])
  }

  /** The state after one more argument of `f` was added. */
  ghost function Arrived(s: State, f: FilterId, a: Argument): State
    requires 0 <= f < |s.remaining|
  {
    var s' := WithEntry(s, a.id);
    if DeliveredOnArrival(s.slots, a) && s.remaining[f] > 0 then Deliver(s', f, a.id) else s'
  }

  lemma ArrivedAfterEntry(s: State, f: FilterId, a: Argument)
    requires 0 <= f < |s.remaining|
    ensures Arrived(WithEntry(s, a.id), f, a) == Arrived(s, f, a)
  {}

  lemma ClashTest(filters: seq<Filter>, l: Lists, f: FilterId, a: Argument)
    requires 0 <= f < |filters|
    ensures a.isInput && |l.publishers| > 1 && !a.isMulti ==> Clash(filters, l, f, a)
  {}

  /** Entering the arguments of `f` stopped at argument `j`. */
  ghost predicate RefusedAt(filters: seq<Filter>, before: Wires, w: Wires, lists: ListMap, f: FilterId, j: nat) {
    && 0 <= f < |filters| && j < |filters[f].args|
    && w == before + ArgumentWires(f, filters[f].args[..j])
    && Clash(filters, ListOf(lists, filters[f].args[j].id), f, filters[f].args[j])
  }

  ghost predicate Refused(filters: seq<Filter>, before: Wires, w: Wires, lists: ListMap, f: FilterId) {
    exists j: nat :: RefusedAt(filters, before, w, lists, f, j)
  }

  lemma RefusedHere(filters: seq<Filter>, before: Wires, w: Wires, lists: ListMap, f: FilterId, j: nat)
    requires 0 <= f < |filters| && j < |filters[f].args|
    requires w == before + ArgumentWires(f, filters[f].args[..j])
    requires Clash(filters, ListOf(lists, filters[f].args[j].id), f, filters[f].args[j])
    ensures Refused(filters, before, w, lists, f)
  {
    hide Clash, ArgumentWires;
    assert RefusedAt(filters, before, w, lists, f, j);
  }

  lemma EntryIsEmpty(s: State, t: TypeId)
    ensures forall u :: At(WithEntry(s, t).slots, u) == At(s.slots, u)
  {}

  /** A packet on which nothing has been completed takes another filter without delivering anything. */
  lemma {:induction false} ArrivedPristine(s: State, f: FilterId, args: seq<Argument>)
    requires 0 <= f < |s.remaining| && forall t :: At(s.slots, t) == EMPTY_SLOT
    ensures var r := ArrivedAll(s, f, args);
            && r.remaining == s.remaining && r.roots == s.roots && r.calls == s.calls && r.doomed == s.doomed
            && r.delivered == s.delivered && r.emitted == s.emitted && r.clock == s.clock
    ensures forall t :: At(ArrivedAll(s, f, args).slots, t) == EMPTY_SLOT
  {
    if args != [] {
      var n := |args| - 1;
      ArrivedPristine(s, f, args[..n]);
      var r := ArrivedAll(s, f, args[..n]);
      assert At(r.slots, args[n].id) == EMPTY_SLOT;
      assert Arrived(r, f, args[n]) == WithEntry(r, args[n].id);
      EntryIsEmpty(r, args[n].id);
    }
  }

  lemma PristineNext(filters: seq<Filter>, s: State, x: Filter)
    requires Pristine(filters, s)
    ensures Pristine(filters + [x], ArrivedAll(WithCounter(s, x), |filters|, x.args))
  {
    hide RequiredCount, ArrivedAll;
    ArrivedPristine(WithCounter(s, x), |filters|, x.args);
  }

  lemma RefusedMeansIllFormed(net: Network, w: Wires, lists: ListMap, i: nat)
    requires PlainFilters(net.filters) && i < |net.filters|
    requires Structure(net.filters[..i + 1], w, lists)
    requires Refused(net.filters[..i + 1], FilterWires(net.filters, i), w, lists, i)
    ensures !WellFormed(net)
  {
    hide Structure, WellFormed, Clash, FilterWires, ArgumentWires;
    var j: nat :| RefusedAt(net.filters[..i + 1], FilterWires(net.filters, i), w, lists, i, j);
    assert net.filters[..i + 1][i] == net.filters[i];
    ClashMeansIllFormed(net, net.filters[..i + 1], w, lists, i, j);
  }

  lemma FedNone(w: Wires)
    ensures Fed(w, []) == {}
  {}

  lemma WiredGraphClosed(filters: seq<Filter>, w: Wires, lists: ListMap)
    requires Structure(filters, w, lists)
    ensures Closed(WiredGraph(filters, w))
  {
    GraphClosed(filters, w);
  }

  lemma StructureRange(filters: seq<Filter>, w: Wires, lists: ListMap)
    requires Structure(filters, w, lists)
    ensures WiresInRange(filters, w)
  {}

  /** The state with the counter of one more filter. */
  ghost function WithCounter(s: State, filter: Filter): State {
    s.(remaining := s.remaining + [RequiredCount(filter.args)])
  }

  ghost function ArrivedAll(s: State, f: FilterId, args: seq<Argument>): (r: State)
    requires 0 <= f < |s.remaining|
    ensures |r.remaining| == |s.remaining|
  {
    if args == [] then s else Arrived(ArrivedAll(s, f, args[..|args| - 1]), f, args[|args| - 1])
  }

  lemma ArrivedAllNext(s: State, f: FilterId, args: seq<Argument>, i: nat)
    requires 0 <= f < |s.remaining| && i < |args|
    ensures ArrivedAll(s, f, args[..i + 1]) == Arrived(ArrivedAll(s, f, args[..i]), f, args[i])
  {
    assert args[..i + 1][..i] == args[..i];
  }

  lemma ArgumentWiresNone(f: FilterId)
    ensures forall w: Wires :: w + ArgumentWires(f, []) == w
  {}

  lemma ArrivedNone(s: State, f: FilterId)
    requires 0 <= f < |s.remaining|
    ensures ArrivedAll(s, f, []) == s
  {}

  /** A filter being added has not wired the type of its next argument. */
  lemma ArgumentNotWired(filters: seq<Filter>, w: Wires, f: FilterId, args: seq<Argument>, i: nat)
    requires WiresInRange(filters, w) && f == |filters| && DistinctTypes(args) && i < |args|
    ensures forall p :: p in w + ArgumentWires(f, args[..i]) && p.0 == f ==> p.1.id != args[i].id
  {
    forall p | p in w + ArgumentWires(f, args[..i]) && p.0 == f
      ensures p.1.id != args[i].id
    {
      assert p in ArgumentWires(f, args[..i]);
      var j :| 0 <= j < i && args[..i][j] == p.1;
      assert args[j].id != args[i].id;
    }
  }

  ghost function ListOf(lists: ListMap, t: TypeId): Lists {
    if t in lists then lists[t] else NO_LISTS
  }

  lemma BlankFacts(filters: seq<Filter>, w: Wires, lists: ListMap, s: State)
    requires w == [] && lists == map[] && s == EMPTY_STATE
    ensures Structure([], w, lists) && FilterWires(filters, 0) == [] && filters[..0] == []
    ensures Pristine([], s) && Acyclic(WiredGraph([], []))
  {}

  lemma PlainFilterFacts(filters: seq<Filter>, i: nat)
    requires PlainFilters(filters) && i < |filters|
    ensures DistinctTypes(filters[i].args) && forall a :: a in filters[i].args ==> a.Tabled()
  {
    assert PlainFilter(filters[i]);
  }

  lemma AcyclicHere(g: Graph, n: Node, filters: seq<Filter>)
    requires CycleReachable(g, n) && n in g
    ensures !Acyclic(g)
  {}

  lemma CountersPristine(filters: seq<Filter>, s: State)
    requires Pristine(filters, s)
    ensures |s.remaining| == |filters|
    ensures forall f :: 0 <= f < |filters| ==> s.remaining[f] == RequiredCount(filters[f].args)
  {}

  lemma PristineStarts(net: Network, s: State, queue: seq<FilterId>)
    requires WellFormed(net) && Pristine(net.filters, s) && Distinct(queue)
    requires |s.remaining| == |net.filters| && forall f :: f in queue <==> 0 <= f < |net.filters| && s.remaining[f] == 0
    ensures Starting(net, s, queue) && s.roots == map[] && s.calls == []
  {
    hide Inv, Queued, Owes, Untold, RequiredCount, WellFormed;
    PristineInv(net, s);
  }

  lemma StartingFacts(net: Network, s: State, queue: seq<FilterId>)
    requires Starting(net, s, queue)
    ensures Inv(net, s)
  {}
}
