/** A packet whose only filter takes two optional inputs, one of which is marked twice. */
module MarkTwiceRun {
  import opened Prelude
  import opened FilterNetwork
  import opened PacketState
  import opened PacketSteps
  import opened PacketOutcome
  import opened PacketSetup
  import opened PacketFacts
  import opened Wiring
  import opened CycleGraph
  import opened MarkTwice
  import opened Notification
  import opened SatCounters
  import opened AutoPackets

  const SHARED_INPUT := Argument(0, true, false, false, true, false, false)
  const TWO_OPTIONALS := Filter([SHARED_INPUT, SHARED_INPUT.(id := 1)], 0, false)

  function Pair(body: Body): Network { Network([TWO_OPTIONALS], body) }

  lemma PairInputs(body: Body)
    ensures forall f, t :: Consumes(Pair(body), f, t) <==> f == 0 && (t == 0 || t == 1)
    ensures forall f, t :: Consumes(Pair(body), f, t) ==> KindOf(Pair(body), f, t) == Optional
    ensures forall f, t :: !Produces(Pair(body), f, t)
  {
    var args := TWO_OPTIONALS.args;
    assert args[1..] == [SHARED_INPUT.(id := 1)] && args[1..][1..] == [];
    forall t ensures ArgumentFor(args, t) == if t == 0 then Some(args[0]) else if t == 1 then Some(args[1]) else None {}
  }

  /** The packet accepts the network. */
  lemma PairIsFine(body: Body)
    ensures PlainFilters([TWO_OPTIONALS]) && WellFormed(Pair(body))
    ensures Acyclic(WiredGraph([TWO_OPTIONALS], FilterWires([TWO_OPTIONALS], 1)))
    ensures forall t :: Publishers(Pair(body), t) == []
  {
    hide FilterWires, Publishers;
    PairInputs(body);
    assert PlainFilter(TWO_OPTIONALS);
    forall t ensures Publishers(Pair(body), t) == [] { NoPublishers(Pair(body), t); }
    var w := FilterWires([TWO_OPTIONALS], 1);
    assert Fed(w, TWO_OPTIONALS.args) == {};
    var g := WiredGraph([TWO_OPTIONALS], w);
    NoEdgesNoCycle(g);
  }

  lemma NoEdgesNoCycle(g: Graph)
    requires forall n :: n in g ==> g[n] == {}
    ensures Acyclic(g)
  {
    forall n | n in g ensures !CycleReachable(g, n) { LeafHasNoCycle(g, n); }
  }

  /** With one of its inputs marked, the filter waits for the other. */
  lemma WaitsForOne(body: Body, s: State)
    requires Inv(Pair(body), s) && Quiescent(Pair(body), s) && s.roots == map[0 := None]
    ensures Completed(s.slots, 0) && !Completed(s.slots, 1) && (0, 1) !in s.delivered
    ensures 0 !in s.doomed && s.remaining == [1] && StillWaits(Pair(body), s, 0, 0)
  {
    hide Missing, SoundOk, EmittedOk, Publishers, ArgumentFor;
    var net := Pair(body);
    PairIsFine(body);
    PairInputs(body);
    RootCompletes(net, s, 0);
    RootCompletes(net, s, 1);
    assert 0 in s.doomed ==> Starved(net, s.slots, 0);
    CountersAtRest(net, s, 0);
    var args := TWO_OPTIONALS.args;
    assert args[1..] == [args[1]] && args[1..][1..] == [];
    assert OpenInputs(args[1..], s.slots) == 1;
  }

  lemma PacketLists(packet: AutoPacket, body: Body)
    requires packet.AtRest() && packet.plain == Pair(body)
    ensures 0 in packet.lists && packet.lists[0].modifiers == []
    ensures SubscribersMatch(Pair(body), 0, packet.lists[0].subscribers)
  {
    hide AutoPacket.Linked, Inv, Quiescent, WellFormed, Publishers, KindOf, SharedInput, GivenOk;
    PairInputs(body);
    assert Consumes(packet.plain, 0, 0);
  }

  /** The filter is called after its first input was marked twice, though nothing was said about the second. */
  method CalledTooEarly(body: Body) returns (packet: AutoPacket, callQueue: seq<FilterId>, ghost s: State)
    ensures packet.plain == Pair(body) && WellFormed(Pair(body)) && Inv(Pair(body), s) && Quiescent(Pair(body), s)
    ensures Completed(s.slots, 0) && (0, 1) !in s.delivered && StillWaits(Pair(body), s, 0, 0)
    ensures packet.counters != [] && packet.counters[0].remaining == 0 && 0 in callQueue
    ensures !Completed(packet.history.slots, 1)
  {
    hide WellFormed, Inv, Quiescent, Acyclic, FilterWires, WiredGraph, PlainFilters, IsOutcome, Publishers, Structure;
    hide AutoPacket.AtRest, AutoPacket.Linked, FullyWired, Consumes, KindOf, SubscribersMatch, StillWaits,
      ToldAll, AutoPacket.CalledByFlags;
    PairIsFine(body);
    packet := new AutoPacket(body);
    var status := packet.Initialize([TWO_OPTIONALS]);
    PacketLists(packet, body);
    packet.MarkUnsatisfiable(0);
    RestFacts(packet, body);
    s := packet.history;
    WaitsForOne(body, s);
    PacketLists(packet, body);
    var unsat;
    status, callQueue, unsat := packet.MarkAny(0);
    CalledNow(body, packet.lists[0], packet.history.remaining, callQueue, unsat);
    packet.LinkedKeys();
    packet.LinkedFilter(0);
  }

  lemma RestFacts(packet: AutoPacket, body: Body)
    requires packet.AtRest() && packet.plain == Pair(body) == packet.net && packet.FiltersOk()
    ensures packet.Linked() && Inv(Pair(body), packet.history) && Quiescent(Pair(body), packet.history)
  {
    hide AutoPacket.Linked, Inv, Quiescent, WellFormed, FullyWired, GivenOk, Publishers;
  }

  /** Telling the subscribers of type 0 calls the filter that waits for one input. */
  lemma CalledNow(body: Body, l: Lists, after: seq<nat>, queue: seq<FilterId>, unsat: seq<(FilterId, TypeId)>)
    requires SubscribersMatch(Pair(body), 0, l.subscribers) && l.modifiers == []
    requires ToldAll(Pair(body).filters, l, 0, [1], after, queue, unsat)
    ensures 0 in queue && |after| == 1 && after[0] == 0
  {
    hide ArgumentFor, SharedInput, QueueOf, Listeners;
    PairInputs(body);
    assert Consumes(Pair(body), 0, 0);
    SubscriberOf(Pair(body), 0, l.subscribers, 0);
  }
}
