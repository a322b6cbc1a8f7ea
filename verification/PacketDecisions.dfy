/** Decisions of the caller about types that no filter publishes. */
module PacketDecisions {
  import opened Prelude
  import opened FilterNetwork
  import opened PacketState
  import opened PacketOutcome
  import opened PacketFacts

  /** A decision of the caller: a pointer to attach, or none to mark the type unsatisfiable. */
  datatype Decision = Decision(t: TypeId, ptr: Option<Emission>)
  {
    function Root(): Option<Value> { if ptr.Some? then AsRoot(ptr.value) else None }
  }

  /** What is decided after these decisions: a second attempt to decorate a type is refused. */
  ghost function Decided(roots: Roots, decisions: seq<Decision>): Roots {
    if decisions == [] then roots
    else
      var d := decisions[|decisions| - 1];
      var r := Decided(roots, decisions[..|decisions| - 1]);
      if d.t in r then r else r[d.t := d.Root()]
  }

  /** Decisions on types that no filter publishes; a type is marked only if nothing was decided about it. */
  ghost predicate OnRoots(net: Network, roots: Roots, decisions: seq<Decision>) {
    forall i :: 0 <= i < |decisions| ==>
      && Publishers(net, decisions[i].t) == []
      && (decisions[i].ptr == None ==> decisions[i].t !in Decided(roots, decisions[..i]))
  }

  lemma DecidedNext(roots: Roots, decisions: seq<Decision>, i: nat)
    requires i < |decisions|
    ensures var d, r := decisions[i], Decided(roots, decisions[..i]);
            Decided(roots, decisions[..i + 1]) == if d.t in r then r else r[d.t := d.Root()]
  {
    assert decisions[..i + 1][..i] == decisions[..i];
  }

  /** Decisions on types about which nothing was decided, each on another type. */
  ghost predicate DistinctDecisions(roots: Roots, decisions: seq<Decision>) {
    && (forall d :: d in decisions ==> d.t !in roots)
    && forall i, j :: 0 <= i < j < |decisions| ==> decisions[i].t != decisions[j].t
  }

  lemma {:induction false} DecidedAt(roots: Roots, decisions: seq<Decision>, t: TypeId)
    requires DistinctDecisions(roots, decisions)
    ensures t in Decided(roots, decisions) <==> t in roots || exists d :: d in decisions && d.t == t
    ensures t in roots ==> t in Decided(roots, decisions) && Decided(roots, decisions)[t] == roots[t]
    ensures forall d :: d in decisions && d.t == t ==>
              t in Decided(roots, decisions) && Decided(roots, decisions)[t] == d.Root()
  {
    if decisions != [] {
      var n := |decisions| - 1;
      assert decisions == decisions[..n] + [decisions[n]];
      assert forall d :: d in decisions <==> d in decisions[..n] || d == decisions[n];
      DecidedAt(roots, decisions[..n], t);
      DecidedAt(roots, decisions[..n], decisions[n].t);
      forall d | d in decisions[..n] ensures d.t != decisions[n].t {
        var i :| 0 <= i < n && decisions[..n][i] == d;
        assert decisions[i].t != decisions[n].t;
      }
    }
  }

  /** The order of decisions does not matter for what is decided. */
  lemma OrderOfDecisions(roots: Roots, a: seq<Decision>, b: seq<Decision>)
    requires DistinctDecisions(roots, a) && DistinctDecisions(roots, b) && forall d :: d in a <==> d in b
    ensures Decided(roots, a) == Decided(roots, b)
  {
    forall t
      ensures t in Decided(roots, a) <==> t in Decided(roots, b)
      ensures t in Decided(roots, a) ==> Decided(roots, a)[t] == Decided(roots, b)[t]
    {
      DecidedAt(roots, a, t);
      DecidedAt(roots, b, t);
    }
  }

  /** Decisions on distinct types may be given in any order. */
  lemma DistinctOnRoots(net: Network, roots: Roots, decisions: seq<Decision>)
    requires DistinctDecisions(roots, decisions)
    requires forall d :: d in decisions ==> Publishers(net, d.t) == []
    ensures OnRoots(net, roots, decisions)
  {
    hide Publishers;
    forall i | 0 <= i < |decisions| ensures decisions[i].t !in Decided(roots, decisions[..i]) {
      assert forall d :: d in decisions[..i] ==> d in decisions;
      DecidedAt(roots, decisions[..i], decisions[i].t);
      assert decisions[i] in decisions;
    }
  }

  /** Two packets with the same outcome have run the same filters and hold the same decorations. */
  ghost predicate Agree(s: State, s': State) {
    && multiset(s.calls) == multiset(s'.calls)
    && (forall t :: Completed(s.slots, t) <==> Completed(s'.slots, t))
    && (forall t :: Completed(s.slots, t) ==> Values(s.slots, t) == Values(s'.slots, t))
  }

  lemma OutcomesAgree(net: Network, roots: Roots, s: State, s': State)
    requires IsOutcome(net, roots, s) && IsOutcome(net, roots, s')
    ensures Agree(s, s')
  {
    hide Runs, Completes;
    DistinctMultisets(s.calls, s'.calls);
    forall t | Completed(s.slots, t) ensures Completed(s'.slots, t) && Values(s.slots, t) == Values(s'.slots, t) {
      assert Completes(net, roots, t, Values(s.slots, t));
    }
    forall t | Completed(s'.slots, t) ensures Completed(s.slots, t) {
      assert Completes(net, roots, t, Values(s'.slots, t));
    }
  }
}
