/** The AutoFilter network as data: what each filter consumes and produces, and the
    declarative meaning of running it.

    A packet runs its filters incrementally, with counters and re-entrant calls. What a run is
    supposed to compute is defined here without any of that, as the least fixed point of three
    rules, reached in stages:
      - a type nobody publishes is complete once the caller has decorated or marked it;
      - a filter is ready once every input is complete and every Normal input has a value, and
        doomed once some Normal input is complete without one;
      - a published type is complete once each publisher is ready (and commits it) or doomed. */
module FilterNetwork {
  import opened Prelude

  type TypeId = int
  type FilterId = int
  type Value = int

  datatype Kind = Normal | Optional | Multi

  /** One row of the argument table of a filter. `onDemand` marks the output form that commits
      only when the type has a subscriber. */
  datatype Argument = Argument(
    id: TypeId, isInput: bool, isOutput: bool, isRvalue: bool, isShared: bool, isMulti: bool, onDemand: bool)
  {
    predicate Subscribes() { isInput && !isRvalue }
    predicate Publishes() { isOutput && !isRvalue }
    function SubscriberKind(): Kind { if isMulti then Multi else if isShared then Optional else Normal }

    /** The shapes an argument can take: an input, an output, a modifier (both at once), or none. */
    predicate Tabled() {
      && (isRvalue ==> isInput && isOutput && !isMulti)
      && (isInput && isOutput ==> isRvalue)
      && (isMulti ==> isInput && !isShared)
      && (onDemand ==> isOutput && isShared && !isRvalue)
    }
  }

  datatype Filter = Filter(args: seq<Argument>, altitude: int, deferred: bool)

  /** What a filter hands back for one output: a null pointer or a decoration. */
  datatype Emission = Null | Item(value: Value)
  {
    function Values(): multiset<Value> { match this case Null => multiset{} case Item(v) => multiset{v} }
  }

  /** What a filter sees: the decorations of each of its input types. */
  type View = map<TypeId, multiset<Value>>
  type Body = (FilterId, View, TypeId) -> Emission

  datatype Network = Network(filters: seq<Filter>, body: Body)

  /** The argument of a filter that has the given type. */
  function ArgumentFor(args: seq<Argument>, t: TypeId): (r: Option<Argument>)
    ensures r.Some? ==> r.value in args && r.value.id == t
    ensures r.None? ==> forall a :: a in args ==> a.id != t
  {
    if args == [] then None
    else if args[0].id == t then Some(args[0])
    else ArgumentFor(args[1..], t)
  }

  predicate DistinctTypes(args: seq<Argument>) {
    forall i, j :: 0 <= i < j < |args| ==> args[i].id != args[j].id
  }

  lemma {:induction false} ArgumentForFinds(args: seq<Argument>, i: nat)
    requires DistinctTypes(args) && i < |args|
    ensures ArgumentFor(args, args[i].id) == Some(args[i])
  {
    if i > 0 {
      assert args[0].id != args[i].id;
      ArgumentForFinds(args[1..], i - 1);
    }
  }

  predicate Consumes(net: Network, f: FilterId, t: TypeId) {
    0 <= f < |net.filters| &&
    var a := ArgumentFor(net.filters[f].args, t); a.Some? && a.value.Subscribes()
  }

  function KindOf(net: Network, f: FilterId, t: TypeId): Kind
    requires Consumes(net, f, t)
  {
    ArgumentFor(net.filters[f].args, t).value.SubscriberKind()
  }

  predicate SharedInput(net: Network, f: FilterId, t: TypeId)
    requires Consumes(net, f, t)
  {
    ArgumentFor(net.filters[f].args, t).value.isShared
  }

  predicate Needs(net: Network, f: FilterId, t: TypeId) {
    Consumes(net, f, t) && KindOf(net, f, t) == Normal
  }

  predicate Produces(net: Network, f: FilterId, t: TypeId) {
    0 <= f < |net.filters| &&
    var a := ArgumentFor(net.filters[f].args, t); a.Some? && a.value.Publishes()
  }

  predicate HasConsumer(net: Network, t: TypeId) {
    exists f | 0 <= f < |net.filters| :: Consumes(net, f, t)
  }

  /** Whether a call of `f` hands its output `t` to the packet at all. */
  predicate Commits(net: Network, f: FilterId, t: TypeId) {
    Produces(net, f, t) &&
    (ArgumentFor(net.filters[f].args, t).value.onDemand ==> HasConsumer(net, t))
  }

  function InputTypes(net: Network, f: FilterId): (r: set<TypeId>)
    ensures forall t :: t in r <==> Consumes(net, f, t)
  {
    if !(0 <= f < |net.filters|) then {} else
    set a | a in net.filters[f].args && Consumes(net, f, a.id) :: a.id
  }

  function PublishersBelow(net: Network, k: nat, t: TypeId): (r: seq<FilterId>)
    requires k <= |net.filters|
    ensures forall f :: f in r <==> 0 <= f < k && Produces(net, f, t)
  {
    if k == 0 then []
    else PublishersBelow(net, k - 1, t) + (if Produces(net, k - 1, t) then [k - 1] else [])
  }

  lemma {:induction false} PublishersDistinct(net: Network, k: nat, t: TypeId)
    requires k <= |net.filters|
    ensures Distinct(PublishersBelow(net, k, t))
  {
    if k > 0 { PublishersDistinct(net, k - 1, t); }
  }

  function Publishers(net: Network, t: TypeId): (r: seq<FilterId>)
    ensures forall f :: f in r <==> Produces(net, f, t)
  {
    PublishersBelow(net, |net.filters|, t)
  }

  lemma PublishersDef(net: Network, t: TypeId)
    ensures Publishers(net, t) == PublishersBelow(net, |net.filters|, t)
  {}

  /** The networks the main theorems speak about: no modifier arguments, distinct argument types
      within a filter, and every type with several publishers read only by Multi inputs. */
  ghost predicate WellFormed(net: Network) {
    && (forall f :: 0 <= f < |net.filters| ==> DistinctTypes(net.filters[f].args))
    && (forall f, a :: 0 <= f < |net.filters| && a in net.filters[f].args ==> !a.isRvalue)
    && (forall t, f :: |Publishers(net, t)| > 1 && Consumes(net, f, t) ==> KindOf(net, f, t) == Multi)
  }

  lemma ArgumentsOf(net: Network, f: FilterId)
    requires WellFormed(net) && 0 <= f < |net.filters|
    ensures DistinctTypes(net.filters[f].args)
    ensures forall a :: a in net.filters[f].args ==> ArgumentFor(net.filters[f].args, a.id) == Some(a) && !a.isRvalue
  {
    var args := net.filters[f].args;
    forall a | a in args ensures ArgumentFor(args, a.id) == Some(a) {
      var i :| 0 <= i < |args| && args[i] == a;
      ArgumentForFinds(args, i);
    }
  }

  // ---------------------------------------------------------------- declarative meaning

  /** What the caller has said about the types nobody publishes: decorated (possibly with a null
      pointer) or marked unsatisfiable, both of which end in at most one value. */
  type Roots = map<TypeId, Option<Value>>

  function RootValues(o: Option<Value>): multiset<Value> {
    match o case None => multiset{} case Some(v) => multiset{v}
  }

  ghost predicate RootsExtend(r: Roots, r': Roots) {
    forall t :: t in r ==> t in r' && r'[t] == r[t]
  }

  /** The decorations of `t` if it is complete by stage `n`. */
  ghost function TypeAt(net: Network, roots: Roots, n: nat, t: TypeId): Option<multiset<Value>>
    decreases n, 0, 0
  {
    if Publishers(net, t) == [] then
      if t in roots then Some(RootValues(roots[t])) else None
    else if n == 0 then None
    else if forall f :: f in Publishers(net, t) ==> ConcludesAt(net, roots, n - 1, f, t) then
      Some(Gathered(net, roots, n - 1, Publishers(net, t), t))
    else None
  }

  ghost predicate ReadyAt(net: Network, roots: Roots, n: nat, f: FilterId)
    decreases n, 1, 0
  {
    0 <= f < |net.filters| &&
    forall t :: Consumes(net, f, t) ==>
      && TypeAt(net, roots, n, t).Some?
      && (Needs(net, f, t) ==> TypeAt(net, roots, n, t).value != multiset{})
  }

  ghost predicate DoomedAt(net: Network, roots: Roots, n: nat, f: FilterId)
    decreases n, 1, 0
  {
    exists t :: Needs(net, f, t) && TypeAt(net, roots, n, t) == Some(multiset{})
  }

  ghost function ViewAt(net: Network, roots: Roots, n: nat, f: FilterId): View
    requires ReadyAt(net, roots, n, f)
    decreases n, 2, 0
  {
    map t | t in InputTypes(net, f) :: TypeAt(net, roots, n, t).value
  }

  ghost predicate ConcludesAt(net: Network, roots: Roots, n: nat, f: FilterId, t: TypeId)
    decreases n, 2, 0
  {
    DoomedAt(net, roots, n, f) || (ReadyAt(net, roots, n, f) && Commits(net, f, t))
  }

  /** What publisher `f` contributes to `t`. */
  ghost function ContributionAt(net: Network, roots: Roots, n: nat, f: FilterId, t: TypeId): multiset<Value>
    decreases n, 3, 0
  {
    if ReadyAt(net, roots, n, f) then net.body(f, ViewAt(net, roots, n, f), t).Values() else multiset{}
  }

  ghost function Gathered(net: Network, roots: Roots, n: nat, pubs: seq<FilterId>, t: TypeId): multiset<Value>
    decreases n, 4, |pubs|
  {
    if pubs == [] then multiset{}
    else ContributionAt(net, roots, n, pubs[0], t) + Gathered(net, roots, n, pubs[1..], t)
  }

  lemma ReadyNotDoomed(net: Network, roots: Roots, n: nat, f: FilterId)
    ensures !(ReadyAt(net, roots, n, f) && DoomedAt(net, roots, n, f))
  {}

  lemma TypeAtUnpublished(net: Network, roots: Roots, n: nat, t: TypeId)
    requires Publishers(net, t) == []
    ensures TypeAt(net, roots, n, t) == if t in roots then Some(RootValues(roots[t])) else None
  {}

  lemma TypeAtStageZero(net: Network, roots: Roots, t: TypeId)
    requires Publishers(net, t) != []
    ensures TypeAt(net, roots, 0, t) == None
  {}

  /** A published type completes one stage after its last publisher concludes, and not before. */
  lemma TypeAtPublished(net: Network, roots: Roots, n: nat, t: TypeId)
    requires Publishers(net, t) != [] && n > 0
    ensures TypeAt(net, roots, n, t).Some? <==>
              forall f :: f in Publishers(net, t) ==> ConcludesAt(net, roots, n - 1, f, t)
    ensures TypeAt(net, roots, n, t).Some? ==>
              TypeAt(net, roots, n, t).value == Gathered(net, roots, n - 1, Publishers(net, t), t)
  {}

  /** Later stages and more root decisions never revise a completed type. */
  lemma {:induction false} TypeAtMonotone(net: Network, r: Roots, r': Roots, n: nat, m: nat, t: TypeId)
    requires RootsExtend(r, r') && n <= m && TypeAt(net, r, n, t).Some?
    ensures TypeAt(net, r', m, t) == TypeAt(net, r, n, t)
    decreases n, 0
  {
    hide Publishers, ConcludesAt, Gathered, ArgumentFor, Produces;
    var pubs := Publishers(net, t);
    if pubs == [] {
      assert t in r && r'[t] == r[t];
    } else {
      TypeAtPublished(net, r, n, t);
      PublishersMonotone(net, r, r', n - 1, m - 1, pubs, t);
      TypeAtPublished(net, r', m, t);
    }
  }

  lemma {:induction false} PublishersMonotone(
    net: Network, r: Roots, r': Roots, n: nat, m: nat, pubs: seq<FilterId>, t: TypeId)
    requires RootsExtend(r, r') && n <= m
    requires forall f :: f in pubs ==> ConcludesAt(net, r, n, f, t)
    ensures forall f :: f in pubs ==> ConcludesAt(net, r', m, f, t)
    ensures Gathered(net, r', m, pubs, t) == Gathered(net, r, n, pubs, t)
    decreases n, 3, |pubs|
  {
    if pubs != [] {
      assert pubs[0] in pubs;
      ConcludesMonotone(net, r, r', n, m, pubs[0], t);
      assert forall f :: f in pubs[1..] ==> f in pubs;
      PublishersMonotone(net, r, r', n, m, pubs[1..], t);
      assert forall f :: f in pubs ==> f == pubs[0] || f in pubs[1..];
    }
  }

  lemma {:induction false} ReadyMonotone(net: Network, r: Roots, r': Roots, n: nat, m: nat, f: FilterId)
    requires RootsExtend(r, r') && n <= m
    ensures ReadyAt(net, r, n, f) ==> ReadyAt(net, r', m, f) && ViewAt(net, r', m, f) == ViewAt(net, r, n, f)
    ensures DoomedAt(net, r, n, f) ==> DoomedAt(net, r', m, f)
    decreases n, 1
  {
    hide TypeAt, ArgumentFor, Consumes, Needs;
    forall t | TypeAt(net, r, n, t).Some?
      ensures TypeAt(net, r', m, t) == TypeAt(net, r, n, t)
    {
      TypeAtMonotone(net, r, r', n, m, t);
    }
  }

  lemma {:induction false} ConcludesMonotone(net: Network, r: Roots, r': Roots, n: nat, m: nat, f: FilterId, t: TypeId)
    requires RootsExtend(r, r') && n <= m && ConcludesAt(net, r, n, f, t)
    ensures ConcludesAt(net, r', m, f, t)
    ensures ContributionAt(net, r', m, f, t) == ContributionAt(net, r, n, f, t)
    decreases n, 2
  {
    ReadyMonotone(net, r, r', n, m, f);
    ReadyNotDoomed(net, r, n, f);
    ReadyNotDoomed(net, r', m, f);
  }
}
