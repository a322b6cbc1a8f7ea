/** The static part of a disposition: who publishes, modifies and subscribes to a type, as it
    builds up argument by argument while filters are added. */
module Wiring {
  import opened Prelude
  import opened FilterNetwork
  import opened CycleGraph

  datatype Subscriber = Subscriber(isShared: bool, kind: Kind, altitude: int, counter: FilterId)
  {
    predicate Before(that: Subscriber) {
      altitude < that.altitude || (altitude == that.altitude && counter < that.counter)
    }
  }

  datatype Modifier = Modifier(isShared: bool, altitude: int, counter: FilterId)

  /** Insertion into a set ordered by altitude, then counter. */
  function Insert(subs: seq<Subscriber>, x: Subscriber): (r: seq<Subscriber>) {
    if subs == [] then [x]
    else if x.Before(subs[0]) then [x] + subs
    else if subs[0].Before(x) then [subs[0]] + Insert(subs[1..], x)
    else subs
  }

  ghost predicate Sorted(subs: seq<Subscriber>) {
    forall i, j :: 0 <= i < j < |subs| ==> subs[i].Before(subs[j])
  }

  lemma {:induction false} InsertProperties(subs: seq<Subscriber>, x: Subscriber)
    requires Sorted(subs) && forall y :: y in subs ==> y.counter != x.counter
    ensures Sorted(Insert(subs, x))
    ensures forall y :: y in Insert(subs, x) <==> y in subs || y == x
  {
    if subs != [] && !x.Before(subs[0]) {
      assert subs[0] in subs;
      assert forall y :: y in subs[1..] ==> y in subs;
      InsertProperties(subs[1..], x);
      var rest := Insert(subs[1..], x);
      forall k | 0 <= k < |rest| ensures subs[0].Before(rest[k]) {
        assert rest[k] in rest;
        if rest[k] != x {
          var l :| 0 <= l < |subs[1..]| && subs[1..][l] == rest[k];
          assert subs[0].Before(subs[l + 1]);
        }
      }
      assert forall y :: y in subs <==> y == subs[0] || y in subs[1..];
    }
  }

  /** The arguments entered into the dispositions so far, oldest first. */
  type Wires = seq<(FilterId, Argument)>

  function SubscriberFor(filters: seq<Filter>, f: FilterId, a: Argument): Subscriber
    requires 0 <= f < |filters|
  {
    Subscriber(a.isShared, a.SubscriberKind(), filters[f].altitude, f)
  }

  function ModifierFor(filters: seq<Filter>, f: FilterId, a: Argument): Modifier
    requires 0 <= f < |filters|
  {
    Modifier(a.isShared, filters[f].altitude, f)
  }

  /** The filters wired as publishers of `t`, in the order they were added. */
  function WiredPublishers(w: Wires, t: TypeId): seq<FilterId> {
    if w == [] then []
    else
      var last := w[|w| - 1];
      WiredPublishers(w[..|w| - 1], t) + (if last.1.id == t && last.1.Publishes() then [last.0] else [])
  }

  ghost predicate WiresInRange(filters: seq<Filter>, w: Wires) {
    forall p :: p in w ==> 0 <= p.0 < |filters| && p.1 in filters[p.0].args
  }

  ghost predicate SubscribersOk(filters: seq<Filter>, w: Wires, t: TypeId, subs: seq<Subscriber>)
    requires WiresInRange(filters, w)
  {
    && Sorted(subs)
    && (forall p :: p in w && p.1.id == t && p.1.Subscribes() ==> SubscriberFor(filters, p.0, p.1) in subs)
    && (forall x :: x in subs ==>
        exists p :: p in w && p.1.id == t && p.1.Subscribes() && x == SubscriberFor(filters, p.0, p.1))
  }

  ghost predicate ModifiersOk(filters: seq<Filter>, w: Wires, t: TypeId, mods: seq<Modifier>)
    requires WiresInRange(filters, w)
  {
    && (forall i, j :: 0 <= i < j < |mods| ==> mods[i].altitude < mods[j].altitude)
    && (forall p :: p in w && p.1.id == t && p.1.isRvalue ==> ModifierFor(filters, p.0, p.1) in mods)
    && (forall x :: x in mods ==>
        exists p :: p in w && p.1.id == t && p.1.isRvalue && x == ModifierFor(filters, p.0, p.1))
  }

  /** The lists of the disposition of `t` hold exactly the wires of `t`, in their orders. */
  ghost predicate ListsOk(
    filters: seq<Filter>, w: Wires, t: TypeId, pubs: seq<FilterId>, mods: seq<Modifier>, subs: seq<Subscriber>)
    requires WiresInRange(filters, w)
  {
    pubs == WiredPublishers(w, t) && SubscribersOk(filters, w, t, subs) && ModifiersOk(filters, w, t, mods)
  }

  /** A type with several publishers has Multi subscribers only and no modifiers. */
  ghost predicate MultiplicityOk(pubs: seq<FilterId>, mods: seq<Modifier>, subs: seq<Subscriber>) {
    |pubs| > 1 ==> mods == [] && forall x :: x in subs ==> x.kind == Multi
  }

  datatype Lists = Lists(publishers: seq<FilterId>, modifiers: seq<Modifier>, subscribers: seq<Subscriber>)

  const NO_LISTS := Lists([], [], [])

  type ListMap = map<TypeId, Lists>

  ghost predicate ListOk(filters: seq<Filter>, w: Wires, lists: ListMap, t: TypeId)
    requires WiresInRange(filters, w) && t in lists
  {
    && ListsOk(filters, w, t, lists[t].publishers, lists[t].modifiers, lists[t].subscribers)
    && MultiplicityOk(lists[t].publishers, lists[t].modifiers, lists[t].subscribers)
  }

  /** The dispositions hold exactly the wires, and only Multi inputs listen to several publishers. */
  ghost predicate Structure(filters: seq<Filter>, w: Wires, lists: ListMap) {
    && WiresInRange(filters, w)
    && (forall p :: p in w ==> p.1.id in lists)
    && (forall t :: t in lists ==> ListOk(filters, w, lists, t))
  }

  ghost function SubscriberSet(subs: seq<Subscriber>): set<FilterId> {
    set x | x in subs :: x.counter
  }

  /** The filters wired as subscribers to an output type among `args`. */
  ghost function Fed(w: Wires, args: seq<Argument>): set<FilterId> {
    set p | p in w && p.1.Subscribes() && (exists a :: a in args && a.isOutput && a.id == p.1.id) :: p.0
  }

  /** The edges DetectCycle follows: from a filter with an output argument to the subscribers of
      its type. */
  ghost function WiredGraph(filters: seq<Filter>, w: Wires): Graph {
    map f | 0 <= f < |filters| :: Fed(w, filters[f].args)
  }

  // ---------------------------------------------------------------- wiring one argument

  /** Why an argument may not be added to a disposition. */
  ghost predicate Clash(filters: seq<Filter>, l: Lists, f: FilterId, a: Argument)
    requires 0 <= f < |filters|
  {
    || (a.isInput && !a.isMulti && |l.publishers| > 1)
    || (a.isRvalue && exists m :: m in l.modifiers && m.altitude == filters[f].altitude)
    || (a.Publishes() && l.publishers != [] && (l.modifiers != [] || exists x :: x in l.subscribers && x.kind != Multi))
  }

  lemma WiresInRangeNext(filters: seq<Filter>, w: Wires, f: FilterId, a: Argument)
    requires WiresInRange(filters, w) && 0 <= f < |filters| && a in filters[f].args
    ensures WiresInRange(filters, w + [(f, a)])
  {
    assert forall p :: p in w + [(f, a)] <==> p in w || p == (f, a);
  }

  lemma PublishersNext(w: Wires, f: FilterId, a: Argument, t: TypeId)
    ensures WiredPublishers(w + [(f, a)], t) == WiredPublishers(w, t) + (if a.id == t && a.Publishes() then [f] else [])
  {
    assert (w + [(f, a)])[..|w|] == w;
  }

  lemma SubscribersSame(filters: seq<Filter>, w: Wires, f: FilterId, a: Argument, t: TypeId, subs: seq<Subscriber>)
    requires 0 <= f < |filters| && a in filters[f].args && WiresInRange(filters, w)
    requires SubscribersOk(filters, w, t, subs)
    requires a.id != t || !a.Subscribes()
    ensures SubscribersOk(filters, w + [(f, a)], t, subs)
  {
    assert forall p :: p in w + [(f, a)] <==> p in w || p == (f, a);
  }

  lemma ModifiersSame(filters: seq<Filter>, w: Wires, f: FilterId, a: Argument, t: TypeId, mods: seq<Modifier>)
    requires 0 <= f < |filters| && a in filters[f].args && WiresInRange(filters, w) && ModifiersOk(filters, w, t, mods)
    requires a.id != t || !a.isRvalue
    ensures ModifiersOk(filters, w + [(f, a)], t, mods)
  {
    assert forall p :: p in w + [(f, a)] <==> p in w || p == (f, a);
  }

  lemma SubscribersNext(filters: seq<Filter>, w: Wires, f: FilterId, a: Argument, subs: seq<Subscriber>)
    requires 0 <= f < |filters| && a in filters[f].args && WiresInRange(filters, w)
    requires SubscribersOk(filters, w, a.id, subs)
    requires a.Subscribes() && forall p :: p in w && p.0 == f ==> p.1.id != a.id
    ensures SubscribersOk(filters, w + [(f, a)], a.id, Insert(subs, SubscriberFor(filters, f, a)))
  {
    hide Sorted, Insert;
    var w' := w + [(f, a)];
    assert forall p :: p in w' <==> p in w || p == (f, a);
    var x := SubscriberFor(filters, f, a);
    InsertProperties(subs, x);
    forall y | y in Insert(subs, x)
      ensures exists p :: p in w' && p.1.id == a.id && p.1.Subscribes() && y == SubscriberFor(filters, p.0, p.1)
    {
      if y == x {
        assert (f, a) in w';
      }
    }
  }

  lemma SubscriberInserted(filters: seq<Filter>, w: Wires, f: FilterId, a: Argument, subs: seq<Subscriber>)
    requires 0 <= f < |filters| && WiresInRange(filters, w) && SubscribersOk(filters, w, a.id, subs)
    requires forall p :: p in w && p.0 == f ==> p.1.id != a.id
    ensures var x := SubscriberFor(filters, f, a); forall y :: y in Insert(subs, x) <==> y in subs || y == x
  {
    InsertProperties(subs, SubscriberFor(filters, f, a));
  }

  /** Where a modifier belongs: after those of lower altitude, before those of higher. */
  lemma ModifiersNext(filters: seq<Filter>, w: Wires, f: FilterId, a: Argument, mods: seq<Modifier>, k: nat)
    requires 0 <= f < |filters| && a in filters[f].args && WiresInRange(filters, w)
    requires ModifiersOk(filters, w, a.id, mods)
    requires a.isRvalue && k <= |mods|
    requires forall i :: 0 <= i < k ==> mods[i].altitude < filters[f].altitude
    requires k < |mods| ==> filters[f].altitude < mods[k].altitude
    ensures ModifiersOk(filters, w + [(f, a)], a.id, mods[..k] + [ModifierFor(filters, f, a)] + mods[k..])
  {
    var w' := w + [(f, a)];
    assert forall p :: p in w' <==> p in w || p == (f, a);
    var x := ModifierFor(filters, f, a);
    var mods' := mods[..k] + [x] + mods[k..];
    assert mods == mods[..k] + mods[k..];
    assert forall y :: y in mods' <==> y in mods || y == x;
    forall y | y in mods'
      ensures exists p :: p in w' && p.1.id == a.id && p.1.isRvalue && y == ModifierFor(filters, p.0, p.1)
    {
      if y == x {
        assert (f, a) in w';
      }
    }
  }

  /** Wiring an argument into the disposition of its type leaves the others as they were. */
  lemma WireOne(filters: seq<Filter>, w: Wires, lists: ListMap, f: FilterId, a: Argument, l: Lists)
    requires Structure(filters, w, lists) && 0 <= f < |filters| && a in filters[f].args
    requires WiresInRange(filters, w + [(f, a)])
    requires ListsOk(filters, w + [(f, a)], a.id, l.publishers, l.modifiers, l.subscribers)
    requires MultiplicityOk(l.publishers, l.modifiers, l.subscribers)
    ensures Structure(filters, w + [(f, a)], lists[a.id := l])
  {
    hide SubscribersOk, ModifiersOk, MultiplicityOk, WiredPublishers;
    var w' := w + [(f, a)];
    assert forall p :: p in w' <==> p in w || p == (f, a);
    forall t | t in lists && t != a.id
      ensures ListOk(filters, w', lists[a.id := l], t)
    {
      assert ListOk(filters, w, lists, t);
      PublishersNext(w, f, a, t);
      SubscribersSame(filters, w, f, a, t, lists[t].subscribers);
      ModifiersSame(filters, w, f, a, t, lists[t].modifiers);
    }
  }

  /** The preconditions under which filter `f` may enter its argument `a`. */
  ghost predicate Wirable(filters: seq<Filter>, w: Wires, lists: ListMap, f: FilterId, a: Argument) {
    && Structure(filters, w, lists)
    && 0 <= f < |filters| && a in filters[f].args && a.Tabled() && a.id in lists
    && (forall p :: p in w && p.0 == f ==> p.1.id != a.id)
  }

  lemma WireModifier(filters: seq<Filter>, w: Wires, lists: ListMap, f: FilterId, a: Argument, k: nat)
    requires Wirable(filters, w, lists, f, a) && a.isRvalue && |lists[a.id].publishers| <= 1
    requires var mods := lists[a.id].modifiers;
             && k <= |mods| && (forall i :: 0 <= i < k ==> mods[i].altitude < filters[f].altitude)
             && (k < |mods| ==> filters[f].altitude < mods[k].altitude)
    ensures var l := lists[a.id];
            var mods := l.modifiers[..k] + [ModifierFor(filters, f, a)] + l.modifiers[k..];
            Structure(filters, w + [(f, a)], lists[a.id := l.(modifiers := mods)])
  {
    hide WiredPublishers, SubscribersOk, ModifiersOk;
    assert ListOk(filters, w, lists, a.id);
    var l := lists[a.id];
    var mods := l.modifiers[..k] + [ModifierFor(filters, f, a)] + l.modifiers[k..];
    WiresInRangeNext(filters, w, f, a);
    PublishersNext(w, f, a, a.id);
    SubscribersSame(filters, w, f, a, a.id, l.subscribers);
    ModifiersNext(filters, w, f, a, l.modifiers, k);
    WireOne(filters, w, lists, f, a, l.(modifiers := mods));
  }

  lemma WirableFacts(filters: seq<Filter>, w: Wires, lists: ListMap, f: FilterId, a: Argument)
    requires Wirable(filters, w, lists, f, a)
    ensures Structure(filters, w, lists) && 0 <= f < |filters| && a in filters[f].args && a.id in lists
  {}

  lemma WireSubscriber(filters: seq<Filter>, w: Wires, lists: ListMap, f: FilterId, a: Argument)
    requires Wirable(filters, w, lists, f, a) && a.Subscribes() && (|lists[a.id].publishers| <= 1 || a.isMulti)
    ensures var l := lists[a.id];
            Structure(filters, w + [(f, a)],
              lists[a.id := l.(subscribers := Insert(l.subscribers, SubscriberFor(filters, f, a)))])
  {
    hide WiredPublishers, SubscribersOk, ModifiersOk, Insert, Sorted;
    assert ListOk(filters, w, lists, a.id);
    var l := lists[a.id];
    WiresInRangeNext(filters, w, f, a);
    PublishersNext(w, f, a, a.id);
    ModifiersSame(filters, w, f, a, a.id, l.modifiers);
    SubscribersNext(filters, w, f, a, l.subscribers);
    SubscriberInserted(filters, w, f, a, l.subscribers);
    WireOne(filters, w, lists, f, a, l.(subscribers := Insert(l.subscribers, SubscriberFor(filters, f, a))));
  }

  lemma WirePublisher(filters: seq<Filter>, w: Wires, lists: ListMap, f: FilterId, a: Argument)
    requires Wirable(filters, w, lists, f, a) && a.Publishes() && !Clash(filters, lists[a.id], f, a)
    ensures var l := lists[a.id];
            Structure(filters, w + [(f, a)], lists[a.id := l.(publishers := l.publishers + [f])])
  {
    hide WiredPublishers, SubscribersOk, ModifiersOk;
    assert ListOk(filters, w, lists, a.id);
    var l := lists[a.id];
    WiresInRangeNext(filters, w, f, a);
    PublishersNext(w, f, a, a.id);
    ModifiersSame(filters, w, f, a, a.id, l.modifiers);
    SubscribersSame(filters, w, f, a, a.id, l.subscribers);
    WireOne(filters, w, lists, f, a, l.(publishers := l.publishers + [f]));
  }

  lemma WireNothing(filters: seq<Filter>, w: Wires, lists: ListMap, f: FilterId, a: Argument)
    requires Wirable(filters, w, lists, f, a) && !a.isInput && !a.isOutput && !a.isRvalue
    ensures Structure(filters, w + [(f, a)], lists)
  {
    hide WiredPublishers, SubscribersOk, ModifiersOk;
    assert ListOk(filters, w, lists, a.id);
    var l := lists[a.id];
    WiresInRangeNext(filters, w, f, a);
    PublishersNext(w, f, a, a.id);
    ModifiersSame(filters, w, f, a, a.id, l.modifiers);
    SubscribersSame(filters, w, f, a, a.id, l.subscribers);
    WireOne(filters, w, lists, f, a, l);
    assert lists[a.id := l] == lists;
  }

  // ---------------------------------------------------------------- the lists, flag by flag

  /** How an input that is no modifier is entered as a subscriber. */
  predicate EnteredAs(y: Subscriber, filters: seq<Filter>, f: FilterId, a: Argument) {
    && 0 <= f < |filters| && y.counter == f && y.altitude == filters[f].altitude && y.isShared == a.isShared
    && (y.kind == Multi <==> a.isMulti)
    && (y.kind == Normal <==> !a.isMulti && !a.isShared)
  }

  predicate ModifiesAs(m: Modifier, filters: seq<Filter>, f: FilterId, a: Argument) {
    0 <= f < |filters| && m == Modifier(a.isShared, filters[f].altitude, f)
  }

  /** Subscribers stand by altitude, and among equals by filter. */
  ghost predicate ByAltitude(subs: seq<Subscriber>) {
    forall i, j :: 0 <= i < j < |subs| ==>
      || subs[i].altitude < subs[j].altitude
      || (subs[i].altitude == subs[j].altitude && subs[i].counter < subs[j].counter)
  }

  lemma EntersOnly(filters: seq<Filter>, w: Wires, lists: ListMap, f: FilterId, a: Argument)
    requires Wirable(filters, w, lists, f, a) && a.Subscribes()
    ensures var x := SubscriberFor(filters, f, a);
      && EnteredAs(x, filters, f, a)
      && (forall y :: EnteredAs(y, filters, f, a) ==> y == x)
      && (forall y :: y in Insert(lists[a.id].subscribers, x) <==> y in lists[a.id].subscribers || y == x)
  {
    hide WiredPublishers, ModifiersOk, MultiplicityOk, Insert, Sorted;
    assert ListOk(filters, w, lists, a.id);
    SubscriberInserted(filters, w, f, a, lists[a.id].subscribers);
  }

  lemma {:induction false} WiredPublisherMembers(w: Wires, t: TypeId, f: FilterId)
    ensures f in WiredPublishers(w, t) <==>
      exists a :: (f, a) in w && a.id == t && a.isOutput && !a.isRvalue
  {
    if w != [] {
      var n := |w| - 1;
      WiredPublisherMembers(w[..n], t, f);
      assert w == w[..n] + [w[n]];
      assert forall p :: p in w <==> p in w[..n] || p == w[n];
      if w[n].0 == f { assert (f, w[n].1) in w; }
      forall a | (f, a) in w ensures (f, a) in w[..n] || a == w[n].1 {}
    }
  }

  /** What the lists of a disposition hold, in terms of the flags of the arguments entered: the outputs, the
      modifiers by distinct altitudes and the other inputs by altitude. */
  lemma ListFlags(filters: seq<Filter>, w: Wires, lists: ListMap, t: TypeId)
    requires Structure(filters, w, lists) && t in lists
    ensures forall f :: f in lists[t].publishers <==>
      exists a :: (f, a) in w && a.id == t && a.isOutput && !a.isRvalue
    ensures forall y :: y in lists[t].subscribers <==>
      exists f, a :: (f, a) in w && a.id == t && a.isInput && !a.isRvalue && EnteredAs(y, filters, f, a)
    ensures forall m :: m in lists[t].modifiers <==>
      exists f, a :: (f, a) in w && a.id == t && a.isRvalue && ModifiesAs(m, filters, f, a)
    ensures ByAltitude(lists[t].subscribers)
    ensures var mods := lists[t].modifiers; forall i, j :: 0 <= i < j < |mods| ==> mods[i].altitude < mods[j].altitude
  {
    hide WiredPublishers, MultiplicityOk;
    assert ListOk(filters, w, lists, t);
    forall f ensures f in lists[t].publishers <==> exists a :: (f, a) in w && a.id == t && a.isOutput && !a.isRvalue {
      WiredPublisherMembers(w, t, f);
    }
    SubscriberFlags(filters, w, t, lists[t].subscribers);
    ModifierFlags(filters, w, t, lists[t].modifiers);
  }

  lemma SubscriberFlags(filters: seq<Filter>, w: Wires, t: TypeId, subs: seq<Subscriber>)
    requires WiresInRange(filters, w) && SubscribersOk(filters, w, t, subs)
    ensures forall y :: y in subs <==>
      exists f, a :: (f, a) in w && a.id == t && a.isInput && !a.isRvalue && EnteredAs(y, filters, f, a)
    ensures ByAltitude(subs)
  {
    forall y ensures y in subs <==>
      exists f, a :: (f, a) in w && a.id == t && a.isInput && !a.isRvalue && EnteredAs(y, filters, f, a)
    {
      if y in subs {
        var p :| p in w && p.1.id == t && p.1.Subscribes() && y == SubscriberFor(filters, p.0, p.1);
        assert (p.0, p.1) in w && EnteredAs(y, filters, p.0, p.1);
      }
      if f, a :| (f, a) in w && a.id == t && a.isInput && !a.isRvalue && EnteredAs(y, filters, f, a) {
        assert (f, a).1.Subscribes() && y == SubscriberFor(filters, f, a);
        assert SubscriberFor(filters, (f, a).0, (f, a).1) in subs;
      }
    }
  }

  lemma ModifierFlags(filters: seq<Filter>, w: Wires, t: TypeId, mods: seq<Modifier>)
    requires WiresInRange(filters, w) && ModifiersOk(filters, w, t, mods)
    ensures forall m :: m in mods <==>
      exists f, a :: (f, a) in w && a.id == t && a.isRvalue && ModifiesAs(m, filters, f, a)
  {
    forall m ensures m in mods <==>
      exists f, a :: (f, a) in w && a.id == t && a.isRvalue && ModifiesAs(m, filters, f, a)
    {
      if m in mods {
        var p :| p in w && p.1.id == t && p.1.isRvalue && m == ModifierFor(filters, p.0, p.1);
        assert (p.0, p.1) in w;
      }
      if f, a :| (f, a) in w && a.id == t && a.isRvalue && ModifiesAs(m, filters, f, a) {
        assert ModifierFor(filters, (f, a).0, (f, a).1) in mods;
      }
    }
  }

  lemma ModifiersSorted(filters: seq<Filter>, w: Wires, lists: ListMap, t: TypeId)
    requires Structure(filters, w, lists) && t in lists
    ensures var mods := lists[t].modifiers; forall i, j :: 0 <= i < j < |mods| ==> mods[i].altitude < mods[j].altitude
  {
    assert ListOk(filters, w, lists, t);
  }

  /** A new disposition is in order as long as nothing is wired to its type. */
  lemma WireEntry(filters: seq<Filter>, w: Wires, lists: ListMap, t: TypeId)
    requires Structure(filters, w, lists) && t !in lists
    ensures Structure(filters, w, lists[t := NO_LISTS])
  {
    var lists' := lists[t := NO_LISTS];
    forall u | u in lists' ensures ListOk(filters, w, lists', u) {
      if u != t {
        assert ListOk(filters, w, lists, u);
      } else {
        NoWiredPublishers(w, t);
      }
    }
  }

  lemma {:induction false} NoWiredPublishers(w: Wires, t: TypeId)
    requires forall p :: p in w ==> p.1.id != t
    ensures WiredPublishers(w, t) == []
  {
    if w != [] {
      assert forall p :: p in w[..|w| - 1] ==> p in w;
      assert w[|w| - 1] in w;
      NoWiredPublishers(w[..|w| - 1], t);
    }
  }

  lemma StructureGrows(filters: seq<Filter>, x: Filter, w: Wires, lists: ListMap)
    requires Structure(filters, w, lists)
    ensures Structure(filters + [x], w, lists)
  {
    hide WiredPublishers, Sorted, MultiplicityOk;
    assert forall p :: p in w ==> (filters + [x])[p.0] == filters[p.0];
    forall t | t in lists ensures ListOk(filters + [x], w, lists, t) {
      assert ListOk(filters, w, lists, t);
      forall y | y in lists[t].subscribers
        ensures exists p :: p in w && p.1.id == t && p.1.Subscribes() && y == SubscriberFor(filters + [x], p.0, p.1)
      {
        var p :| p in w && p.1.id == t && p.1.Subscribes() && y == SubscriberFor(filters, p.0, p.1);
        assert y == SubscriberFor(filters + [x], p.0, p.1);
      }
      forall y | y in lists[t].modifiers
        ensures exists p :: p in w && p.1.id == t && p.1.isRvalue && y == ModifierFor(filters + [x], p.0, p.1)
      {
        var p :| p in w && p.1.id == t && p.1.isRvalue && y == ModifierFor(filters, p.0, p.1);
        assert y == ModifierFor(filters + [x], p.0, p.1);
      }
    }
  }

  /** The graph after a filter was added with the wires `v`: all new edges are at the new node. */
  lemma GraphGrows(filters: seq<Filter>, x: Filter, w: Wires, v: Wires)
    requires WiresInRange(filters, w)
    requires forall p :: p in v ==> p.0 == |filters|
    ensures var g, g', n := WiredGraph(filters, w), WiredGraph(filters + [x], w + v), |filters|;
            && n !in g && g'.Keys == g.Keys + {n}
            && forall m :: m in g ==> g'[m] == g[m] || g'[m] == g[m] + {n}
  {
    var g, g', n := WiredGraph(filters, w), WiredGraph(filters + [x], w + v), |filters|;
    forall m | m in g
      ensures g'[m] == g[m] || g'[m] == g[m] + {n}
    {
      assert (filters + [x])[m] == filters[m];
      FedConcat(w, v, filters[m].args);
      assert Fed(v, filters[m].args) <= {n};
    }
  }

  lemma FedConcat(w: Wires, v: Wires, args: seq<Argument>)
    ensures Fed(w + v, args) == Fed(w, args) + Fed(v, args)
  {
    assert forall p :: p in w + v <==> p in w || p in v;
  }

  lemma GraphClosed(filters: seq<Filter>, w: Wires)
    requires WiresInRange(filters, w)
    ensures Closed(WiredGraph(filters, w))
  {}

  /** One more output argument feeds the subscribers of its type. */
  lemma FedNext(filters: seq<Filter>, w: Wires, lists: ListMap, args: seq<Argument>, a: Argument)
    requires Structure(filters, w, lists)
    ensures Fed(w, args + [a]) ==
            Fed(w, args) + (if a.isOutput && a.id in lists then SubscriberSet(lists[a.id].subscribers) else {})
  {
    hide WiredPublishers, Sorted, MultiplicityOk, ModifiersOk, Fed;
    var more := if a.isOutput && a.id in lists then SubscriberSet(lists[a.id].subscribers) else {};
    FedSplit(w, args, a);
    if a.isOutput {
      if a.id in lists {
        assert ListOk(filters, w, lists, a.id);
        SubscriberCounters(filters, w, a.id, lists[a.id].subscribers);
      } else {
        assert (set p | p in w && p.1.Subscribes() && p.1.id == a.id :: p.0) == {};
      }
    }
  }

  lemma FedSplit(w: Wires, args: seq<Argument>, a: Argument)
    ensures Fed(w, args + [a]) ==
            Fed(w, args) + (if a.isOutput then set p | p in w && p.1.Subscribes() && p.1.id == a.id :: p.0 else {})
  {
    assert forall b :: b in args + [a] <==> b in args || b == a;
  }

  lemma SubscriberCounters(filters: seq<Filter>, w: Wires, t: TypeId, subs: seq<Subscriber>)
    requires WiresInRange(filters, w) && SubscribersOk(filters, w, t, subs)
    ensures SubscriberSet(subs) == set p | p in w && p.1.Subscribes() && p.1.id == t :: p.0
  {
    hide Sorted;
    var here := SubscriberSet(subs);
    forall p | p in w && p.1.Subscribes() && p.1.id == t ensures p.0 in here {
      assert SubscriberFor(filters, p.0, p.1) in subs;
    }
  }

  // ---------------------------------------------------------------- a fully wired network

  function ArgumentWires(f: FilterId, args: seq<Argument>): (r: Wires)
    ensures forall p :: p in r <==> p.0 == f && p.1 in args
  {
    if args == [] then []
    else
      var rest := ArgumentWires(f, args[..|args| - 1]);
      assert args == args[..|args| - 1] + [args[|args| - 1]];
      rest + [(f, args[|args| - 1])]
  }

  /** All wires of the first `k` filters. */
  function FilterWires(filters: seq<Filter>, k: nat): Wires
    requires k <= |filters|
  {
    if k == 0 then [] else FilterWires(filters, k - 1) + ArgumentWires(k - 1, filters[k - 1].args)
  }

  lemma {:induction false} FilterWiresMembers(filters: seq<Filter>, k: nat, p: (FilterId, Argument))
    requires k <= |filters|
    ensures p in FilterWires(filters, k) <==> 0 <= p.0 < k && p.1 in filters[p.0].args
  {
    if k > 0 { FilterWiresMembers(filters, k - 1, p); }
  }

  lemma {:induction false} WiredPublishersConcat(v: Wires, w: Wires, t: TypeId)
    ensures WiredPublishers(v + w, t) == WiredPublishers(v, t) + WiredPublishers(w, t)
  {
    if w == [] {
      assert v + w == v;
    } else {
      assert (v + w)[..|v + w| - 1] == v + w[..|w| - 1];
      WiredPublishersConcat(v, w[..|w| - 1], t);
    }
  }

  lemma {:induction false} ArgumentPublishers(f: FilterId, args: seq<Argument>, t: TypeId)
    requires DistinctTypes(args)
    ensures WiredPublishers(ArgumentWires(f, args), t) ==
            if ArgumentFor(args, t).Some? && ArgumentFor(args, t).value.Publishes() then [f] else []
  {
    if args != [] {
      var n := |args| - 1;
      ArgumentPublishers(f, args[..n], t);
      assert ArgumentWires(f, args)[..n] == ArgumentWires(f, args[..n]) by { ArgumentWiresLength(f, args[..n]); }
      ArgumentWiresLength(f, args);
      ArgumentForLast(args, t);
    }
  }

  lemma {:induction false} ArgumentWiresLength(f: FilterId, args: seq<Argument>)
    ensures |ArgumentWires(f, args)| == |args|
  {
    if args != [] { ArgumentWiresLength(f, args[..|args| - 1]); }
  }

  lemma ArgumentForLast(args: seq<Argument>, t: TypeId)
    requires args != [] && DistinctTypes(args)
    ensures var n := |args| - 1;
            ArgumentFor(args, t) == if args[n].id == t then Some(args[n]) else ArgumentFor(args[..n], t)
  {
    var n := |args| - 1;
    if args[n].id == t {
      ArgumentForFinds(args, n);
    } else if ArgumentFor(args, t).Some? {
      var i :| 0 <= i < |args| && args[i] == ArgumentFor(args, t).value;
      ArgumentForFinds(args[..n], i);
    } else {
      forall a | a in args[..n] ensures a.id != t { assert a in args; }
    }
  }

  lemma {:induction false} OneFilterPublishers(net: Network, k: nat, t: TypeId)
    requires 0 < k <= |net.filters| && DistinctTypes(net.filters[k - 1].args)
    requires WiredPublishers(FilterWires(net.filters, k - 1), t) == PublishersBelow(net, k - 1, t)
    ensures WiredPublishers(FilterWires(net.filters, k), t) == PublishersBelow(net, k, t)
  {
    hide ArgumentWires, WiredPublishers, ArgumentFor;
    var args := net.filters[k - 1].args;
    WiredPublishersConcat(FilterWires(net.filters, k - 1), ArgumentWires(k - 1, args), t);
    ArgumentPublishers(k - 1, args, t);
    assert WiredPublishers(FilterWires(net.filters, k), t) ==
           PublishersBelow(net, k - 1, t) + (if Produces(net, k - 1, t) then [k - 1] else []);
  }

  /** In a fully wired network the wired publishers are the publishers of the network. */
  lemma {:induction false} FilterPublishers(net: Network, k: nat, t: TypeId)
    requires k <= |net.filters| && forall f :: 0 <= f < |net.filters| ==> DistinctTypes(net.filters[f].args)
    ensures WiredPublishers(FilterWires(net.filters, k), t) == PublishersBelow(net, k, t)
  {
    if k > 0 {
      FilterPublishers(net, k - 1, t);
      OneFilterPublishers(net, k, t);
    }
  }
}
