/** What telling the modifiers and subscribers of a completed type does to the counters, and which filters are then
    to be called or given up. */
module Notification {
  import opened Prelude
  import opened FilterNetwork
  import opened CycleGraph
  import opened Wiring

  /** A modifier or subscriber of a type. One that asks for a value cannot do without. */
  datatype Listener = Listener(counter: FilterId, asks: bool)

  ghost function OfModifiers(mods: seq<Modifier>): (r: seq<Listener>)
    ensures |r| == |mods| && forall i :: 0 <= i < |mods| ==> r[i] == Listener(mods[i].counter, !mods[i].isShared)
  {
    seq(|mods|, i requires 0 <= i < |mods| => Listener(mods[i].counter, !mods[i].isShared))
  }

  ghost function OfSubscribers(subs: seq<Subscriber>): (r: seq<Listener>)
    ensures |r| == |subs| && forall i :: 0 <= i < |subs| ==> r[i] == Listener(subs[i].counter, subs[i].kind == Normal)
  {
    seq(|subs|, i requires 0 <= i < |subs| => Listener(subs[i].counter, subs[i].kind == Normal))
  }

  /** Those who listen to a type, in the order in which they are told. */
  ghost function Listeners(l: Lists): seq<Listener> {
    OfModifiers(l.modifiers) + OfSubscribers(l.subscribers)
  }

  /** A counter after its filter was told of a type with `n` decorations. */
  function Told(remaining: nat, n: nat, asks: bool): nat {
    if remaining == 0 || (n == 0 && asks) then 0 else remaining - 1
  }

  predicate Satisfies(remaining: nat, n: nat, asks: bool) { remaining == 1 && (n > 0 || !asks) }

  predicate Fails(remaining: nat, n: nat, asks: bool) { remaining > 0 && n == 0 && asks }

  ghost predicate DistinctCounters(ls: seq<Listener>) {
    forall i, j :: 0 <= i < j < |ls| ==> ls[i].counter != ls[j].counter
  }

  /** The filter has an output of this type. */
  predicate HasOutput(filters: seq<Filter>, f: FilterId, t: TypeId) {
    0 <= f < |filters| && exists a :: a in filters[f].args && a.isOutput && a.id == t
  }

  /** Those of the first `k` listeners whose filters are satisfied, in the order in which they are told. */
  ghost function QueueOf(ls: seq<Listener>, k: nat, n: nat, before: seq<nat>): seq<FilterId>
    requires k <= |ls|
  {
    if k == 0 then []
    else
      var x := ls[k - 1];
      QueueOf(ls, k - 1, n, before) +
      if 0 <= x.counter < |before| && Satisfies(before[x.counter], n, x.asks) then [x.counter] else []
  }

  /** The counters once the first `k` listeners have been told. */
  ghost predicate CountersTold(ls: seq<Listener>, k: nat, n: nat, before: seq<nat>, after: seq<nat>)
    requires k <= |ls|
  {
    && |after| == |before|
    && (forall i :: 0 <= i < k ==>
          && 0 <= ls[i].counter < |before|
          && after[ls[i].counter] == Told(before[ls[i].counter], n, ls[i].asks))
    && (forall f :: 0 <= f < |before| && (forall i :: 0 <= i < k ==> ls[i].counter != f) ==> after[f] == before[f])
  }

  /** The filters satisfied by then. */
  ghost predicate QueueTold(ls: seq<Listener>, k: nat, n: nat, before: seq<nat>, queue: seq<FilterId>)
    requires k <= |ls|
  {
    && (forall f :: f in queue <==>
          exists i :: 0 <= i < k && ls[i].counter == f && 0 <= f < |before| && Satisfies(before[f], n, ls[i].asks))
    && Distinct(queue) && queue == QueueOf(ls, k, n, before)
  }

  /** The outputs of the filters given up by then. */
  ghost predicate UnsatTold(filters: seq<Filter>, ls: seq<Listener>, k: nat, n: nat, before: seq<nat>,
    unsat: seq<(FilterId, TypeId)>)
    requires k <= |ls|
  {
    forall p :: p in unsat <==>
      && HasOutput(filters, p.0, p.1)
      && exists i :: 0 <= i < k && ls[i].counter == p.0 && 0 <= p.0 < |before| && Fails(before[p.0], n, ls[i].asks)
  }

  /** The first `k` listeners have been told: the filters this satisfies are queued in order, and the outputs of those
      that cannot do without a value are listed. */
  ghost predicate Notified(
    filters: seq<Filter>, ls: seq<Listener>, k: nat, n: nat, before: seq<nat>, after: seq<nat>,
    queue: seq<FilterId>, unsat: seq<(FilterId, TypeId)>)
    requires k <= |ls|
  {
    && CountersTold(ls, k, n, before, after)
    && QueueTold(ls, k, n, before, queue)
    && UnsatTold(filters, ls, k, n, before, unsat)
  }

  lemma NotifiedNone(filters: seq<Filter>, ls: seq<Listener>, n: nat, before: seq<nat>)
    ensures Notified(filters, ls, 0, n, before, before, [], [])
  {}

  lemma CountersNext(ls: seq<Listener>, k: nat, n: nat, before: seq<nat>, mid: seq<nat>, after: seq<nat>)
    requires DistinctCounters(ls) && k < |ls| && CountersTold(ls, k, n, before, mid)
    requires |after| == |mid| && 0 <= ls[k].counter < |mid|
    requires after == mid[ls[k].counter := Told(mid[ls[k].counter], n, ls[k].asks)]
    ensures mid[ls[k].counter] == before[ls[k].counter] && CountersTold(ls, k + 1, n, before, after)
  {
    hide Told;
  }

  lemma QueueNext(ls: seq<Listener>, k: nat, n: nat, before: seq<nat>, queue: seq<FilterId>, queue': seq<FilterId>)
    requires DistinctCounters(ls) && k < |ls| && QueueTold(ls, k, n, before, queue) && 0 <= ls[k].counter < |before|
    requires queue' == if Satisfies(before[ls[k].counter], n, ls[k].asks) then queue + [ls[k].counter] else queue
    ensures QueueTold(ls, k + 1, n, before, queue')
  {
    hide Satisfies;
    var c := ls[k].counter;
    forall f ensures f in queue' <==>
      exists i :: 0 <= i < k + 1 && ls[i].counter == f && 0 <= f < |before| && Satisfies(before[f], n, ls[i].asks)
    {
      if f == c && Satisfies(before[c], n, ls[k].asks) {
        assert f in queue' && ls[k].counter == f;
      }
    }
    assert c !in queue;
  }

  lemma UnsatNext(filters: seq<Filter>, ls: seq<Listener>, k: nat, n: nat, before: seq<nat>,
      unsat: seq<(FilterId, TypeId)>, unsat': seq<(FilterId, TypeId)>)
    requires k < |ls| && UnsatTold(filters, ls, k, n, before, unsat) && 0 <= ls[k].counter < |before|
    requires forall p :: p in unsat' <==>
      || p in unsat
      || (p.0 == ls[k].counter && Fails(before[p.0], n, ls[k].asks) && HasOutput(filters, p.0, p.1))
    ensures UnsatTold(filters, ls, k + 1, n, before, unsat')
  {
    hide Fails, HasOutput;
    forall p ensures p in unsat' <==>
      && HasOutput(filters, p.0, p.1)
      && exists i :: 0 <= i < k + 1 && ls[i].counter == p.0 && 0 <= p.0 < |before| && Fails(before[p.0], n, ls[i].asks)
    {
      if p.0 == ls[k].counter && Fails(before[p.0], n, ls[k].asks) { assert ls[k].counter == p.0; }
    }
  }

  lemma NotifiedNext(
    filters: seq<Filter>, ls: seq<Listener>, k: nat, n: nat, before: seq<nat>,
    mid: seq<nat>, queue: seq<FilterId>, unsat: seq<(FilterId, TypeId)>,
    after: seq<nat>, queue': seq<FilterId>, unsat': seq<(FilterId, TypeId)>)
    requires DistinctCounters(ls) && k < |ls| && Notified(filters, ls, k, n, before, mid, queue, unsat)
    requires |after| == |mid| && 0 <= ls[k].counter < |mid|
    requires after == mid[ls[k].counter := Told(mid[ls[k].counter], n, ls[k].asks)]
    requires queue' == if Satisfies(mid[ls[k].counter], n, ls[k].asks) then queue + [ls[k].counter] else queue
    requires forall p :: p in unsat' <==>
      || p in unsat
      || (p.0 == ls[k].counter && Fails(mid[p.0], n, ls[k].asks) && HasOutput(filters, p.0, p.1))
    ensures Notified(filters, ls, k + 1, n, before, after, queue', unsat')
  {
    hide Told, Satisfies, Fails, HasOutput, QueueTold, UnsatTold, DistinctCounters;
    CountersNext(ls, k, n, before, mid, after);
    QueueNext(ls, k, n, before, queue, queue');
    UnsatNext(filters, ls, k, n, before, unsat, unsat');
  }

  // ---------------------------------------------------------------- nobody is told twice

  lemma SameFilterSameArgument(filters: seq<Filter>, w: Wires, f: FilterId, a: Argument, b: Argument)
    requires WiresInRange(filters, w) && (f, a) in w && (f, b) in w && a.id == b.id
    requires 0 <= f < |filters| ==> DistinctTypes(filters[f].args)
    ensures a == b
  {
    var args := filters[(f, a).0].args;
    assert (f, a).1 in args && (f, b).1 in args;
    var i :| 0 <= i < |args| && args[i] == a;
    var j :| 0 <= j < |args| && args[j] == b;
  }

  lemma ListenersDiffer(filters: seq<Filter>, w: Wires, lists: ListMap, t: TypeId)
    requires Structure(filters, w, lists) && t in lists
    requires forall f :: 0 <= f < |filters| ==> DistinctTypes(filters[f].args)
    ensures DistinctCounters(Listeners(lists[t]))
  {
    hide WiredPublishers, MultiplicityOk, Sorted, DistinctTypes;
    assert ListOk(filters, w, lists, t);
    var l := lists[t];
    var ls := Listeners(l);
    forall i, j | 0 <= i < j < |ls| ensures ls[i].counter != ls[j].counter {
      if ls[i].counter == ls[j].counter {
        var m := |l.modifiers|;
        if j < m {
          SameModifier(filters, w, t, l.modifiers, i, j);
        } else if i < m {
          ModifierNoSubscriber(filters, w, t, l.modifiers, l.subscribers, i, j - m);
        } else {
          SameSubscriber(filters, w, t, l.subscribers, i - m, j - m);
        }
      }
    }
  }

  lemma SameModifier(filters: seq<Filter>, w: Wires, t: TypeId, mods: seq<Modifier>, i: nat, j: nat)
    requires WiresInRange(filters, w) && ModifiersOk(filters, w, t, mods) && i < j < |mods|
    ensures mods[i].counter != mods[j].counter
  {
    assert mods[i] in mods && mods[j] in mods;
  }

  lemma SameSubscriber(filters: seq<Filter>, w: Wires, t: TypeId, subs: seq<Subscriber>, i: nat, j: nat)
    requires WiresInRange(filters, w) && SubscribersOk(filters, w, t, subs) && i < j < |subs|
    ensures subs[i].counter != subs[j].counter
  {
    assert subs[i] in subs && subs[j] in subs && subs[i].Before(subs[j]);
  }

  lemma ModifierNoSubscriber(
    filters: seq<Filter>, w: Wires, t: TypeId, mods: seq<Modifier>, subs: seq<Subscriber>, i: nat, j: nat)
    requires WiresInRange(filters, w) && ModifiersOk(filters, w, t, mods) && SubscribersOk(filters, w, t, subs)
    requires i < |mods| && j < |subs|
    requires forall f :: 0 <= f < |filters| ==> DistinctTypes(filters[f].args)
    ensures mods[i].counter != subs[j].counter
  {
    hide DistinctTypes, Sorted;
    assert mods[i] in mods && subs[j] in subs;
    var p :| p in w && p.1.id == t && p.1.isRvalue && mods[i] == ModifierFor(filters, p.0, p.1);
    var q :| q in w && q.1.id == t && q.1.Subscribes() && subs[j] == SubscriberFor(filters, q.0, q.1);
    if p == (p.0, p.1) && q == (p.0, q.1) {
      SameFilterSameArgument(filters, w, p.0, p.1, q.1);
    }
  }

  // ---------------------------------------------------------------- in terms of the two lists

  /** Everyone was told of a type with `n` decorations. A modifier that takes a shared pointer and a subscriber that is
      not Normal count it as an input delivered whatever `n` is; the others only if there is a decoration, and are
      given up if there is none. The queue holds those that missed this input only, modifiers first, and `unsat` every
      output of those that were given up while they still missed something. */
  ghost predicate ToldAll(
    filters: seq<Filter>, l: Lists, n: nat, before: seq<nat>, after: seq<nat>,
    queue: seq<FilterId>, unsat: seq<(FilterId, TypeId)>)
  {
    && |after| == |before| && Distinct(queue) && queue == QueueOf(Listeners(l), |Listeners(l)|, n, before)
    && (forall m :: m in l.modifiers ==>
          && 0 <= m.counter < |before|
          && after[m.counter] ==
               if before[m.counter] == 0 || (n == 0 && !m.isShared) then 0 else before[m.counter] - 1)
    && (forall x :: x in l.subscribers ==>
          && 0 <= x.counter < |before|
          && after[x.counter] ==
               if before[x.counter] == 0 || (n == 0 && x.kind == Normal) then 0 else before[x.counter] - 1)
    && (forall f :: 0 <= f < |before| && !Modifies(l, f) && !Subscribes(l, f) ==> after[f] == before[f])
    && (forall f :: f in queue <==>
          && 0 <= f < |before| && before[f] == 1
          && (|| (exists m :: m in l.modifiers && m.counter == f && (n > 0 || m.isShared))
              || (exists x :: x in l.subscribers && x.counter == f && (n > 0 || x.kind != Normal))))
    && (forall p :: p in unsat <==>
          && HasOutput(filters, p.0, p.1) && 0 <= p.0 < |before| && before[p.0] > 0 && n == 0
          && (|| (exists m :: m in l.modifiers && m.counter == p.0 && !m.isShared)
              || (exists x :: x in l.subscribers && x.counter == p.0 && x.kind == Normal)))
  }

  ghost predicate Modifies(l: Lists, f: FilterId) { exists m :: m in l.modifiers && m.counter == f }

  ghost predicate Subscribes(l: Lists, f: FilterId) { exists x :: x in l.subscribers && x.counter == f }

  /** A modifier or subscriber of this filter listens. */
  ghost predicate Hears(l: Lists, f: FilterId, asks: bool) {
    || (exists m :: m in l.modifiers && m.counter == f && asks == !m.isShared)
    || (exists x :: x in l.subscribers && x.counter == f && asks == (x.kind == Normal))
  }

  lemma HearsAt(l: Lists, f: FilterId, asks: bool)
    ensures Hears(l, f, asks) <==> exists i :: 0 <= i < |Listeners(l)| && Listeners(l)[i] == Listener(f, asks)
  {
    var ls := Listeners(l);
    if m :| m in l.modifiers && m.counter == f && asks == !m.isShared {
      var i :| 0 <= i < |l.modifiers| && l.modifiers[i] == m;
      assert ls[i] == Listener(f, asks);
    }
    if x :| x in l.subscribers && x.counter == f && asks == (x.kind == Normal) {
      var i :| 0 <= i < |l.subscribers| && l.subscribers[i] == x;
      assert ls[|l.modifiers| + i] == Listener(f, asks);
    }
    if i :| 0 <= i < |ls| && ls[i] == Listener(f, asks) {
      if i < |l.modifiers| { assert l.modifiers[i] in l.modifiers; }
      else { assert l.subscribers[i - |l.modifiers|] in l.subscribers; }
    }
  }

  /** The same, by filter instead of by position. */
  ghost predicate ToldByFilter(
    filters: seq<Filter>, l: Lists, n: nat, before: seq<nat>, after: seq<nat>,
    queue: seq<FilterId>, unsat: seq<(FilterId, TypeId)>)
  {
    && |after| == |before|
    && (forall f, asks :: Hears(l, f, asks) ==> 0 <= f < |before| && after[f] == Told(before[f], n, asks))
    && (forall f :: 0 <= f < |before| && !Hears(l, f, true) && !Hears(l, f, false) ==> after[f] == before[f])
    && (forall f :: f in queue <==>
          0 <= f < |before| && exists asks :: Hears(l, f, asks) && Satisfies(before[f], n, asks))
    && (forall p :: p in unsat <==>
          && HasOutput(filters, p.0, p.1) && 0 <= p.0 < |before|
          && exists asks :: Hears(l, p.0, asks) && Fails(before[p.0], n, asks))
  }

  lemma NotifiedByFilter(
    filters: seq<Filter>, l: Lists, n: nat, before: seq<nat>, after: seq<nat>,
    queue: seq<FilterId>, unsat: seq<(FilterId, TypeId)>)
    requires Notified(filters, Listeners(l), |Listeners(l)|, n, before, after, queue, unsat)
    ensures ToldByFilter(filters, l, n, before, after, queue, unsat)
  {
    hide Hears, Told, Satisfies, Fails, HasOutput, Listeners, QueueOf, Notified;
    CountersByFilter(filters, l, n, before, after, queue, unsat);
    forall f ensures f in queue <==>
      0 <= f < |before| && exists asks :: Hears(l, f, asks) && Satisfies(before[f], n, asks)
    {
      QueuedByFilter(filters, l, n, before, after, queue, unsat, f);
    }
    forall p ensures p in unsat <==>
      && HasOutput(filters, p.0, p.1) && 0 <= p.0 < |before|
      && exists asks :: Hears(l, p.0, asks) && Fails(before[p.0], n, asks)
    {
      GivenUpByFilter(filters, l, n, before, after, queue, unsat, p);
    }
  }

  lemma CountersByFilter(
    filters: seq<Filter>, l: Lists, n: nat, before: seq<nat>, after: seq<nat>,
    queue: seq<FilterId>, unsat: seq<(FilterId, TypeId)>)
    requires Notified(filters, Listeners(l), |Listeners(l)|, n, before, after, queue, unsat)
    ensures |after| == |before|
    ensures forall f, asks :: Hears(l, f, asks) ==> 0 <= f < |before| && after[f] == Told(before[f], n, asks)
    ensures forall f :: 0 <= f < |before| && !Hears(l, f, true) && !Hears(l, f, false) ==> after[f] == before[f]
  {
    hide Hears, Told, Satisfies, Fails, HasOutput, Listeners, QueueOf, QueueTold, UnsatTold;
    forall f, asks ensures Hears(l, f, asks) <==> Listed(l, f, asks) { HearsAt(l, f, asks); }
    forall i | 0 <= i < |Listeners(l)| ensures Hears(l, Listeners(l)[i].counter, Listeners(l)[i].asks) {
      ListedHere(l, i);
    }
  }

  ghost predicate Listed(l: Lists, f: FilterId, asks: bool) {
    exists i :: 0 <= i < |Listeners(l)| && Listeners(l)[i] == Listener(f, asks)
  }

  lemma ListedHere(l: Lists, i: nat)
    requires i < |Listeners(l)|
    ensures Listed(l, Listeners(l)[i].counter, Listeners(l)[i].asks)
  {
    hide Listeners;
    assert Listeners(l)[i] == Listener(Listeners(l)[i].counter, Listeners(l)[i].asks);
  }

  lemma QueuedByFilter(
    filters: seq<Filter>, l: Lists, n: nat, before: seq<nat>, after: seq<nat>,
    queue: seq<FilterId>, unsat: seq<(FilterId, TypeId)>, f: FilterId)
    requires Notified(filters, Listeners(l), |Listeners(l)|, n, before, after, queue, unsat)
    ensures f in queue <==> 0 <= f < |before| && exists asks :: Hears(l, f, asks) && Satisfies(before[f], n, asks)
  {
    hide Hears, Told, Satisfies, Fails, HasOutput, Listeners, QueueOf, CountersTold, UnsatTold;
    HearsAt(l, f, true);
    HearsAt(l, f, false);
    if f in queue {
      var i :| 0 <= i < |Listeners(l)| && Listeners(l)[i].counter == f && 0 <= f < |before| &&
        Satisfies(before[f], n, Listeners(l)[i].asks);
      ListedHere(l, i);
    }
  }

  lemma GivenUpByFilter(
    filters: seq<Filter>, l: Lists, n: nat, before: seq<nat>, after: seq<nat>,
    queue: seq<FilterId>, unsat: seq<(FilterId, TypeId)>, p: (FilterId, TypeId))
    requires Notified(filters, Listeners(l), |Listeners(l)|, n, before, after, queue, unsat)
    ensures p in unsat <==>
      && HasOutput(filters, p.0, p.1) && 0 <= p.0 < |before|
      && exists asks :: Hears(l, p.0, asks) && Fails(before[p.0], n, asks)
  {
    hide Hears, Told, Satisfies, Fails, HasOutput, Listeners, QueueOf, CountersTold, QueueTold;
    HearsAt(l, p.0, true);
    HearsAt(l, p.0, false);
    if p in unsat {
      var i :| 0 <= i < |Listeners(l)| && Listeners(l)[i].counter == p.0 && 0 <= p.0 < |before| &&
        Fails(before[p.0], n, Listeners(l)[i].asks);
      ListedHere(l, i);
    }
  }

  lemma HearsQueue(l: Lists, n: nat, before: seq<nat>, f: FilterId)
    requires 0 <= f < |before|
    ensures (exists asks :: Hears(l, f, asks) && Satisfies(before[f], n, asks)) <==>
      && before[f] == 1
      && (|| (exists m :: m in l.modifiers && m.counter == f && (n > 0 || m.isShared))
          || (exists x :: x in l.subscribers && x.counter == f && (n > 0 || x.kind != Normal)))
  {
    if m :| m in l.modifiers && m.counter == f && (n > 0 || m.isShared) { assert Hears(l, f, !m.isShared); }
    if x :| x in l.subscribers && x.counter == f && (n > 0 || x.kind != Normal) {
      assert Hears(l, f, x.kind == Normal);
    }
  }

  lemma HearsFails(l: Lists, n: nat, before: seq<nat>, f: FilterId)
    requires 0 <= f < |before|
    ensures (exists asks :: Hears(l, f, asks) && Fails(before[f], n, asks)) <==>
      && before[f] > 0 && n == 0
      && (|| (exists m :: m in l.modifiers && m.counter == f && !m.isShared)
          || (exists x :: x in l.subscribers && x.counter == f && x.kind == Normal))
  {
    if m :| m in l.modifiers && m.counter == f && !m.isShared { assert Hears(l, f, true); }
    if x :| x in l.subscribers && x.counter == f && x.kind == Normal { assert Hears(l, f, true); }
  }

  lemma TheyHear(l: Lists)
    ensures forall m :: m in l.modifiers ==> Hears(l, m.counter, !m.isShared)
    ensures forall x :: x in l.subscribers ==> Hears(l, x.counter, x.kind == Normal)
    ensures forall f, asks :: Hears(l, f, asks) ==> Modifies(l, f) || Subscribes(l, f)
  {}

  lemma NotifiedQueue(
    filters: seq<Filter>, l: Lists, n: nat, before: seq<nat>, after: seq<nat>,
    queue: seq<FilterId>, unsat: seq<(FilterId, TypeId)>)
    requires Notified(filters, Listeners(l), |Listeners(l)|, n, before, after, queue, unsat)
    ensures Distinct(queue) && queue == QueueOf(Listeners(l), |Listeners(l)|, n, before)
  {
    hide HasOutput, Listeners, QueueOf, Satisfies, Fails, Told, CountersTold, UnsatTold;
  }

  lemma NotifiedAll(
    filters: seq<Filter>, l: Lists, n: nat, before: seq<nat>, after: seq<nat>,
    queue: seq<FilterId>, unsat: seq<(FilterId, TypeId)>)
    requires Notified(filters, Listeners(l), |Listeners(l)|, n, before, after, queue, unsat)
    ensures ToldAll(filters, l, n, before, after, queue, unsat)
  {
    hide HasOutput, Listeners, QueueOf, Satisfies, Fails, Hears, Notified;
    NotifiedByFilter(filters, l, n, before, after, queue, unsat);
    TheyHear(l);
    NotifiedQueue(filters, l, n, before, after, queue, unsat);
    forall f | 0 <= f < |before| ensures f in queue <==>
      && before[f] == 1
      && (|| (exists m :: m in l.modifiers && m.counter == f && (n > 0 || m.isShared))
          || (exists x :: x in l.subscribers && x.counter == f && (n > 0 || x.kind != Normal)))
    {
      HearsQueue(l, n, before, f);
    }
    forall p: (FilterId, TypeId) | 0 <= p.0 < |before| ensures p in unsat <==>
      && HasOutput(filters, p.0, p.1) && before[p.0] > 0 && n == 0
      && (|| (exists m :: m in l.modifiers && m.counter == p.0 && !m.isShared)
          || (exists x :: x in l.subscribers && x.counter == p.0 && x.kind == Normal))
    {
      HearsFails(l, n, before, p.0);
    }
  }
}
