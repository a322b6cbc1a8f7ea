/** Several decorations of one type: they come from several publishers, and then nobody listens who could take only
    one. This holds after every sequence of additions, whether accepted or refused, attached and concluded outputs,
    marks, immediates and removals, so the exceptions that guard against it are never thrown. */
module Broadcast {
  import opened Prelude
  import opened FilterNetwork
  import opened PacketState
  import opened PacketSteps
  import opened Wiring

  /** Decorations were attached one at a time, by as many producers, while fewer than the publishers had run. */
  ghost predicate BroadcastOk(d: Slot, publishers: nat) {
    && (d.phase != Complete ==>
          |d.decorations| <= d.producersRun && (d.producersRun < publishers || d.producersRun == 0))
    && (|d.decorations| > 1 ==> publishers > 1)
  }

  lemma AdvanceKeeps(d: Slot, e: Emission, publishers: nat)
    requires BroadcastOk(d, publishers) && (d.phase != Complete || e == Null)
    ensures BroadcastOk(Advance(d, e, publishers), publishers)
  {}

  // ---------------------------------------------------------------- everything that can happen to a disposition

  datatype Cell = Cell(slot: Slot, lists: Lists)

  const EMPTY_CELL := Cell(EMPTY_SLOT, NO_LISTS)

  datatype Event =
    | Publish(publisher: FilterId)
    | Subscribe(subscriber: Subscriber)
    | Modify(modifier: Modifier, place: nat)
    | Attach(ptr: Emission)
    | ConcludeNull
    | Mark
    | TurnOn
    | Remove

  /** Whether the packet throws instead of doing it. */
  predicate Refuses(c: Cell, e: Event) {
    match e
    case Publish(_) =>
      c.lists.publishers != [] && (c.lists.modifiers != [] || exists x :: x in c.lists.subscribers && x.kind != Multi)
    case Subscribe(x) => |c.lists.publishers| > 1 && x.kind != Multi
    case Modify(m, k) =>
      || |c.lists.publishers| > 1 || k > |c.lists.modifiers|
      || exists x :: x in c.lists.modifiers && x.altitude == m.altitude
    case Attach(_) => c.slot.phase == Complete
    case TurnOn => c.slot.phase != Unsatisfied
    case _ => false
  }

  /** An event that enters an argument is refused exactly where the argument clashes with the lists. */
  lemma RefusesClash(filters: seq<Filter>, c: Cell, f: FilterId, a: Argument, place: nat)
    requires 0 <= f < |filters| && a.Tabled() && place <= |c.lists.modifiers|
    ensures a.isOutput && !a.isRvalue ==> (Refuses(c, Publish(f)) <==> Clash(filters, c.lists, f, a))
    ensures a.isInput && !a.isRvalue ==>
      (Refuses(c, Subscribe(SubscriberFor(filters, f, a))) <==> Clash(filters, c.lists, f, a))
    ensures a.isRvalue ==>
      (Refuses(c, Modify(ModifierFor(filters, f, a), place)) <==> Clash(filters, c.lists, f, a))
  {}

  /** The disposition afterwards: a refused event leaves it alone. */
  function After(c: Cell, e: Event): Cell {
    if Refuses(c, e) then c else
    match e
    case Publish(f) => c.(lists := c.lists.(publishers := c.lists.publishers + [f]))
    case Subscribe(x) => c.(lists := c.lists.(subscribers := Insert(c.lists.subscribers, x)))
    case Modify(m, k) =>
      var mods := c.lists.modifiers;
      c.(lists := c.lists.(modifiers := mods[..k] + [m] + mods[k..]))
    case Attach(ptr) => c.(slot := Advance(c.slot, ptr, |c.lists.publishers|))
    case ConcludeNull => c.(slot := Advance(c.slot, Null, |c.lists.publishers|))
    case Mark => c.(slot := Slot(c.slot.producersRun, [], Complete))
    case TurnOn => c.(slot := c.slot.(phase := Complete))
    case Remove => c.(slot := c.slot.(decorations := []))
  }

  type Cells = map<TypeId, Cell>

  function CellAt(cells: Cells, t: TypeId): Cell { if t in cells then cells[t] else EMPTY_CELL }

  /** The dispositions after a run. */
  function Play(run: seq<(TypeId, Event)>): Cells {
    if run == [] then map[]
    else
      var cells := Play(run[..|run| - 1]);
      var (t, e) := run[|run| - 1];
      cells[t := After(CellAt(cells, t), e)]
  }

  // ---------------------------------------------------------------- the invariant

  ghost predicate CellOk(c: Cell) {
    && BroadcastOk(c.slot, |c.lists.publishers|)
    && MultiplicityOk(c.lists.publishers, c.lists.modifiers, c.lists.subscribers)
  }

  /** What an update tests before it throws: several decorations of a type with a subscriber that takes one. */
  predicate SubscriberThrows(d: Slot, subs: seq<Subscriber>) {
    |d.decorations| > 1 && exists x :: x in subs && x.kind != Multi
  }

  /** The same for modifiers, which all take one. */
  predicate ModifierThrows(d: Slot, mods: seq<Modifier>) {
    |d.decorations| > 1 && mods != []
  }

  lemma {:induction false} InsertedIn(subs: seq<Subscriber>, x: Subscriber)
    ensures forall y :: y in Insert(subs, x) ==> y in subs || y == x
  {
    if subs != [] { InsertedIn(subs[1..], x); }
  }

  lemma EventKeeps(c: Cell, e: Event)
    requires CellOk(c)
    ensures CellOk(After(c, e))
  {
    hide Insert;
    match e {
      case Subscribe(x) => InsertedIn(c.lists.subscribers, x);
      case _ =>
    }
  }

  lemma {:induction false} RunKeeps(run: seq<(TypeId, Event)>, t: TypeId)
    ensures CellOk(CellAt(Play(run), t))
  {
    if run != [] {
      RunKeeps(run[..|run| - 1], t);
      EventKeeps(CellAt(Play(run[..|run| - 1]), t), run[|run| - 1].1);
    }
  }

  lemma CellNeverThrows(c: Cell)
    requires CellOk(c)
    ensures !SubscriberThrows(c.slot, c.lists.subscribers) && !ModifierThrows(c.slot, c.lists.modifiers)
  {}

  /** Over every run, a type with several publishers has Multi subscribers only and no modifiers, one with several
      decorations has several publishers, and so neither exception is ever thrown. */
  lemma NeverThrows(run: seq<(TypeId, Event)>, t: TypeId)
    ensures var c := CellAt(Play(run), t);
            && (|c.lists.publishers| > 1 ==>
                  c.lists.modifiers == [] && forall x :: x in c.lists.subscribers ==> x.kind == Multi)
            && (|c.slot.decorations| > 1 ==> |c.lists.publishers| > 1)
            && !SubscriberThrows(c.slot, c.lists.subscribers) && !ModifierThrows(c.slot, c.lists.modifiers)
  {
    RunKeeps(run, t);
  }
}
