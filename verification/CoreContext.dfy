/** The life of a tree of contexts: creation, initiation and shutdown, one call after the other. */
module CoreContexts {
  datatype LifeState = NotStarted | CanRun | Initiated | Running | Shutdown | Abandoned

  class CoreContext {
    var state: LifeState
    const parent: CoreContext?
    var children: seq<CoreContext>
    // history
    ghost const depth: nat
    ghost var initiated: bool
    ghost var down: bool

    constructor (parent: CoreContext?)
      ensures state == NotStarted && this.parent == parent && children == [] && !initiated && !down
      ensures depth == if parent == null then 0 else parent.depth + 1
    {
      state, this.parent, children := NotStarted, parent, [];
      depth := if parent == null then 0 else parent.depth + 1;
      initiated, down := false, false;
    }

    predicate IsInitiated()
      reads this
    {
      state == Initiated || state == Running || state == Shutdown
    }

    predicate IsRunning()
      reads this
    {
      state == Running
    }

    predicate IsShutdown()
      reads this
    {
      state == Shutdown || state == Abandoned
    }

    // ---------------------------------------------------------------- invariant

    /** This context and its neighbours belong to the tree `all`. */
    ghost predicate Placed(all: set<CoreContext>)
      reads this, all
    {
      && this in all
      && (parent != null ==> parent in all && this in parent.children && depth == parent.depth + 1)
      && (forall i :: 0 <= i < |children| ==> children[i] in all && children[i].parent == this)
      && forall i, j :: 0 <= i < j < |children| ==> children[i] != children[j]
    }

    /** The state is that of a context that is live or shut down, and was or was not initiated. */
    ghost predicate OwnState()
      reads this
    {
      && (down <==> IsShutdown())
      && (initiated <==> IsInitiated())
    }

    /** The state agrees with that of the parent. */
    ghost predicate Settled()
      reads this, parent
    {
      && OwnState()
      && (parent != null && parent.down ==> down)
      && (!down ==> (IsRunning() <==> initiated && (parent == null || parent.IsRunning())))
      && (!down ==> (state == CanRun <==> !initiated && parent != null && parent.IsRunning()))
    }
  }

  ghost predicate Tree(all: set<CoreContext>)
    reads all
  {
    forall c :: c in all ==> c.Placed(all)
  }

  /** Every context is settled, except those whose parent is just being dealt with. */
  ghost predicate Stable(all: set<CoreContext>, pending: set<CoreContext>)
    requires Tree(all)
    reads all
  {
    forall c :: c in all && c !in pending ==> c.Settled()
  }

  /** All of them are initiated: the context and its ancestors. */
  ghost predicate AllInitiated(c: CoreContext, all: set<CoreContext>)
    requires Tree(all) && c in all
    reads all
    decreases c.depth
  {
    c.initiated && (c.parent == null || AllInitiated(c.parent, all))
  }

  /** What the states mean. A live context has live ancestors only; it runs exactly if all of them and itself
      were initiated. */
  lemma {:induction false} StateMeans(c: CoreContext, all: set<CoreContext>)
    requires Tree(all) && Stable(all, {}) && c in all
    ensures c.down ==> c.state == if c.initiated then Shutdown else Abandoned
    ensures !c.down && c.parent != null ==> !c.parent.down
    ensures !c.down ==> (
      c.state ==
      if c.initiated then (if AllInitiated(c, all) then Running else Initiated)
      else if c.parent != null && AllInitiated(c.parent, all) then CanRun else NotStarted)
    decreases c.depth
  {
    if c.parent != null { StateMeans(c.parent, all); }
  }

  /** Whether `x` is `c` or below it. */
  ghost predicate Under(x: CoreContext, c: CoreContext)
    decreases x.depth
  {
    x == c || (x.parent != null && x.parent.depth < x.depth && Under(x.parent, c))
  }

  /** Shutdown is closed downwards. */
  lemma {:induction false} DownClosed(x: CoreContext, c: CoreContext, all: set<CoreContext>)
    requires Tree(all) && Stable(all, {}) && x in all && c.down && Under(x, c)
    ensures x.down && x.IsShutdown()
    decreases x.depth
  {
    if x != c { DownClosed(x.parent, c, all); }
  }

  lemma {:induction false} UnderTrans(x: CoreContext, child: CoreContext, c: CoreContext)
    requires Under(x, child) && child.parent == c && c.depth < child.depth
    ensures Under(x, c)
    decreases x.depth
  {
    if x != child { UnderTrans(x.parent, child, c); }
  }

  ghost function Deeper(all: set<CoreContext>, depth: nat): set<CoreContext> {
    set c | c in all && c.depth > depth
  }

  // ---------------------------------------------------------------- operations

  /** Creates a child; refused once the parent is shut down. */
  method Create(parent: CoreContext, ghost all: set<CoreContext>) returns (child: CoreContext?)
    requires Tree(all) && Stable(all, {}) && parent in all
    modifies parent`children
    ensures child == null <==> parent.IsShutdown()
    ensures child == null ==> parent.children == old(parent.children)
    ensures child != null ==>
      && fresh(child) && child.parent == parent && child.children == []
      && parent.children == old(parent.children) + [child]
      && !child.initiated && !child.down
      && Tree(all + {child}) && Stable(all + {child}, {})
  {
    if parent.IsShutdown() {
      return null;
    }
    child := new CoreContext(parent);
    if parent.IsRunning() {
      child.state := CanRun;
    }
    parent.children := parent.children + [child];
    forall c | c in all + {child} ensures c.Placed(all + {child}) {
      if c != child { assert old(c.Placed(all)); }
    }
    forall c | c in all + {child} ensures c.Settled() {
      if c != child { assert old(c.Placed(all)) && old(c.Settled()); } else { assert old(parent.Settled()); }
    }
  }

  /** The state before the parent ran. */
  ghost predicate Waiting(c: CoreContext)
    reads c
  {
    c.OwnState() && (!c.down ==> c.state == if c.initiated then Initiated else NotStarted)
  }

  lemma ChildIndex(x: CoreContext, all: set<CoreContext>)
    requires Tree(all) && x in all && x.parent != null
    ensures exists i :: 0 <= i < |x.parent.children| && x.parent.children[i] == x
    ensures x.depth == x.parent.depth + 1
  {
    assert x.Placed(all);
  }

  /** The context has just started to run: children that were initiated run too, and so on downwards; the
      others can run now. Contexts in `pending` are children of contexts further up, still to be visited. */
  method TryTransitionChildrenState(c: CoreContext, ghost all: set<CoreContext>, ghost pending: set<CoreContext>)
    requires Tree(all) && c in all && c.IsRunning() && c.OwnState()
    requires forall x :: x in all && x !in pending && x.parent != c ==> x.Settled()
    requires forall x :: x in all && x.parent == c ==> Waiting(x)
    requires forall x :: x in pending ==> x.depth <= c.depth
    modifies all`state
    ensures Tree(all) && Stable(all, pending)
    ensures forall x :: x in all && x.depth <= c.depth ==> x.state == old(x.state)
    decreases Deeper(all, c.depth), 0
  {
    hide Deeper;
    assert c.Placed(all);
    for i := 0 to |c.children|
      invariant Tree(all) && c.IsRunning()
      invariant forall x :: x in all && x !in pending && x.parent != c ==> x.Settled()
      invariant forall j :: 0 <= j < i ==> c.children[j].Settled()
      invariant forall j :: i <= j < |c.children| ==> Waiting(c.children[j])
      invariant forall x :: x in all && x.depth <= c.depth ==> x.state == old(x.state)
    {
      var child := c.children[i];
      ghost var later := set j | i < j < |c.children| :: c.children[j];
      assert child.Placed(all);
      DeeperLess(all, c, child);
      OnlyLater(c, i, all, pending);
      TryTransition(child, all, pending + later);
    }
    forall x | x in all && x !in pending ensures x.Settled() {
      if x.parent == c { ChildIndex(x, all); }
    }
  }

  lemma OnlyLater(c: CoreContext, i: nat, all: set<CoreContext>, pending: set<CoreContext>)
    requires Tree(all) && c in all && i < |c.children|
    requires forall x :: x in all && x !in pending && x.parent != c ==> x.Settled()
    requires forall j :: 0 <= j < i ==> c.children[j].Settled()
    ensures var later := set j | i < j < |c.children| :: c.children[j];
      && c.children[i] !in later
      && (forall x :: x in later ==> x.depth == c.depth + 1)
      && forall x :: x in all && x !in pending && x !in later && x != c.children[i] ==> x.Settled()
  {
    assert c.Placed(all);
    var later := set j | i < j < |c.children| :: c.children[j];
    forall x | x in later ensures x.depth == c.depth + 1 {
      var j :| i < j < |c.children| && x == c.children[j];
      assert x.Placed(all);
    }
    forall x | x in all && x !in pending && x !in later && x != c.children[i] ensures x.Settled() {
      if x.parent == c { ChildIndex(x, all); }
    }
  }

  /** One child of a context that has started to run. */
  method TryTransition(child: CoreContext, ghost all: set<CoreContext>, ghost pending: set<CoreContext>)
    requires Tree(all) && child in all && child.parent != null && child.parent.IsRunning() && !child.parent.down
    requires Waiting(child) && child !in pending
    requires forall x :: x in all && x !in pending && x != child ==> x.Settled()
    requires forall x :: x in pending ==> x.depth <= child.depth
    modifies all`state
    ensures Tree(all) && Stable(all, pending)
    ensures forall x :: x in all && x.depth <= child.depth && x != child ==> x.state == old(x.state)
    decreases Deeper(all, child.depth), 1
  {
    hide Deeper;
    assert child.Placed(all);
    if child.state == Initiated {
      child.state := Running;
      TryTransitionChildrenState(child, all, pending);
    } else if child.state == NotStarted {
      child.state := CanRun;
    }
    assert Tree(all);
  }

  lemma DeeperLess(all: set<CoreContext>, c: CoreContext, child: CoreContext)
    requires child in all && child.depth > c.depth
    ensures Deeper(all, child.depth) < Deeper(all, c.depth)
  {
    assert child in Deeper(all, c.depth) && child !in Deeper(all, child.depth);
    assert Deeper(all, child.depth) <= Deeper(all, c.depth);
  }

  /** Initiates a context. */
  method Initiate(c: CoreContext, ghost all: set<CoreContext>)
    requires Tree(all) && Stable(all, {}) && c in all
    modifies all`state, c`initiated
    ensures Tree(all) && Stable(all, {})
    ensures c.initiated == (old(c.initiated) || !c.down)
    ensures forall x :: x in all && x.depth <= c.depth && x != c ==> x.state == old(x.state)
  {
    assert c.Placed(all) && c.Settled();
    if c.IsInitiated() {
      return;
    }
    match c.state {
      case Initiated => return;
      case Running => return;
      case NotStarted => c.state := if c.parent == null then Running else Initiated;
      case CanRun => c.state := Running;
      case Shutdown => return;
      case Abandoned => return;
    }
    c.initiated := true;
    assert Tree(all) && c.Settled();
    forall x | x in all && x != c && (x.parent != c || !c.IsRunning()) ensures x.Settled() {
      assert old(x.Settled()) && x.Placed(all);
    }
    if !c.IsRunning() {
      assert forall x :: x in all ==> x.Settled();
      return;
    }
    forall x | x in all && x.parent == c ensures Waiting(x) {
      assert old(x.Settled());
    }
    TryTransitionChildrenState(c, all, {});
  }

  /** Shuts a context down, and with it everything below. Contexts in `pending` are children of contexts
      further up that were shut down, still to be visited. */
  method SignalShutdown(c: CoreContext, ghost all: set<CoreContext>, ghost pending: set<CoreContext>)
    requires Tree(all) && c in all && c.OwnState()
    requires forall x :: x in all && x !in pending && x != c ==> x.Settled()
    requires forall x :: x in pending ==> x in all && x.OwnState() && x.depth <= c.depth
    modifies all`state, all`down
    ensures Tree(all) && Stable(all, pending - {c}) && c.down
    ensures forall x :: x in pending ==> x.OwnState()
    ensures forall x :: x in all && x.depth <= c.depth && x != c ==> x.state == old(x.state) && x.down == old(x.down)
    ensures forall x :: x in all && old(x.down) ==> x.down
    ensures forall x :: x in all && x.down && !old(x.down) ==> Under(x, c)
    decreases Deeper(all, c.depth), 1
  {
    hide Deeper;
    assert c.Placed(all);
    if c.IsShutdown() {
      return;
    }
    c.state := if c.state == NotStarted || c.state == CanRun then Abandoned else Shutdown;
    c.down := true;
    ShutdownChildren(c, all, pending - {c});
  }

  /** The children of a context that was shut down, the last one first. */
  method ShutdownChildren(c: CoreContext, ghost all: set<CoreContext>, ghost pending: set<CoreContext>)
    requires Tree(all) && c in all && c.OwnState() && c.down && c !in pending
    requires forall x :: x in all && x !in pending && x.parent != c ==> x.Settled()
    requires forall x :: x in all && x.parent == c ==> x.OwnState()
    requires forall x :: x in pending ==> x in all && x.OwnState() && x.depth <= c.depth
    modifies all`state, all`down
    ensures Tree(all) && Stable(all, pending) && c.down
    ensures forall x :: x in pending ==> x.OwnState()
    ensures forall x :: x in all && x.depth <= c.depth ==> x.state == old(x.state) && x.down == old(x.down)
    ensures forall x :: x in all && old(x.down) ==> x.down
    ensures forall x :: x in all && x.down && !old(x.down) ==> Under(x, c)
    decreases Deeper(all, c.depth), 0
  {
    hide Deeper;
    assert c.Placed(all);
    var i := |c.children|;
    while i > 0
      invariant 0 <= i <= |c.children| && c.down && c.OwnState() && Tree(all)
      invariant forall x :: x in all && x !in pending && x.parent != c ==> x.Settled()
      invariant forall j :: i <= j < |c.children| ==> c.children[j].Settled()
      invariant forall j :: 0 <= j < i ==> c.children[j].OwnState()
      invariant forall x :: x in pending ==> x.OwnState()
      invariant forall x :: x in all && x.depth <= c.depth ==> x.state == old(x.state) && x.down == old(x.down)
      invariant forall x :: x in all && old(x.down) ==> x.down
      invariant forall x :: x in all && x.down && !old(x.down) ==> Under(x, c)
    {
      i := i - 1;
      var child := c.children[i];
      assert child.Placed(all);
      DeeperLess(all, c, child);
      ghost var earlier := set j | 0 <= j < i :: c.children[j];
      OnlyEarlier(c, i, all, pending);
      forall x | x in all && Under(x, child) ensures Under(x, c) { UnderTrans(x, child, c); }
      SignalShutdown(child, all, pending + earlier);
    }
    forall x | x in all && x !in pending ensures x.Settled() {
      if x.parent == c { ChildIndex(x, all); }
    }
  }

  lemma OnlyEarlier(c: CoreContext, i: nat, all: set<CoreContext>, pending: set<CoreContext>)
    requires Tree(all) && c in all && i < |c.children|
    requires forall x :: x in all && x !in pending && x.parent != c ==> x.Settled()
    requires forall j :: i < j < |c.children| ==> c.children[j].Settled()
    ensures var earlier := set j | 0 <= j < i :: c.children[j];
      && c.children[i] !in earlier
      && (forall x :: x in earlier ==> x in all && x.depth == c.depth + 1)
      && forall x :: x in all && x !in pending && x !in earlier && x != c.children[i] ==> x.Settled()
  {
    assert c.Placed(all);
    var earlier := set j | 0 <= j < i :: c.children[j];
    forall x | x in earlier ensures x in all && x.depth == c.depth + 1 {
      var j :| 0 <= j < i && x == c.children[j];
      assert x.Placed(all);
    }
    forall x | x in all && x !in pending && x !in earlier && x != c.children[i] ensures x.Settled() {
      if x.parent == c { ChildIndex(x, all); }
    }
  }
}
