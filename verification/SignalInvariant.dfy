/** What every reachable state of a signal satisfies. */
module SignalInvariant {
  import opened Prelude
  import opened SignalProtocol

  predicate UpdateOwner(pc: Pc) { pc.CheckChain? || pc.Cancel? || pc.DoSplice? || pc.SetFree? }
  predicate AssertOwner(pc: Pc) { pc.Running? || pc.Leave? || pc.Drain? || pc.Release? || pc.Execute? }
  predicate Owns(pc: Pc) { UpdateOwner(pc) || AssertOwner(pc) }

  /** The request a thread is working on. */
  function Holds(pc: Pc): Option<Splice> {
    match pc
    case TryUpdate(x) => Some(x)
    case PushSplice(x) => Some(x)
    case TryDefer(x, _, _) => Some(x)
    case TryTake(x, _, _) => Some(x)
    case CheckChain(x, _, _) => Some(x)
    case Cancel(x, _) => Some(x)
    case DoSplice(x) => Some(x)
    case SetFree(x) => Some(x)
    case _ => None
  }

  /** The ticket of the call a thread is handing off. */
  function CallTicket(pc: Pc): Option<nat> {
    match pc
    case CallDefer(k) => Some(k)
    case CallTake(k) => Some(k)
    case _ => None
  }

  /** The signal is not Free exactly when one thread owns it, and the state says in which way. */
  ghost predicate OwnerOk(sig: Sig, owner: Option<nat>, threads: seq<Pc>) {
    && (sig == Free <==> owner == None)
    && (owner.Some? ==> owner.value < |threads|)
    && (forall i :: 0 <= i < |threads| ==> (Owns(threads[i]) <==> owner == Some(i)))
    && (forall i :: 0 <= i < |threads| && UpdateOwner(threads[i]) ==> sig == Updating)
    && (forall i :: 0 <= i < |threads| && AssertOwner(threads[i]) ==> sig in {Asserting, Deferred})
  }

  /** The released thunks the owner has still to run. */
  ghost function Chain(owner: Option<nat>, threads: seq<Pc>): seq<nat> {
    if owner.Some? && owner.value < |threads| && threads[owner.value].Execute? then threads[owner.value].chain else []
  }

  ghost predicate Releasing(owner: Option<nat>, threads: seq<Pc>) {
    owner.Some? && owner.value < |threads| && threads[owner.value] == Release
  }

  /** Thunks were executed in ticket order; then come those of the owner's chain, then the list. */
  ghost predicate QueueOk(list: seq<nat>, chain: seq<nat>, pushed: nat, released: nat, executed: seq<nat>) {
    && |executed| <= released <= pushed
    && executed == Range(0, |executed|)
    && chain == Range(|executed|, released)
    && list == Reverse(Range(released, pushed))
  }

  ghost predicate ThreadsOk(threads: seq<Pc>, worker: map<Splice, nat>, returned: set<Splice>) {
    && (forall i :: 0 <= i < |threads| && Holds(threads[i]).Some? ==>
          var x := Holds(threads[i]).value; x in worker && worker[x] == i && x !in returned)
    && (forall x :: x in worker ==> worker[x] < |threads|)
    && (forall x :: x in worker && x !in returned ==> Holds(threads[worker[x]]) == Some(x))
    && (forall x :: x in returned ==> x in worker)
  }

  ghost predicate TicketsOk(pushed: seq<Thunk>, ticket: map<Splice, nat>, worker: map<Splice, nat>) {
    && (forall k :: 0 <= k < |pushed| && pushed[k].SpliceThunk? ==> pushed[k].x in ticket && ticket[pushed[k].x] == k)
    && (forall x :: x in ticket ==> x in worker && ticket[x] < |pushed| && pushed[ticket[x]] == SpliceThunk(x))
  }

  ghost predicate CallsOk(threads: seq<Pc>, pushed: seq<Thunk>) {
    forall i :: 0 <= i < |threads| && CallTicket(threads[i]).Some? ==>
      var k := CallTicket(threads[i]).value; k < |pushed| && pushed[k].Callable?
  }

  /** What a thread working on `x` may rely on. */
  ghost predicate PcOk(s: State, x: Splice, pc: Pc) {
    match pc
    case TryUpdate(_) => x !in s.ticket && x !in s.done
    case PushSplice(_) => x !in s.ticket && x !in s.done
    case TryDefer(_, k, id) => TicketHeld(s, x, k, id)
    case TryTake(_, k, id) => TicketHeld(s, x, k, id)
    case CheckChain(_, k, id) => TicketHeld(s, x, k, id)
    case Cancel(_, k) =>
      x in s.ticket && s.ticket[x] == k && k !in s.cancelled && k !in s.relied && x !in s.done && k >= s.released
    case DoSplice(_) =>
      x !in s.done && (x in s.ticket ==> s.ticket[x] in s.cancelled && s.ticket[x] >= s.released)
    case SetFree(_) => x in s.done
    case _ => true
  }

  /** The chain id a thread was given is current exactly as long as its thunk is in the list. */
  ghost predicate TicketHeld(s: State, x: Splice, k: nat, id: nat) {
    && x in s.ticket && s.ticket[x] == k && k !in s.cancelled && k !in s.relied
    && (x in s.done <==> k < |s.executed|)
    && id <= s.chainId && (id == s.chainId <==> k >= s.released)
  }

  ghost predicate SpliceOk(s: State, x: Splice)
    requires x in s.worker
  {
    if x in s.returned then
      x in s.done || (x in s.ticket && s.ticket[x] in s.relied && s.ticket[x] >= |s.executed|)
    else s.worker[x] < |s.threads| && PcOk(s, x, s.threads[s.worker[x]])
  }

  ghost predicate DoneOk(s: State) {
    && Distinct(s.done)
    && (forall x :: x in s.done ==> x in s.worker)
    && (forall k :: 0 <= k < |s.pushed| && s.pushed[k].SpliceThunk? && k !in s.cancelled ==>
          (s.pushed[k].x in s.done <==> k < |s.executed|))
    && (forall k :: k in s.cancelled ==>
          && k < |s.pushed| && s.pushed[k].SpliceThunk? && k !in s.relied
          && var x := s.pushed[k].x;
             || x in s.done
             || (&& x in s.worker && x !in s.returned
                 && s.worker[x] < |s.threads| && s.threads[s.worker[x]] == DoSplice(x)))
  }

  /** A thunk whose pusher returned at once has an owner that must still release it. */
  ghost predicate DutyOk(s: State) {
    && (forall k :: k in s.relied ==> k < |s.pushed|)
    && (forall k :: k in s.relied && k >= s.released ==> s.sig == Deferred || Releasing(s.owner, s.threads))
  }

  ghost predicate OrderOk(
    worker: map<Splice, nat>, returned: set<Splice>, done: seq<Splice>, ticket: map<Splice, nat>)
  {
    forall e: nat :: Splice(Unlink, e) in worker ==>
      && Splice(Link, e) in returned
      && (Splice(Unlink, e) in done ==> Splice(Link, e) in done)
      && (Splice(Unlink, e) in ticket && Splice(Link, e) in ticket ==>
          ticket[Splice(Link, e)] < ticket[Splice(Unlink, e)])
  }

  ghost predicate ListenersOk(listeners: seq<nat>, done: seq<Splice>) {
    && Distinct(listeners)
    && forall e: nat :: e in listeners <==> Splice(Link, e) in done && Splice(Unlink, e) !in done
  }

  ghost predicate Inv(s: State) {
    && OwnerOk(s.sig, s.owner, s.threads)
    && QueueOk(s.list, Chain(s.owner, s.threads), |s.pushed|, s.released, s.executed)
    && ThreadsOk(s.threads, s.worker, s.returned)
    && TicketsOk(s.pushed, s.ticket, s.worker)
    && CallsOk(s.threads, s.pushed)
    && (forall x :: x in s.worker ==> SpliceOk(s, x))
    && DoneOk(s)
    && DutyOk(s)
    && OrderOk(s.worker, s.returned, s.done, s.ticket)
    && ListenersOk(s.listeners, s.done)
  }

  lemma InitInv(s: State)
    requires Init(s)
    ensures Inv(s)
  {}

  // ---------------------------------------------------------------- ownership

  lemma OwnerKeep(sig: Sig, owner: Option<nat>, threads: seq<Pc>, i: nat, pc: Pc)
    requires OwnerOk(sig, owner, threads) && i < |threads|
    requires UpdateOwner(pc) == UpdateOwner(threads[i]) && AssertOwner(pc) == AssertOwner(threads[i])
    ensures OwnerOk(sig, owner, threads[i := pc])
  {}

  lemma OwnerEnter(threads: seq<Pc>, i: nat, pc: Pc, sig: Sig)
    requires OwnerOk(Free, None, threads) && i < |threads|
    requires (UpdateOwner(pc) && sig == Updating) || (AssertOwner(pc) && sig == Asserting)
    ensures OwnerOk(sig, Some(i), threads[i := pc])
  {}

  lemma OwnerExit(sig: Sig, owner: Option<nat>, threads: seq<Pc>, i: nat)
    requires OwnerOk(sig, owner, threads) && i < |threads| && Owns(threads[i])
    ensures OwnerOk(Free, None, threads[i := Idle])
  {}

  lemma OwnerMark(sig: Sig, sig': Sig, owner: Option<nat>, threads: seq<Pc>)
    requires OwnerOk(sig, owner, threads) && sig in {Asserting, Deferred} && sig' in {Asserting, Deferred}
    ensures OwnerOk(sig', owner, threads)
  {}

  /** Only the owner has a chain, and only while it executes. */
  lemma ChainElsewhere(sig: Sig, owner: Option<nat>, threads: seq<Pc>, i: nat, pc: Pc)
    requires OwnerOk(sig, owner, threads) && i < |threads| && !Owns(threads[i])
    ensures Chain(owner, threads[i := pc]) == Chain(owner, threads)
    ensures Releasing(owner, threads[i := pc]) == Releasing(owner, threads)
  {}

  lemma ChainOfOwner(sig: Sig, owner: Option<nat>, threads: seq<Pc>, i: nat)
    requires OwnerOk(sig, owner, threads) && i < |threads| && Owns(threads[i])
    ensures owner == Some(i)
    ensures Chain(owner, threads) == if threads[i].Execute? then threads[i].chain else []
    ensures Releasing(owner, threads) <==> threads[i] == Release
  {}

  // ---------------------------------------------------------------- moves that leave history alone

  ghost predicate SameHistory(s: State, s': State) {
    && s'.chainId == s.chainId && s'.listeners == s.listeners && s'.pushed == s.pushed && s'.released == s.released
    && s'.executed == s.executed && s'.cancelled == s.cancelled && s'.relied == s.relied && s'.done == s.done
    && s'.worker == s.worker && s'.ticket == s.ticket && s'.returned == s.returned
  }

  /** The records of requests agree with each other. */
  ghost predicate BooksOk(s: State) {
    && ThreadsOk(s.threads, s.worker, s.returned)
    && TicketsOk(s.pushed, s.ticket, s.worker)
    && CallsOk(s.threads, s.pushed)
    && DoneOk(s)
    && OrderOk(s.worker, s.returned, s.done, s.ticket)
    && ListenersOk(s.listeners, s.done)
  }

  /** The parts of the invariant that speak of requests. */
  ghost predicate RequestsOk(s: State) {
    && BooksOk(s)
    && forall x :: x in s.worker ==> SpliceOk(s, x)
  }

  ghost predicate SameWork(pc: Pc, was: Pc) {
    Holds(pc) == Holds(was) && (CallTicket(pc).None? || CallTicket(pc) == CallTicket(was))
  }

  lemma MoveKeepsThreads(threads: seq<Pc>, worker: map<Splice, nat>, returned: set<Splice>, i: nat, pc: Pc)
    requires ThreadsOk(threads, worker, returned) && i < |threads| && Holds(pc) == Holds(threads[i])
    ensures ThreadsOk(threads[i := pc], worker, returned)
  {}

  lemma MoveKeepsSplice(s: State, s': State, i: nat, pc: Pc, x: Splice)
    requires ThreadsOk(s.threads, s.worker, s.returned)
    requires SameHistory(s, s') && i < |s.threads| && s'.threads == s.threads[i := pc]
    requires x in s.worker && SpliceOk(s, x) && (Holds(s.threads[i]) == Some(x) ==> PcOk(s, x, pc))
    ensures SpliceOk(s', x)
  {
    if x !in s.returned {
      assert Holds(s.threads[s.worker[x]]) == Some(x);
    }
  }

  lemma MoveKeepsDone(s: State, s': State, i: nat, pc: Pc)
    requires SameHistory(s, s') && i < |s.threads| && s'.threads == s.threads[i := pc]
    requires DoneOk(s) && (s.threads[i].DoSplice? ==> pc == s.threads[i])
    ensures DoneOk(s')
  {}

  lemma MoveKeeps(s: State, s': State, i: nat, pc: Pc)
    requires RequestsOk(s) && SameHistory(s, s') && i < |s.threads| && s'.threads == s.threads[i := pc]
    requires SameWork(pc, s.threads[i]) && !s.threads[i].DoSplice?
    requires Holds(pc).Some? ==> PcOk(s, Holds(pc).value, pc)
    ensures RequestsOk(s')
  {
    hide ThreadsOk, TicketsOk, SpliceOk, PcOk, DoneOk, ListenersOk;
    MoveKeepsThreads(s.threads, s.worker, s.returned, i, pc);
    MoveKeepsDone(s, s', i, pc);
    forall x | x in s'.worker ensures SpliceOk(s', x) { MoveKeepsSplice(s, s', i, pc, x); }
  }

  lemma HeldIsOk(s: State, i: nat)
    requires RequestsOk(s) && i < |s.threads| && Holds(s.threads[i]).Some?
    ensures var x := Holds(s.threads[i]).value;
            x in s.worker && s.worker[x] == i && x !in s.returned && PcOk(s, x, s.threads[i])
  {
    hide PcOk, TicketsOk, DoneOk, OrderOk, ListenersOk;
    assert SpliceOk(s, Holds(s.threads[i]).value);
  }

  lemma InvParts(s: State)
    ensures Inv(s) <==>
      && OwnerOk(s.sig, s.owner, s.threads)
      && QueueOk(s.list, Chain(s.owner, s.threads), |s.pushed|, s.released, s.executed)
      && RequestsOk(s)
      && DutyOk(s)
  {
    hide OwnerOk, QueueOk, ThreadsOk, TicketsOk, CallsOk, SpliceOk, DoneOk, DutyOk, OrderOk, ListenersOk;
  }

  /** A thread that does not own the signal and does not become its owner. */
  lemma OutsiderMove(s: State, s': State, i: nat, pc: Pc)
    requires Inv(s) && i < |s.threads| && s' == At(s, i, pc).(calls := s'.calls)
    requires !Owns(s.threads[i]) && !Owns(pc)
    requires SameWork(pc, s.threads[i]) && (Holds(pc).Some? ==> PcOk(s, Holds(pc).value, pc))
    ensures Inv(s')
  {
    hide RequestsOk, PcOk, OwnerOk, QueueOk, Chain, Releasing;
    InvParts(s);
    InvParts(s');
    OwnerKeep(s.sig, s.owner, s.threads, i, pc);
    ChainElsewhere(s.sig, s.owner, s.threads, i, pc);
    MoveKeeps(s, s', i, pc);
  }

  /** A thread that takes a free signal. */
  lemma EnterMove(s: State, s': State, i: nat, pc: Pc, sig: Sig)
    requires Inv(s) && i < |s.threads| && s.sig == Free && !pc.Execute?
    requires s' == At(s, i, pc).(sig := sig, calls := s'.calls, owner := Some(i))
    requires (UpdateOwner(pc) && sig == Updating) || (AssertOwner(pc) && sig == Asserting)
    requires SameWork(pc, s.threads[i]) && (Holds(pc).Some? ==> PcOk(s, Holds(pc).value, pc))
    ensures Inv(s')
  {
    hide RequestsOk, PcOk, QueueOk;
    InvParts(s);
    InvParts(s');
    OwnerEnter(s.threads, i, pc, sig);
    MoveKeeps(s, s', i, pc);
  }

  /** The owner goes on without touching the queue. */
  lemma OwnerMove(s: State, s': State, i: nat, pc: Pc, sig: Sig)
    requires Inv(s) && i < |s.threads| && s' == At(s, i, pc).(sig := sig, calls := s'.calls)
    requires (UpdateOwner(s.threads[i]) && UpdateOwner(pc) && sig == s.sig) ||
             (AssertOwner(s.threads[i]) && AssertOwner(pc) && (sig == s.sig || (sig == Asserting && pc == Release)))
    requires !s.threads[i].DoSplice? && s.threads[i] != Release
    requires !pc.Execute? && (s.threads[i].Execute? ==> s.threads[i].chain == [])
    requires SameWork(pc, s.threads[i]) && (Holds(pc).Some? ==> PcOk(s, Holds(pc).value, pc))
    ensures Inv(s')
  {
    hide RequestsOk, PcOk, QueueOk, OwnerOk;
    InvParts(s);
    InvParts(s');
    ChainOfOwner(s.sig, s.owner, s.threads, i);
    OwnerKeep(s.sig, s.owner, s.threads, i, pc);
    OwnsFacts(s.sig, s.owner, s.threads, i);
    if sig != s.sig { OwnerMark(s.sig, sig, s.owner, s'.threads); }
    ChainOfOwner(sig, s.owner, s'.threads, i);
    MoveKeeps(s, s', i, pc);
  }

  lemma OwnsFacts(sig: Sig, owner: Option<nat>, threads: seq<Pc>, i: nat)
    requires OwnerOk(sig, owner, threads) && i < |threads|
    ensures AssertOwner(threads[i]) ==> sig in {Asserting, Deferred}
    ensures UpdateOwner(threads[i]) ==> sig == Updating
  {}
}
