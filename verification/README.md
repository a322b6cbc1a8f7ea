# Autowiring: verified models of its concurrent and dataflow core

Autowiring is a C++ framework for contexts, signals and dataflow. This project models the parts of it that
are hard to get right and proves in Dafny what they promise. Every file is checked together:
`dafny verify dfyconfig.toml`.

**The AutoFilter network.** A packet runs a dataflow graph incrementally: each filter has a counter of missing
inputs, each type a disposition with publishers, subscribers, modifiers and decorations, and completing a type
decrements counters, calls filters whose outputs complete further types, and passes "unsatisfiable" on.
`FilterNetwork` defines what a run is supposed to compute without any of that, as the least fixed point of
three rules reached in stages. `PacketState`, `PacketSteps` and `PacketPropagation` hold the invariant and the
steps that keep it; `AutoPackets` has the packet as an object whose counters (`SatCounters`) and dispositions
(`Dispositions`) are updated in place, with the re-entrant recursion of the implementation and its termination;
`PacketOutcome` shows that a packet at rest has computed the least fixed point, whatever the order of decisions
(`PacketDecisions`). `PacketFlags` states the rules of the fixed point, and who is called with what, in the flags of
the argument tables alone. `PacketFacts` and `PacketAddition` hold the facts its methods use one at a time. `Wiring`,
`PacketSetup` and `CycleGraph` cover adding filters: the order of subscribers and modifiers, the exceptions, and
cycle detection.

Immediate decorations are part of the same packet. `PacketPulse` has the passes over the counters,
`PulseTargets` says which filters they find, and `Immediates` what handing a filter an immediate means: from then
on it is a filter without that input, so a packet always computes the least fixed point of the network of the
filters with what they were handed (`Effective`). The filters a pulse calls are run by the same recursion as all
others. `Broadcast` shows that the exceptions for several decorations of one type are never thrown, over every
sequence of events and also on packets that have refused filters. `Notification` says what telling the modifiers and
subscribers of a type does to every counter, also on such packets. `CallOrder` shows that filters that wait for the
same type only are called in the order of their altitudes. `MarkTwice` and `MarkTwiceRun` say exactly when a
type may be marked unsatisfiable a second time.

**Signals.** `SignalProtocol` is the non-blocking protocol of `signal<void(Args...)>` as a transition system:
any number of threads, one step per compare-exchange, push, release or store, spurious failures included.
`SignalInvariant` and `SignalSteps` keep an invariant over all steps; `SignalSafety` has what follows for whole
runs: one owner, execution in the order of pushing, a single order of requests that agrees with real time,
an owner for every request that returned early. `SignalCalls` accounts for calls: none is lost, none is made twice,
and it says exactly which of those handed off have been made. `SignalProgress` shows that every run can be brought
to an end by steps of the threads that are in it.
`SignalLists` has the listener list and the list of pending calls as linked objects.

**json11.** `JsonStrings` covers UTF-8, surrogate pairs and the one code unit the parser holds back;
`JsonSyntax` the grammar and `JsonText` the printed text as functions; `JsonRoundTrip` and `JsonResults` the
round trips, with the exact nesting limit. `JsonGrammar` is the grammar of RFC 8259 as concrete syntax trees,
`JsonGarbage` the white space and comments between tokens, and `JsonAccepts` shows that the parser accepts exactly
the texts of the grammar, with exactly their values, with and without the comment extension.
`JsonLiterals` fixes what these share in literal characters: hexadecimal digits, the value of a number, the order of
keys, and the printed text. `JsonParsers` and `JsonPrinter` are the parser object and the printing loops, proved against those functions.

**Dispatch queues, jobs, contexts, configuration.** `DispatchQueues` is the linked queue with its delayed queue
and its count; `CoreJobs` the wake-up protocol of a job; `CoreContexts` the tree of context states, and
`ContextShutdown` and `ContextStart` creation racing with shutdown and with initiation; `ConfigManagers` the values
pushed down a tree of managers.

Assumptions: sequential consistency; no wrap-around of the chain id, of counters or of sizes; a filter is a
function of its inputs; the strings of json11 are sequences of bytes, and reading one past the end gives NUL.
Where the code and its comments disagree the models follow the code: the comment in `handoff`
(src/autowiring/auto_signal.h:389-392) says the thread that takes a Free signal will call what it pushed, and
`HandedOffCanBeLeft` shows a run in which it does not. Where the code does not keep what one would expect, there is
a failing case and the exact condition: `MarkTwice.SecondMark`, `DispatchQueue.PutBack`, `ContextStart`.

## Model

| member | source | states |
|---|---|---|
| FilterNetwork.ArgumentFor | src/autowiring/AutoFilterDescriptor.cpp:37-42 | the search finds an argument of the type if and only if the filter has one |
| FilterNetwork.TypeAtMonotone | src/autowiring/AutoPacket.cpp:232-356 | in the declarative meaning, later stages and further decisions never revise a completed type |
| FilterNetwork.ReadyMonotone | src/autowiring/AutoPacket.cpp:277-333 | a filter that is ready stays ready and sees the same inputs; one that is given up stays given up |
| PacketState.MissingDeliver | src/autowiring/SatCounter.h:36-38 | delivering one input lowers the number of missing inputs by exactly one |
| PacketState.ConcludeCounts | src/autowiring/DecorationDisposition.h:150-170 | each publisher is counted once, and adds what it emitted |
| PacketState.CounterZero | src/autowiring/SatCounter.h:36-38 | the counter of a live filter is zero exactly when all its inputs were delivered |
| PacketSteps.DeliverStep | src/autowiring/AutoPacket.cpp:308-333 | telling a subscriber of a completed type keeps the whole invariant |
| PacketSteps.DoomStep | src/autowiring/AutoPacket.cpp:243-255 | giving up a filter that misses a Normal input keeps the invariant, and its outputs become due |
| PacketSteps.CallStep | src/autowiring/AutoPacket.cpp:337-342 | calling a filter with all inputs delivered keeps the invariant, which includes that no filter is called twice |
| PacketSteps.ConcludeStep | src/autowiring/DecorationDisposition.h:150-170 | when a publisher commits or is given up, the disposition stays right: completed types are derivable with exactly these decorations |
| PacketSteps.RootStep | src/autowiring/AutoPacket.cpp:421-449 | a decision of the caller on a type nobody publishes keeps the invariant |
| PacketPropagation.ManyDecorations | src/autowiring/AutoPacket.cpp:322-334 | a type with several decorations has several publishers, so the throw for single-decorate inputs is unreachable |
| PacketOutcome.QuiescentIsOutcome | src/autowiring/AutoPacket.cpp:232-356 | a packet with no work left has called each filter of the least fixed point once and no other, and completed exactly its types with its decorations |
| PacketOutcome.OrderIndependence | src/autowiring/AutoPacket.cpp:232-356 | two packets that saw the same decisions, in any order, agree on calls, completed types and decorations |
| PacketOutcome.CountersAtRest | src/autowiring/SatCounter.h:36-38 | while no call is in progress, the counter of a live filter is the number of its inputs whose types are not complete |
| PacketOutcome.ProducersAtRest | src/autowiring/DecorationDisposition.h:150-170 | while no call is in progress, a type counts each publisher that committed it or was given up once, and is complete exactly when all have |
| PacketFlags.RunRule | src/autowiring/AutoPacket.cpp:297-334 | by the flags of the arguments: a filter runs exactly if every input completes, with a value where it is neither shared nor multi |
| PacketFlags.GivenUpRule | src/autowiring/AutoPacket.cpp:243-316 | a filter is given up exactly if an input that is neither shared nor multi completes without a value |
| PacketFlags.RootRule | src/autowiring/AutoPacket.cpp:421-449 | a type nobody publishes completes exactly with what was decided about it |
| PacketFlags.PublishedRule | src/autowiring/auto_arg.h:365-380 | a published type completes exactly if every publisher is given up, or runs and hands the output over; one on demand does so only if some input asks |
| PacketFlags.ValueRule | src/autowiring/CallExtractor.h:81-88 | its decorations are what its publishers add, each once: nothing if given up, else what the filter gives for the decorations of its inputs |
| PacketFlags.RestByFlags | src/autowiring/AutoPacket.cpp:297-334 | at rest the filters called are exactly those all of whose inputs were handed over by a pulse or are complete, with a decoration where the input takes one value |
| PacketFlags.RestEmits | src/autowiring/CallExtractor.h:81-88 | at rest each filter called has handed over what its body gives for what it was handed and the decorations of its other inputs |
| PacketFlags.RestWithoutValue | src/autowiring/AutoPacket.cpp:311-314 | a filter with a plain input of a type that was decided without a value was not called |
| CallOrder.CandidateQueued | src/autowiring/AutoPacket.cpp:308-333 | a filter that misses only the type that was completed, and can take what it has, is queued |
| CallOrder.CandidatesInTurn | src/autowiring/altitude.h:10-18 | filters that miss the same type only are queued, and called, in the order of their altitudes |
| CallOrder.RootsInTurn | src/autowiring/altitude.h:10-18 | the same of a decision of the caller, by the flags of the arguments |
| CallOrder.StartersCalled | src/autowiring/AutoPacketInternal.cpp:23-43 | filters without inputs are called in the order in which they are listed |
| CycleGraph.FinishNode | src/autowiring/AutoPacket.cpp:146-176 | a filter whose successors reach no cycle reaches none, and may be marked as searched |
| CycleGraph.AddNodeKeepsAcyclic | src/autowiring/AutoPacket.cpp:141-143 | adding a filter from which no cycle is reachable keeps the whole graph acyclic |
| Wiring.InsertProperties | src/autowiring/DecorationDisposition.h:135-141 | subscribers stay sorted by altitude and none is lost |
| Wiring.ListFlags | src/autowiring/AutoPacket.cpp:88-137 | the lists of a type hold exactly the arguments entered: outputs, modifiers by distinct altitudes, other inputs by altitude, Multi if multi, Optional if shared, else Normal |
| Wiring.WireModifier | src/autowiring/AutoPacket.cpp:88-104 | entering a modifier keeps modifiers sorted by distinct altitudes and the dispositions in order |
| Wiring.WirePublisher | src/autowiring/AutoPacket.cpp:118-137 | a publisher that is not refused keeps several publishers apart from modifiers and single listeners |
| PacketSetup.RequiredIsMissing | src/autowiring/AutoFilterDescriptor.cpp:14-20 | the required count of a filter is the number of inputs it misses at first |
| PacketSetup.StructureIsFull | src/autowiring/AutoPacket.cpp:68-139 | once every argument is entered, the dispositions are those of the network and the network is well formed |
| PacketSetup.ClashMeansIllFormed | src/autowiring/AutoPacket.cpp:75-79 | an argument is refused only in a network that is not well formed |
| PacketSetup.CycleStays | src/autowiring/AutoPacket.cpp:146-176 | a cycle among the filters added so far is a cycle of the whole network |
| SatCounters.SatCounter.constructor | src/autowiring/SatCounter.h:15-18 | a new counter counts the inputs of its filter |
| SatCounters.SatCounter.Decrement | src/autowiring/SatCounter.h:36-38 | saturates at zero and reports only the step from one to zero |
| SatCounters.SatCounter.Increment | src/autowiring/SatCounter.h:43-45 | adds one |
| Dispositions.DecorationDisposition.IncProducerCount | src/autowiring/DecorationDisposition.h:150-170 | reports completion exactly when this call completed the type |
| Dispositions.DecorationDisposition.Attach | src/autowiring/AutoPacket.cpp:443-446 | a null pointer counts as a producer without a decoration |
| AutoPackets.AutoPacket.constructor | src/autowiring/AutoPacket.cpp:24-30 | a new packet has no filters, decorations or decisions |
| AutoPackets.AutoPacket.MarkOutputsUnsat | src/autowiring/AutoPacket.cpp:243-255 | gives up a filter once only, and lists each of its outputs once |
| AutoPackets.AutoPacket.TellSubscriber | src/autowiring/AutoPacket.cpp:297-334 | one subscriber is told by its kind and the number of decorations; the throwing branch is unreachable |
| AutoPackets.AutoPacket.TellSubscribers | src/autowiring/AutoPacket.cpp:291-336 | every consumer is told; what is to be called and what is to be given up are exactly the new outstanding work, and what is to be called stands in the order of altitudes |
| AutoPackets.AutoPacket.UpdateSatisfaction | src/autowiring/AutoPacket.cpp:232-356 | all work that a completed type creates is done on return, filters that missed it only are called in the order of their altitudes, older work is neither lost nor done twice, and the recursion terminates because the number of open types decreases |
| AutoPackets.AutoPacket.ConcludeOutput | src/autowiring/AutoPacket.cpp:345-355 | one output of a called or given-up filter is accounted for, with everything that follows from it |
| AutoPackets.AutoPacket.ReadInput | src/autowiring/AutoPacket.h:234-259 | an input reads what it was handed, the immediate itself exactly if it is neither multi nor shared, and else the decorations of its type, which is complete |
| AutoPackets.AutoPacket.ExtractArguments | src/autowiring/CallExtractor.h:83-86 | the view has exactly the inputs of the filter, each with what was handed over for it or else the decorations of its type |
| AutoPackets.AutoPacket.HasSubscribers | src/autowiring/AutoPacket.cpp:477-484 | true exactly when the type has a disposition with a subscriber |
| AutoPackets.AutoPacket.CommitArgument | src/autowiring/auto_arg.h:365-380 | an output is committed if and only if it is one, and wanted where the argument form asks |
| AutoPackets.AutoPacket.CallFilter | src/autowiring/CallExtractor.h:81-88 | runs a satisfied filter once and commits all outputs it owes, re-entrantly, leaving other outstanding work as it was |
| AutoPackets.AutoPacket.Decorate | src/autowiring/AutoPacket.cpp:421-456 | the first decoration of a root is accepted and the packet comes to rest at the least fixed point, the filters called being those all of whose inputs have arrived by their flags, and those that waited for it only being called in the order of their altitudes; a second, or one on a type with an immediate, is refused with the right error and changes nothing |
| AutoPackets.AutoPacket.MarkUnsatisfiable | src/autowiring/AutoPacket.cpp:218-230 | marking a root that was not decided before: the same, and no filter with a plain input of that type is called unless it was handed a value |
| AutoPackets.AutoPacket.HasSingleListener | src/autowiring/AutoPacket.cpp:119-127 | finds a listener that takes one decoration only, if and only if there is one |
| AutoPackets.AutoPacket.FindModifierPlace | src/autowiring/AutoPacket.cpp:91-103 | finds the place by altitude, or reports an equal altitude |
| AutoPackets.AutoPacket.AddModifier | src/autowiring/AutoPacket.cpp:88-104 | refused exactly for an equal altitude; otherwise the modifier, with its flag and altitude, is the one entry added, in order |
| AutoPackets.AutoPacket.AddSubscriber | src/autowiring/AutoPacket.cpp:106-116 | one entry is added, in order of altitude: Multi exactly if the input is multi, Normal exactly if it is neither multi nor shared |
| AutoPackets.AutoPacket.AddPublisher | src/autowiring/AutoPacket.cpp:118-137 | refused exactly when a second publisher would meet a single listener or a modifier; otherwise added at the end |
| AutoPackets.AutoPacket.WireArgument | src/autowiring/AutoPacket.cpp:69-139 | refused exactly on a clash; a refusal leaves the lists as they were |
| AutoPackets.AutoPacket.NextCounters | src/autowiring/AutoPacket.cpp:157-167 | the successors are the subscribers of the output types, each once |
| AutoPackets.AutoPacket.DetectCycle | src/autowiring/AutoPacket.cpp:146-176 | terminates, and throws exactly when a cycle is reachable from the filter |
| AutoPackets.AutoPacket.AddSatCounter | src/autowiring/AutoPacket.cpp:68-144 | keeps the dispositions in order even when it throws; every addition that returns keeps the graph acyclic |
| AutoPackets.AutoPacket.AddFilters | src/autowiring/AutoPacketInternal.cpp:27-35 | succeeds exactly for well-formed networks without cycles, and collects the filters that need no input |
| AutoPackets.AutoPacket.Initialize | src/autowiring/AutoPacketInternal.cpp:17-44 | accepts exactly the well-formed acyclic networks and comes to rest at the least fixed point without decisions, having called exactly the filters that need nothing, in the order they are listed |
| AutoPackets.AutoPacket.Decide | src/autowiring/AutoPacket.cpp:218-456 | any sequence of decorations, repeated ones included, and marks of undecided types ends at the least fixed point of what was decided; by the flags, a filter is called exactly if all its inputs have arrived, and none whose plain input was marked |
| AutoPackets.AutoPacket.CountsAtRest | src/autowiring/AutoPacket.cpp:349-355 | the counter and disposition objects themselves count what they stand for whenever the packet is at rest; the counter of a filter that was handed immediates is zero |
| AutoPackets.AutoPacket.NotifyModifiers | src/autowiring/AutoPacket.cpp:257-289 | modifiers are told before subscribers: one that takes a shared pointer whatever the decorations, any other only of one decoration, else it is given up; every counter, the queue and the outputs listed are as stated, and neither exception is thrown, on any packet |
| AutoPackets.AutoPacket.Notify | src/autowiring/AutoPacket.cpp:232-336 | also on a packet that refused additions or was never initialized, telling modifiers and subscribers never throws; every counter afterwards, exactly who is queued, in which order, and exactly which outputs are listed follow from the two lists and the number of decorations |
| Notification.ListenersDiffer | src/autowiring/AutoPacket.cpp:86-116 | nobody is told twice: the modifiers and subscribers of a type are of different filters |
| Notification.NotifiedNext | src/autowiring/AutoPacket.cpp:257-336 | telling one more listener extends what is said of counters, queue and listed outputs |
| Notification.NotifiedAll | src/autowiring/AutoPacket.cpp:257-336 | when all were told, counters, queue and listed outputs are as the two lists say, modifier by modifier and subscriber by subscriber |
| AutoPackets.AutoPacket.DecorateNoPriors | src/autowiring/AutoPacket.cpp:421-449 | attaches to any type, published or not, on any packet: refused exactly if the type is complete, with the right error; if it completes now everyone is told, and else no counter changes and both lists are empty |
| AutoPackets.AutoPacket.MarkAny | src/autowiring/AutoPacket.cpp:218-230 | marking any type, decided before or not, on any packet, leaves it complete without decorations, tells everyone so, and never throws |
| AutoPackets.AutoPacket.CellHere | src/autowiring/AutoPacket.cpp:257-338 | whatever additions were refused, several decorations mean several publishers, and then no modifiers and only Multi subscribers |
| Broadcast.EventKeeps | src/autowiring/AutoPacket.cpp:68-139 | every event on a disposition, refused or not, keeps several decorations to types with several publishers |
| Broadcast.RefusesClash | src/autowiring/AutoPacket.cpp:75-137 | an event that enters an argument is refused exactly where the argument clashes with the lists |
| Broadcast.NeverThrows | src/autowiring/AutoPacket.cpp:257-338 | in every run of additions, attachments, conclusions, marks, immediates and removals, the exceptions for several decorations cannot be thrown |
| PacketDecisions.OrderOfDecisions | src/autowiring/AutoPacket.cpp:218-456 | decisions on distinct types come to the same in any order |
| AutoPackets.Run | src/autowiring/AutoPacketInternal.cpp:17-44 | from a new packet through Initialize and any decisions to the least fixed point, with the calls that the flags ask for |
| AutoPackets.TwoOrders | src/autowiring/AutoPacket.cpp:218-456 | two packets that take the same decisions in different orders run the same filters and hold the same decorations |
| PacketPulse.Visit | src/autowiring/AutoPacket.cpp:372-396 | a filter enters the call queue once, exactly when its counter reaches zero; every other decrement is remembered |
| PacketPulse.DecrementAll | src/autowiring/AutoPacket.cpp:370-396 | after the pass over all immediates, queue and counters are right for every filter |
| PacketPulse.Reincrement | src/autowiring/AutoPacket.cpp:398-402 | every counter outside the queue is restored, and the queue holds exactly the filters with no other input missing |
| PulseTargets.VisitedServed | src/autowiring/AutoPacket.cpp:371-396 | a filter is visited once for each input that an immediate can serve |
| PulseTargets.TargetMisses | src/autowiring/AutoPacket.cpp:371-402 | the counter equals the number of visits exactly if every input of the filter was delivered or is served, and some input is served |
| Immediates.TypeTransfers | src/autowiring/AutoPacket.cpp:404-409 | handing immediates to filters that wait for nothing else takes nothing back: what was derivable stays so, at the same stage |
| Immediates.HandOutStep | src/autowiring/AutoPacket.cpp:398-409 | handing out keeps the whole invariant, of the network in which those filters no longer wait, and adds exactly them to the calls to be made |
| PulseTargets.PulsesAtRest | src/autowiring/AutoPacket.cpp:371-412 | at rest, a filter misses only what is served if and only if its other inputs complete in the least fixed point |
| PacketFlags.PulsesFlags | src/autowiring/AutoPacket.cpp:371-396 | by the flags: a filter takes part in a pulse exactly if it is not deferred, an immediate is among its inputs that are not shared, and every other input has what it waits for |
| PacketFlags.HandoutFlags | src/autowiring/AutoPacket.h:252-256 | a pulsed filter was handed exactly the immediates among its inputs: the value where the input takes one, nothing to gather where it is multi or shared |
| AutoPackets.AutoPacket.FindTargets | src/autowiring/AutoPacket.cpp:366-402 | on a packet at rest, a pass finds exactly the filters not handed anything before that miss only what is served; every other counter is as it was |
| AutoPackets.AutoPacket.RunQueue | src/autowiring/AutoPacket.cpp:404-409 | the filters found are called once each by the recursion that calls all filters, their counters are zero, and the packet is at rest again |
| AutoPackets.AutoPacket.PulseSatisfaction | src/autowiring/AutoPacket.cpp:358-412 | terminates; calls exactly the non-deferred filters that have their other inputs in the least fixed point and some input served, once each, and leaves them at zero; each was handed the value of each immediate among its inputs that take one, and nothing for multi and shared ones; the packet is at rest, so every other counter counts what it always does |
| AutoPackets.AutoPacket.DecorateImmediateUnsafe | src/autowiring/AutoPacket.cpp:50-66 | refused exactly if the type was decided or has an immediate |
| AutoPackets.AutoPacket.DecorateImmediate | src/autowiring/AutoPacket.h:541-573 | accepted exactly if all types are distinct and undecided; then the pulse, with every filter it calls handed the very values, after which the types count as marked and the packet is at the least fixed point of the filters with what they were handed; otherwise nothing runs and the immediates before the refused one stay |
| MarkTwice.NotifiedIsRemarked | src/autowiring/AutoPacket.cpp:292-316 | telling all subscribers of a type without decorations is what a second mark does to the counters and to the filters given up, whose outputs are exactly those listed |
| MarkTwice.SecondMark | src/autowiring/AutoPacket.cpp:218-230 | marking a complete type again keeps the whole invariant if and only if the type had no decorations and no Optional or Multi subscriber still waits, and then changes nothing |
| MarkTwiceRun.CalledTooEarly | src/autowiring/AutoPacket.cpp:303-310 | on an initialized packet, a filter with two optional inputs is called when one of them is marked twice, though nothing was said about the other |
| SignalSteps.CheckKeeps | src/autowiring/auto_signal.h:175-187 | the chain id differs exactly when the request was already performed by a dispatcher |
| SignalSteps.DeferKeeps | src/autowiring/auto_signal.h:161-172 | returning at once by way of Deferred leaves the request with an owner that must release the list |
| SignalSteps.CancelKeeps | src/autowiring/auto_signal.h:181-186 | cancelling a pending thunk before performing the request oneself keeps it from being performed twice |
| SignalSteps.ReleaseKeeps | src/autowiring/atomic_list.cpp:24-46 | releasing turns the latest-first list into a chain in the order of pushing |
| SignalSteps.ExecuteKeeps | src/autowiring/auto_signal.h:428-433 | executing the next thunk performs its request once, unless it was cancelled |
| SignalSteps.LeaveKeeps | src/autowiring/auto_signal.h:414-427 | the owner can leave only when no thunk relies on it |
| SignalSteps.SplicedList | src/autowiring/auto_signal.h:126-134 | links and unlinks change the listeners by exactly one entry |
| SignalSafety.OneOwner | src/autowiring/auto_signal.h:335-435 | in every run the signal is not Free exactly when some thread owns it, and then exactly one does |
| SignalSafety.OnlyOwnerSplices | src/autowiring/auto_signal.h:126-214 | only the owner changes the listener list, by performing one request |
| SignalSafety.ExecutedInOrder | src/autowiring/auto_signal.h:428-433 | in every run the thunks executed are a prefix of the thunks pushed: none is skipped, reordered or run twice |
| SignalSafety.RequestsPerformedOnce | src/autowiring/auto_signal.h:152-266 | in every run each request is performed at most once, the listeners are those linked and not unlinked, and while nobody asserts every request that returned was performed |
| SignalSafety.ChainIdTells | src/autowiring/auto_signal.h:235-266 | the chain id tells whether the dispatcher was first, and either way the request is performed when Link or Unlink frees the signal and returns |
| SignalSafety.EarlyReturnHasOwner | src/autowiring/auto_signal.h:160-172 | a request that returned early waits in the chain its owner executes, or in a list its owner cannot leave without releasing |
| SignalSafety.HandoffByDeferredRuns | src/autowiring/auto_signal.h:378-385 | a call that was left to the owner by way of Deferred has run when the signal is Free |
| SignalSafety.ListenersReplay | src/autowiring/auto_signal.h:126-214 | the listener list is what performing the requests one after the other gives |
| SignalSafety.ListenersInOrder | src/autowiring/auto_signal.h:126-134 | in every run the listeners stand in the order in which they were linked |
| SignalSafety.RealTimeOrder | src/autowiring/auto_signal.h:152-266 | the order of requests agrees with real time: one that returned before another began is performed before it |
| SignalCalls.NextKeepsCalls | src/autowiring/auto_signal.h:335-435 | every step of every thread keeps the books of calls: who carries, made or pushed which call |
| SignalCalls.CallsAccounted | src/autowiring/auto_signal.h:543-592 | in every run no call is made twice, and a call that was begun is with its thread, or was made by its thread and never pushed, or was pushed once and is made exactly when its thunk is executed |
| SignalCalls.ReturnedCall | src/autowiring/auto_signal.h:366-394 | a call whose thread has returned was made by that thread, or is pushed once: left to the owner by way of Deferred, and then made when the signal is Free, or its thread took the signal |
| SignalCalls.HandedOffRunsIff | src/autowiring/auto_signal.h:366-394 | a call handed off has been made when the signal is Free if and only if the chain id is no longer the one push_entry returned, which handoff ignores |
| SignalCalls.LeftInList | src/autowiring/auto_signal.h:414-435 | with all threads idle, the list holds only thunks that were cancelled and calls whose own thread took the signal |
| SignalCalls.HandedOffCanBeLeft | src/autowiring/auto_signal.h:387-393 | a run in which a call that was handed off is left in the list of a Free signal, not made, with every thread returned |
| SignalProgress.OwnerFinishes | src/autowiring/auto_signal.h:414-435 | from every reachable state the owner frees the signal by steps of its own |
| SignalProgress.EveryRunCanEnd | src/autowiring/auto_signal.h:335-435 | every run can go on, without an operation being begun, until every thread has returned; then every request was performed, and every call was made unless its thread took the signal and left the thunk in the list |
| SignalLists.ListenerList.LinkUnsafe | src/autowiring/auto_signal.h:126-134 | the four pointers represent the sequence extended at the end |
| SignalLists.ListenerList.UnlinkUnsafe | src/autowiring/auto_signal.h:197-214 | the pointers represent the sequence without that one entry, the rest in order |
| SignalLists.ListenerList.SignalUnsafe | src/autowiring/auto_signal.h:271-274 | every listener is called once, in order |
| SignalLists.UnlinkIds | src/autowiring/auto_signal.h:197-214 | taking one entry out is the removal the protocol asks for |
| SignalLists.LinkIds | src/autowiring/auto_signal.h:126-134 | extending the list at the end is the linking the protocol asks for |
| SignalLists.AtomicList.PushEntry | src/autowiring/atomic_list.cpp:17-22 | pushes in front and returns the current chain id |
| SignalLists.AtomicList.Release | src/autowiring/atomic_list.cpp:24-46 | reverses the links in place into the order of pushing, empties the list and starts a new chain |
| JsonStrings.Utf8Agrees | contrib/json11/json11.cpp:461-480 | the bytes written are those, and only those, of the table in section 3 of RFC 3629 |
| JsonStrings.Utf8PrefixFree | contrib/json11/json11.cpp:461-480 | no encoding is a proper prefix of another |
| JsonStrings.Utf8Injective | contrib/json11/json11.cpp:461-480 | different texts have different encodings |
| JsonStrings.PairingInvertsUtf16 | contrib/json11/json11.cpp:533-549 | any text written in UTF-16 escapes (section 2.1 of RFC 2781) is read back as its UTF-8 |
| JsonStrings.HoldLow | contrib/json11/json11.cpp:537-544 | a low surrogate completes the held high one |
| JsonStrings.HoldNext | contrib/json11/json11.cpp:545-548 | any other code unit releases the one held and is held in its turn |
| JsonText.StringRoundTrip | contrib/json11/json11.cpp:83-118 | any byte string, printed, is read back unchanged |
| JsonText.ScanInt | contrib/json11/json11.cpp:579-602 | the decimal text of an int is scanned to its end and no further |
| JsonRoundTrip.ValueRoundTrip | contrib/json11/json11.cpp:650-736 | a printed value is read back and nothing after it touched, if and only if it is not nested too deep |
| JsonRoundTrip.NormalIsEqual | contrib/json11/json11.cpp:180-194 | the value read back is equal by the library's own equality, ints of ten characters coming back as doubles |
| JsonResults.ParseRoundTrip | contrib/json11/json11.cpp:738-750 | parsing a printed value with any white space or allowed comments around it gives an equal value exactly for nesting depth at most 200 |
| JsonResults.MultiRoundTrip | contrib/json11/json11.cpp:753-772 | values printed one after the other with white space or allowed comments between are all read back and the whole text is consumed |
| JsonResults.InsertSorted | contrib/json11/json11.cpp:694 | members stay sorted by key; of a repeated key the last value stays |
| JsonResults.ParsedIsRead | contrib/json11/json11.cpp:650-736 | whatever is accepted has its keys in order without repetition and is not nested deeper than 200 |
| JsonResults.ParsePrintParse | contrib/json11/json11.cpp:738-750 | printing what was parsed and parsing it again changes nothing |
| JsonGarbage.SkipTrailing | contrib/json11/json11.cpp:383-441 | white space and, where allowed, comments of both kinds are skipped; the last comment may be ended by the end of the text |
| JsonGarbage.SplitGarbage | contrib/json11/json11.cpp:430-441 | whatever is skipped is white space or, where allowed, comments, and what follows is neither |
| JsonAccepts.LexString | contrib/json11/json11.cpp:486-573 | every string of the grammar is read to its closing quote with its value |
| JsonAccepts.UnlexString | contrib/json11/json11.cpp:486-573 | every string that is accepted is one of the grammar |
| JsonAccepts.ScanTree | contrib/json11/json11.cpp:579-629 | every number of the grammar is scanned in full |
| JsonAccepts.UnscanNumber | contrib/json11/json11.cpp:579-629 | every number that is accepted is one of the grammar |
| JsonAccepts.AcceptTree | contrib/json11/json11.cpp:650-736 | every value of the grammar is accepted with its value, and nothing after it touched, if and only if it is not nested too deep |
| JsonAccepts.DeriveValue | contrib/json11/json11.cpp:650-736 | every value that is accepted has a derivation in the grammar, not nested too deep |
| JsonAccepts.ParsesGrammar | contrib/json11/json11.cpp:738-750 | with or without comments, a text is accepted with a value if and only if the grammar of sections 2 to 7 of RFC 8259, extended by comments if they are allowed, gives it that value within two hundred levels |
| JsonLiterals.UnicodeEscape | contrib/json11/json11.cpp:514-532 | for every code unit and every spelling of its four digits, 48 + d, 55 + d or 87 + d, the escape is read as that code unit |
| JsonLiterals.UnicodeRefused | contrib/json11/json11.cpp:516-530 | anything else after a backslash and a u is refused |
| JsonLiterals.UnicodeGlyph | contrib/json11/json11.cpp:514-532 | the grammar has exactly these escapes, with these code units |
| JsonLiterals.EscapeParses | contrib/json11/json11.cpp:738-750 | a text that is one escape, its digits in either case, parses to the UTF-8 of its code unit by the table of RFC 3629 |
| JsonLiterals.IntMeans | contrib/json11/json11.cpp:598-601 | a number is an int exactly if it has at most nine characters and neither fraction nor exponent, and then it is what its digits mean by their places |
| JsonLiterals.DoubleMeans | contrib/json11/json11.cpp:603-627 | any other number is the decimal number that is written: integer part, fraction and exponent, with its sign |
| JsonLiterals.NumberLetters | contrib/json11/json11.cpp:579-629 | the numbers of the grammar, character by character |
| JsonLiterals.LessMeans | contrib/json11/json11.hpp:88 | keys are in dictionary order: the first difference counts, and a proper prefix comes first |
| JsonLiterals.WsMeans | contrib/json11/json11.cpp:383-386 | without comments what may stand between tokens is spaces, tabs, line feeds and returns |
| JsonLiterals.CommentMeans | contrib/json11/json11.cpp:392-424 | comments are those of C++: to the end of the line, or to the first closing mark |
| JsonParsers.JsonParser.ConsumeWhitespace | contrib/json11/json11.cpp:383-386 | stops at the first character that is not white space |
| JsonParsers.JsonParser.ConsumeComment | contrib/json11/json11.cpp:392-424 | skips one comment of either kind, or fails where the text ends or the comment is malformed |
| JsonParsers.JsonParser.ConsumeGarbage | contrib/json11/json11.cpp:430-441 | skips all white space and, if allowed, all comments |
| JsonParsers.JsonParser.GetNextToken | contrib/json11/json11.cpp:448-455 | returns the next visible character; the first error stays |
| JsonParsers.JsonParser.ParseString | contrib/json11/json11.cpp:486-573 | the loop that holds one code unit back computes the bytes of pairing all surrogates first and encoding then, and fails exactly where the string is malformed |
| JsonParsers.JsonParser.ParseNumber | contrib/json11/json11.cpp:579-629 | reads the number of section 6 of RFC 8259, as an int exactly when it has at most nine characters and neither fraction nor exponent |
| JsonParsers.JsonParser.Expect | contrib/json11/json11.cpp:635-643 | reads the word from the character before, or fails |
| JsonParsers.JsonParser.ParseJson | contrib/json11/json11.cpp:650-736 | ends where the grammar says, with its value or its first error; a parser that failed before keeps its error |
| JsonParsers.JsonParser.ParseList | contrib/json11/json11.cpp:710-733 | reads the elements in order |
| JsonParsers.JsonParser.ParseObject | contrib/json11/json11.cpp:677-708 | reads the members, later ones replacing earlier ones |
| JsonParsers.ParseText | contrib/json11/json11.cpp:738-750 | null on any error, including trailing text |
| JsonParsers.ParseTexts | contrib/json11/json11.cpp:753-772 | the values read, the place where parsing stopped and the error agree with the grammar |
| JsonPrinter.DumpString | contrib/json11/json11.cpp:83-118 | appends the quoted text, with three-byte separators recognised by looking ahead |
| JsonPrinter.Dump | contrib/json11/json11.cpp:59-148 | appends the text of the value |
| JsonPrinter.DumpList | contrib/json11/json11.cpp:120-130 | separators stand between elements only |
| JsonPrinter.DumpObject | contrib/json11/json11.cpp:132-144 | members are printed in key order, separators between them only |
| JsonLiterals.ListText | contrib/json11/json11.cpp:120-130 | a list is printed in brackets, its elements separated by a comma and a space |
| JsonLiterals.ObjectText | contrib/json11/json11.cpp:132-144 | an object is printed in braces, each member as its key in quotes, a colon, a space and its value |
| JsonLiterals.StringText | contrib/json11/json11.cpp:83-118 | a string is printed in quotes, character after character, the two separators by number |
| JsonLiterals.EscapeText | contrib/json11/json11.cpp:87-106 | short escapes, lower-case digits for other control characters, all other bytes as they are |
| JsonLiterals.IntTextMeans | contrib/json11/json11.cpp:73-77 | an int is printed as the shortest decimal number with its value, after a minus sign if it is negative |
| JsonLiterals.WordText | contrib/json11/json11.cpp:59-81 | null, true and false are printed as such |
| DispatchQueues.DispatchQueue.Pend | src/autowiring/DispatchQueue.h:402-433 | accepted at the end of the queue exactly when the count, running thunks included, is below the cap |
| DispatchQueues.DispatchQueue.PendExisting | src/autowiring/DispatchQueue.cpp:293-308 | appended and counted, whatever the cap |
| DispatchQueues.DispatchQueue.PendDelayed | src/autowiring/DispatchQueue.cpp:404-416 | entered in order of time, not counted |
| DispatchQueues.DispatchQueue.Promote | src/autowiring/DispatchQueue.cpp:82-104 | exactly the thunks whose time has come move to the end of the ready list, in order of time |
| DispatchQueues.DispatchQueue.DispatchBegin | src/autowiring/DispatchQueue.cpp:264-275 | takes the first ready thunk, which stays counted; only when none is ready, exactly the delayed thunks whose time has come become ready, in order of time, and the first of them is taken |
| DispatchQueues.DispatchQueue.DispatchEnd | src/autowiring/DispatchQueue.cpp:115-121 | the count reaches zero exactly when nothing is ready, running or being cleared |
| DispatchQueues.DispatchQueue.Cancel | src/autowiring/DispatchQueue.cpp:157-178 | discards the first ready thunk, else the first delayed one; false exactly when there is neither |
| DispatchQueues.DispatchQueue.ClearBegin | src/autowiring/DispatchQueue.cpp:32-45 | takes everything away and admits nothing more |
| DispatchQueues.DispatchQueue.ClearEnd | src/autowiring/DispatchQueue.cpp:65-79 | destroys and uncounts exactly what was taken away, so Abort may be called by a running thunk |
| DispatchQueues.DispatchQueue.PutBack | src/autowiring/DispatchQueue.cpp:132-138 | after a thunk threw, the list is in order if and only if another thunk is ready, or neither has the queue been aborted nor another thunk become ready since this one did |
| DispatchQueues.AbortedMeanwhile | src/autowiring/DispatchQueue.cpp:124-138 | a thunk that throws after the queue was aborted is put back into a list without a tail |
| DispatchQueues.OvertakenMeanwhile | src/autowiring/DispatchQueue.cpp:124-138 | a thunk that throws after another was pended and run is put back into a list whose tail is the other one, which is gone |
| DispatchQueues.OnePlace | src/autowiring/DispatchQueue.cpp:32-178 | every accepted thunk is in exactly one of ready, delayed, executing, run, clearing, discarded |
| CoreJobs.NextKeeps | src/autowiring/CoreJob.cpp:28-107 | every step of pending, starting and working keeps the invariant |
| CoreJobs.NoLostWakeUp | src/autowiring/CoreJob.cpp:94-107 | in every run, once OnStart has returned, a non-empty queue has an active worker |
| CoreJobs.PendWakes | src/autowiring/CoreJob.cpp:28-69 | in every run what is pended goes to the end of the queue and at once has a worker exactly if the job was started |
| CoreJobs.NeverTwoWorkers | src/autowiring/CoreJob.cpp:28-69 | in every run there is never more than one active worker, and none before OnStart |
| CoreJobs.RunInOrder | src/autowiring/CoreJob.cpp:71-92 | thunks run one at a time in the order they were pended |
| CoreJobs.EverythingRuns | src/autowiring/CoreJob.cpp:71-92 | from every state after OnStart the run can go on, by the worker alone, until everything pended has finished |
| CoreContexts.StateMeans | src/autowiring/CoreContext.h:175-194 | a live context is Running exactly when it and all its ancestors were initiated, CanRun when only its parent runs, Initiated when it waits for its parent; a dead one is Shutdown if it was initiated, else Abandoned |
| CoreContexts.DownClosed | src/autowiring/CoreContext.cpp:495-523 | shutdown is closed downwards |
| CoreContexts.Create | src/autowiring/CoreContext.cpp:133-175 | refused exactly below a context that is shut down; the new child can run exactly when its parent runs |
| CoreContexts.TryTransitionChildrenState | src/autowiring/CoreContext.cpp:897-968 | brings the states below a context that has started to run back to their meaning, without touching the rest |
| CoreContexts.Initiate | src/autowiring/CoreContext.cpp:390-454 | keeps the meaning of all states; a context that is shut down is not initiated |
| CoreContexts.SignalShutdown | src/autowiring/CoreContext.cpp:456-541 | shuts down the context and what is below it, and nothing else, and keeps the meaning of all states |
| ContextShutdown.NoChildEscapes | src/autowiring/CoreContext.cpp:133-175 | in every interleaving of creation and shutdown, once both have returned the child is shut down, whether it was published before or after the children were collected |
| ContextShutdown.NoChildLost | src/autowiring/CoreContext.cpp:133-175 | in every interleaving a reserved place has a thread about to fill it, a full one a child that was created, and no child is shut down before its parent is |
| ContextShutdown.StepKeeps | src/autowiring/CoreContext.cpp:465-526 | a live child of a parent that is down always has a thread that will still shut it down |
| ContextStart.StepKeeps | src/autowiring/CoreContext.cpp:897-945 | a child may run exactly if it saw its parent running or its parent met it in its place |
| ContextStart.MayRunUnlessLost | src/autowiring/CoreContext.cpp:133-175 | in every interleaving of creation and initiation, once the parent runs and has come by, a child may run if and only if it did not both look before the parent ran and go into its place after the parent came by |
| ContextStart.NoChildForgotten | src/autowiring/CoreContext.cpp:133-175 | in every interleaving a reserved place has a thread about to fill it |
| ContextStart.ChildLost | src/autowiring/CoreContext.cpp:158-172 | a run in which a child stays not started below a running parent |
| ConfigManagers.CopyAgrees | src/autowiring/ConfigManager.cpp:124-167 | the copy an entry holds is the value given to the nearest manager upwards |
| ConfigManagers.Get | src/autowiring/ConfigManager.cpp:174-188 | returns the value given to the nearest manager, this one or above, that was given one, else the empty string |
| ConfigManagers.Set | src/autowiring/ConfigManager.cpp:190-216 | records the value as the manager's own, stops copying from the parent, and keeps every copy below right |
| ConfigManagers.OnChanged | src/autowiring/ConfigManager.cpp:141-156 | tells every registered entry and those registered with it, so that all copies agree again |
| ConfigManagers.Unregister | src/autowiring/ConfigManager.cpp:200-203 | the parent no longer tells this entry; all other registrations stay |
| ConfigManagers.GetEntry | src/autowiring/ConfigManager.cpp:124-172 | a new entry takes the parent's value and is registered with it, all the way up, and no value given before changes |

## Left out

- UpdateSatisfaction: of networks without modifiers; Notify has the modifier loop (src/autowiring/AutoPacket.cpp:257-289), without the calls: a satisfied modifier that takes a shared pointer is queued, where the code calls it at once, after those queued before it.
- MarkUnsatisfiable: requires a type not decided before; marking a complete type again is MarkAny, and does harm exactly as SecondMark says.
- Decorate: of types no filter publishes; a caller that decorates a published type competes with its publishers. DecorateNoPriors is of any type, without the calls.
- Deferred filters outside pulses, `auto_out`, RemoveRecipient, RemoveDecoration outside Broadcast, ForwardAll, and filters added to a packet whose types are already complete.
- DecorateImmediate: of types no filter publishes.
- Filters that throw, and filters whose result depends on the order of several decorations of one type: the view of a Multi input is a multiset.
- Reading decorations (Get, GetAll, GetShared), GetRvalueShared and Reset.
- The packet's mutex and several threads on one packet; the order in which successors are visited by DetectCycle, which does not change its result.
- The linked list of counters of a packet, modelled as a sequence.
- Signals: memory orders weaker than sequential consistency, wrap-around of the 32-bit chain id, moving and destroying a signal, handlers that throw, the arguments of calls, and lock, try_lock and unlock. An unlink is requested once, for an entry whose link returned.
- SignalUnsafe: handlers do not change the list while it is traversed; a handler that links or unlinks is another thread of the protocol, which can only pend.
- JSON: printing of floating-point numbers, rounding and overflow in reading them (they are exact reals here), the wording of error messages, has_shape, and ordering of values.
- Dump: of values without floating-point numbers.
- DispatchQueue: waiting with condition variables, barriers, Rundown, TryDispatchEvent apart from putting a thunk back, and merging one queue into another, which overwrites the tail when the other queue is empty (src/autowiring/DispatchQueue.cpp:375-380).
- PutBack: does not put the thunk back into the order of the history, because a thunk that throws runs again later than thunks that followed it.
- CoreJob: thunks that throw, delayed thunks, and stopping (src/autowiring/CoreJob.cpp:43-50 frees the thunks of a stopped queue but keeps its head).
- CoreContext: threads, bolts, injected members, contexts that expire, and calls made by event handlers while an operation is under way. Create: the second look at the parent's state is modelled in ContextShutdown only.
- ContextShutdown: the shutdown of one child is one step.
- ContextStart: nobody initiates the child before its creation returns, and the parent comes by one place at a time, where the code holds the lock over empty places.
- ConfigManager: Clear, Register, metadata and watchers, and concurrent calls; the defaults of the root count as values given to it.
- GetEntry: makes the parent's entry before its own, where the code makes its own first; no other call comes between.
- Not modelled at all: AutoNet, threads and their priorities, the type-level machinery, type memoization, HeteroBlock, TeardownNotifier, ContextEnumerator, ObjectPool, observable, once and optional.
