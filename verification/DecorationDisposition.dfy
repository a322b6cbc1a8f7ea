/** What a packet holds about one type. */
module Dispositions {
  import opened Prelude
  import opened FilterNetwork
  import opened PacketState
  import opened Wiring

  class DecorationDisposition {
    var producersRun: nat
    var decorations: seq<Value>
    var immediate: Option<Value>
    var publishers: seq<FilterId>
    var modifiers: seq<Modifier>
    var subscribers: seq<Subscriber>
    var phase: Phase

    constructor ()
      ensures AsSlot() == EMPTY_SLOT && AsLists() == NO_LISTS && immediate == None
    {
      producersRun, decorations, immediate, phase := 0, [], None, Unsatisfied;
      publishers, modifiers, subscribers := [], [], [];
    }

    ghost function AsSlot(): Slot reads this { Slot(producersRun, decorations, phase) }
    ghost function AsLists(): Lists reads this { Lists(publishers, modifiers, subscribers) }

    /** True if the disposition became complete by this call. */
    method IncProducerCount() returns (completed: bool)
      modifies `producersRun, `phase
      ensures AsSlot() == Advance(old(AsSlot()), Null, |publishers|)
      ensures completed <==> old(phase) != Complete && phase == Complete
    {
      producersRun := producersRun + 1;
      if phase != Complete {
        if producersRun >= |publishers| {
          phase := Complete;
          return true;
        }
        phase := PartlySatisfied;
      }
      return false;
    }

    /** Attaches the emission of one more producer. */
    method Attach(e: Emission) returns (completed: bool)
      modifies `producersRun, `phase, `decorations
      ensures AsSlot() == Advance(old(AsSlot()), e, |publishers|)
      ensures completed <==> old(phase) != Complete && phase == Complete
    {
      if e.Item? {
        decorations := decorations + [e.value];
      }
      completed := IncProducerCount();
    }
  }
}
