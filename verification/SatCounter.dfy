/** The counter of a filter: how many of its inputs are missing. */
module SatCounters {
  import opened FilterNetwork
  import opened PacketSetup

  class SatCounter {
    const filter: Filter
    var remaining: nat

    constructor (filter: Filter)
      ensures this.filter == filter && remaining == RequiredCount(filter.args)
    {
      this.filter := filter;
      remaining := 0;
      new;
      var i := 0;
      while i < |filter.args|
        invariant i <= |filter.args|
        invariant remaining == RequiredCount(filter.args[..i])
      {
        assert filter.args[..i + 1][..i] == filter.args[..i];
        if filter.args[i].isInput {
          remaining := remaining + 1;
        }
        i := i + 1;
      }
      assert filter.args[..i] == filter.args;
    }

    /** True if this decrement satisfied the last argument. */
    method Decrement() returns (satisfied: bool)
      modifies this
      ensures remaining == if old(remaining) == 0 then 0 else old(remaining) - 1
      ensures satisfied <==> old(remaining) == 1
    {
      if remaining == 0 {
        return false;
      }
      remaining := remaining - 1;
      return remaining == 0;
    }

    method Increment()
      modifies this
      ensures remaining == old(remaining) + 1
    {
      remaining := remaining + 1;
    }
  }
}
