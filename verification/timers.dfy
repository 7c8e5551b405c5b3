/**
  The host's recurring timers (`setInterval` / `clearInterval`), seen from the widget: a
  registry of live interval ids, each with its period in milliseconds.
 */
module Timers {

  class TimerHost {
    /** The live intervals: id to period. A live interval keeps firing until it is cleared. */
    var live: map<nat, nat>
    var nextId: nat

    ghost predicate Valid()
      reads this
    {
      forall id :: id in live ==> id < nextId
    }

    constructor ()
      ensures Valid() && live == map[]
    {
      live := map[];
      nextId := 0;
    }

    /** `setInterval`: registers a new interval under an id that is not live. */
    method SetInterval(period: nat) returns (id: nat)
      requires Valid()
      modifies this
      ensures Valid()
      ensures id !in old(live) && live == old(live)[id := period]
    {
      id := nextId;
      live := live[id := period];
      nextId := nextId + 1;
    }

    /** `clearInterval`: the interval stops firing; clearing an unknown id does nothing. */
    method ClearInterval(id: nat)
      requires Valid()
      modifies this
      ensures Valid()
      ensures live == old(live) - {id}
    {
      live := live - {id};
    }
  }
}
