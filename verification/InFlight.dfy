/**
 * The tracker of running work that a shutdown drains: a count, the keys that
 * are active, and the callers that wait for the count to reach zero.
 */
module InFlight {
  datatype Option<+T> = None | Some(value: T)

  type WaiterId = nat

  // Work without a key, or with an empty one, is only counted.
  predicate IsKeyed(key: Option<string>) {
    key.Some? && key.value != ""
  }

  class InFlightTracker {
    var count: nat
    var activeKeys: map<string, nat>
    var waiters: seq<WaiterId>
    // The work that runs now, one element per run, by key.
    ghost var running: multiset<Option<string>>

    constructor ()
      ensures Valid() && running == multiset{} && waiters == []
    {
      count, activeKeys, waiters, running := 0, map[], [], multiset{};
    }

    function Active(key: string): nat
      reads this`activeKeys
    {
      if key in activeKeys then activeKeys[key] else 0
    }

    ghost predicate Valid()
      reads this
    {
      && count == |running|
      && (forall k :: Active(k) == if k == "" then 0 else running[Some(k)])
      && (forall k | k in activeKeys :: activeKeys[k] > 0)
      && (waiters != [] ==> count > 0)
    }

    predicate IsActive(key: string)
      requires Valid()
      reads this
      ensures IsActive(key) <==> key != "" && Some(key) in running
    {
      Active(key) > 0
    }

    method Begin(key: Option<string>)
      requires Valid()
      modifies this
      ensures Valid() && running == old(running) + multiset{key} && waiters == old(waiters)
    {
      count := count + 1;
      if IsKeyed(key) {
        activeKeys := activeKeys[key.value := Active(key.value) + 1];
      }
      running := running + multiset{key};
    }

    /** The work settled. Whoever waits for the drain is released exactly when nothing runs any more. */
    method Finish(key: Option<string>) returns (released: seq<WaiterId>)
      requires Valid() && key in running
      modifies this
      ensures Valid() && running == old(running) - multiset{key}
      ensures if running == multiset{} then released == old(waiters) && waiters == []
              else released == [] && waiters == old(waiters)
    {
      count := count - 1;
      if IsKeyed(key) {
        var remaining := Active(key.value) - 1;
        if remaining > 0 {
          activeKeys := activeKeys[key.value := remaining];
        } else {
          activeKeys := activeKeys - {key.value};
        }
      }
      running := running - multiset{key};
      released := [];
      if count == 0 {
        assert running == multiset{};
        released := waiters;
        waiters := [];
      }
    }

    /** Done at once when nothing runs; otherwise the caller joins the waiters. */
    method Drain(waiter: WaiterId) returns (done: bool)
      requires Valid()
      modifies this`waiters
      ensures Valid() && done == (running == multiset{})
      ensures waiters == if done then old(waiters) else old(waiters) + [waiter]
    {
      done := count == 0;
      assert count == 0 <==> running == multiset{};
      if !done {
        waiters := waiters + [waiter];
      }
    }

    // The wait timed out: the first such waiter leaves, the others stay in order.
    method TimeOut(waiter: WaiterId)
      requires Valid()
      modifies this`waiters
      ensures Valid()
      ensures if waiter !in old(waiters) then waiters == old(waiters)
              else exists i :: 0 <= i < |old(waiters)| && old(waiters)[i] == waiter && waiter !in old(waiters)[..i]
                     && waiters == old(waiters)[..i] + old(waiters)[i + 1..]
    {
      var i := 0;
      while i < |waiters| && waiters[i] != waiter
        invariant i <= |waiters| && waiter !in waiters[..i]
      {
        i := i + 1;
      }
      if i < |waiters| {
        waiters := waiters[..i] + waiters[i + 1..];
      }
    }
  }
}
