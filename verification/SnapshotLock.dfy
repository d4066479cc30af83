/** The promise-tail lock around database snapshots: one at a time, in the order of the calls. */
module SnapshotLock {
  /**
   Promise 0 is resolved from the start; call `n` (from 1) awaits promise `n - 1` and resolves
   promise `n` in its `finally`.
   */
  class SnapshotQueue {
    var tail: nat               // the promise the next call will await
    var resolved: set<nat>
    var started: set<nat>       // the calls whose work has begun
    ghost var runs: seq<nat>    // the calls, in the order in which their work began

    /** The calls that are working now. */
    ghost function Working(): set<nat>
      reads this
    {
      started - resolved
    }

    /** Work began in the order of the calls, and at most the latest to begin is not done. */
    ghost predicate Valid()
      reads this
    {
      && |runs| <= tail
      && (forall i | 0 <= i < |runs| :: runs[i] == i + 1)
      && (forall n :: n in started <==> 1 <= n <= |runs|)
      && (|| (forall n :: n in resolved <==> 0 <= n <= |runs|)
          || (|runs| > 0 && forall n :: n in resolved <==> 0 <= n < |runs|))
    }

    constructor ()
      ensures Valid() && tail == 0 && runs == []
    {
      tail, resolved, started, runs := 0, {0}, {}, [];
    }

    /** The synchronous part of a call: it queues itself behind the tail. */
    method EnterQueue() returns (call: nat)
      requires Valid()
      modifies this
      ensures Valid() && call == old(tail) + 1 && tail == call
      ensures resolved == old(resolved) && started == old(started) && runs == old(runs)
    {
      tail := tail + 1;
      call := tail;
    }

    /** The awaited promise has resolved: the work begins, and no other is under way. */
    method StartWork(call: nat)
      requires Valid() && 1 <= call <= tail && call - 1 in resolved && call !in started
      modifies this
      ensures Valid() && old(Working()) == {} && Working() == {call}
      ensures runs == old(runs) + [call] && call == |runs|
      ensures tail == old(tail) && resolved == old(resolved)
    {
      started := started + {call};
      runs := runs + [call];
    }

    /** The work has returned or thrown; either way the next call's promise resolves. */
    method FinishWork(call: nat, failed: bool)
      requires Valid() && call in started && call !in resolved
      modifies this
      ensures Valid() && Working() == {}
      ensures resolved == old(resolved) + {call} && runs == old(runs) && tail == old(tail)
      ensures call < tail ==> call + 1 !in started   // and it may start now
    {
      resolved := resolved + {call};
    }

    /** Mutual exclusion, and order: nobody starts before an earlier call is done. */
    lemma OneAtATimeInOrder(m: nat, n: nat)
      requires Valid() && n in started && 1 <= m <= n
      ensures m in started && (m < n ==> m in resolved)
      ensures m in Working() && n in Working() ==> m == n
      ensures Working() == {} && |runs| < tail ==> |runs| in resolved && |runs| + 1 !in started
    {
      if |runs| > 0 && |runs| !in resolved {
        assert |runs| in Working();
      }
    }
  }
}
