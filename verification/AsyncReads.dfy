/** The bounded, coalescing executor for vault reads.

    `Fields` is what the executor keeps under its one lock; the functions on it
    are the bodies of the four lock sections.  The class below updates the same
    fields in place and is proved against those functions, and the protocol in
    AsyncProtocol.dfy interleaves them with workers, event loops and callers. */
module AsyncReads {
  import opened Basics

  type Key = string
  type Loop = nat

  /** A worker's future is named by the order in which it was submitted. */
  type FutureId = nat

  /** `waiters` maps an event loop to whether its `asyncio.Event` is set. */
  datatype Fields = Fields(
    maxBacklog: int,
    inflight: map<Key, FutureId>,
    outstanding: int,
    waiters: map<Loop, bool>)

  datatype Admission = Full | Joined(future: FutureId) | Admitted(future: FutureId)

  /** The lock section of `acquire`; `next` is the future the pool would return. */
  function AcquireLocked(e: Fields, key: Key, coalesce: bool, next: FutureId): (Fields, Admission) {
    if coalesce && key in e.inflight then (e, Joined(e.inflight[key]))
    else if e.outstanding >= e.maxBacklog then (e, Full)
    else (Reserve(e, key, coalesce, next), Admitted(next))
  }

  /** The lock section of `submit`: the same, without the cap. */
  function SubmitLocked(e: Fields, key: Key, coalesce: bool, next: FutureId): (Fields, Admission) {
    if coalesce && key in e.inflight then (e, Joined(e.inflight[key]))
    else (Reserve(e, key, coalesce, next), Admitted(next))
  }

  function Reserve(e: Fields, key: Key, coalesce: bool, next: FutureId): Fields {
    e.(outstanding := e.outstanding + 1,
       inflight := if coalesce then e.inflight[key := next] else e.inflight)
  }

  /** The lock section of the release callback of future `done`. */
  function ReleaseLocked(e: Fields, key: Key, done: FutureId): Fields {
    e.(inflight := if key in e.inflight && e.inflight[key] == done then e.inflight - {key} else e.inflight,
       outstanding := if e.outstanding - 1 > 0 then e.outstanding - 1 else 0)
  }

  /** The lock section of `wait_for_slot`: clear the loop's event, then look. */
  function WaitLocked(e: Fields, loop: Loop): (Fields, bool) {
    (e.(waiters := e.waiters[loop := false]), e.outstanding < e.maxBacklog)
  }

  function EventSet(e: Fields, loop: Loop): Fields {
    if loop in e.waiters then e.(waiters := e.waiters[loop := true]) else e
  }

  function LoopForgotten(e: Fields, loop: Loop): Fields {
    e.(waiters := e.waiters - {loop})
  }

  /** The executor as the object it is: every method is one lock section. */
  class VaultReadExecutor {
    const maxBacklog: int
    var inflight: map<Key, FutureId>
    var outstanding: int
    var waiters: map<Loop, bool>

    ghost function View(): Fields
      reads this
    {
      Fields(maxBacklog, inflight, outstanding, waiters)
    }

    constructor (backlog: int)
      ensures View() == Fields(if backlog > 1 then backlog else 1, map[], 0, map[])
    {
      maxBacklog := if backlog > 1 then backlog else 1;
      inflight := map[];
      outstanding := 0;
      waiters := map[];
    }

    method Acquire(key: Key, coalesce: bool, next: FutureId) returns (shared: Option<FutureId>, register: bool)
      modifies this
      ensures View() == AcquireLocked(old(View()), key, coalesce, next).0
      ensures match AcquireLocked(old(View()), key, coalesce, next).1
              case Full => shared == None && !register
              case Joined(f) => shared == Some(f) && !register
              case Admitted(f) => shared == Some(f) && register
    {
      register := false;
      if coalesce {
        if key in inflight {
          return Some(inflight[key]), false;
        }
      }
      if outstanding >= maxBacklog {
        return None, false;
      }
      outstanding := outstanding + 1;
      shared := Some(next);
      if coalesce {
        inflight := inflight[key := next];
      }
      register := true;
    }

    method Submit(key: Key, coalesce: bool, next: FutureId) returns (shared: FutureId, register: bool)
      modifies this
      ensures View() == SubmitLocked(old(View()), key, coalesce, next).0
      ensures SubmitLocked(old(View()), key, coalesce, next).1 == if register then Admitted(shared) else Joined(shared)
    {
      register := false;
      if coalesce {
        if key in inflight {
          shared := inflight[key];
        } else {
          shared := next;
          inflight := inflight[key := shared];
          outstanding := outstanding + 1;
          register := true;
        }
      } else {
        shared := next;
        outstanding := outstanding + 1;
        register := true;
      }
    }

    method Release(key: Key, done: FutureId) returns (toWake: set<Loop>)
      modifies this
      ensures View() == ReleaseLocked(old(View()), key, done)
      ensures toWake == waiters.Keys
    {
      if key in inflight && inflight[key] == done {
        inflight := inflight - {key};
      }
      outstanding := if outstanding - 1 > 0 then outstanding - 1 else 0;
      toWake := waiters.Keys;
    }

    method WaitForSlot(loop: Loop) returns (free: bool)
      modifies this
      ensures (View(), free) == WaitLocked(old(View()), loop)
    {
      if loop !in waiters {
        waiters := waiters[loop := false];
      }
      waiters := waiters[loop := false];
      assert waiters == old(waiters)[loop := false];
      free := outstanding < maxBacklog;
    }

    /** The queued `event.set`, as the loop that owns the event runs it. */
    method SetEvent(loop: Loop)
      requires loop in waiters
      modifies this
      ensures View() == EventSet(old(View()), loop)
    {
      waiters := waiters[loop := true];
    }

    /** A release found the loop closed: its waiters are gone. */
    method ForgetLoop(loop: Loop)
      modifies this
      ensures View() == LoopForgotten(old(View()), loop)
    {
      waiters := waiters - {loop};
    }
  }
}
