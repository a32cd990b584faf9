/**
 * The shared vocabulary of the task runtime: coroutine handles and thread
 * identities as naturals, the scheduling fields of a Task's promise, the
 * coroutine frames those promises live in, and the process-wide outcome
 * (`success`, the stop source and `transferCount`).
 */
module Runtime {

  /** A coroutine handle, identified by its frame address. The null handle is
      `None` wherever the source can produce it. */
  type Handle = nat

  /** A `std::thread::id`. The thread executing a step is passed in. */
  type ThreadId = nat

  datatype Option<+T> = None | Some(value: T)

  /** The scheduling fields of Task::promise_type: `suspended_`,
      `suspendedBy_`, `wakeOn_` and `watch_`. */
  datatype Promise = Promise(suspended: bool, suspendedBy: ThreadId, wakeOn: ThreadId, watch: bool)

  /** The suspend phase of a transfer: record which thread suspends the task,
      then raise its `suspended_` flag. */
  function Publish(p: Promise, thread: ThreadId): (r: Promise)
    ensures r.suspended && r.suspendedBy == thread
    ensures r.wakeOn == p.wakeOn && r.watch == p.watch
  {
    p.(suspendedBy := thread, suspended := true)
  }

  /** The resume phase: `suspended_.exchange(false)`. It reports exactly
      whether the task was suspended, always leaves the flag down and touches
      no other field. */
  function TestAndClear(p: Promise): (r: (bool, Promise))
    ensures r.0 == p.suspended && !r.1.suspended
    ensures r.1.suspendedBy == p.suspendedBy && r.1.wakeOn == p.wakeOn && r.1.watch == p.watch
  {
    (p.suspended, p.(suspended := false))
  }

  /** A suspend followed by a resume is a clean cycle, and it leaves the
      suspending thread recorded. */
  lemma SuspendThenResumeIsClean(p: Promise, thread: ThreadId)
    ensures var (ok, q) := TestAndClear(Publish(p, thread));
            ok && !q.suspended && q.suspendedBy == thread
  {
  }

  /** A second resume with no suspend in between is reported as a lost wakeup. */
  lemma SecondResumeFails(p: Promise)
    ensures !TestAndClear(TestAndClear(p).1).0
  {
  }

  /** The coroutine frames of the live Tasks: `h.promise()` is `promise[h]`. */
  class Frames {
    var promise: map<Handle, Promise>

    constructor(promise: map<Handle, Promise>)
      ensures this.promise == promise
    {
      this.promise := promise;
    }
  }

  /** `transferCount` is a `std::atomic<unsigned long>`: 64 bits wide on LP64
      targets (Linux, macOS); 32 bits where `long` is 32 bits (Windows). */
  const CountModulus: nat := 0x1_0000_0000_0000_0000

  /** `++transferCount`, wrapping at 2^64 (an LP64 target). */
  function Increment(count: nat): (r: nat)
    ensures r < CountModulus
    ensures count + 1 < CountModulus ==> r == count + 1
  {
    (count + 1) % CountModulus
  }

  /** The process-wide state every Task shares: the `success` flag, whether
      the global stop source has been asked to stop, and the transfer count. */
  class RunContext {
    var success: bool
    var stopRequested: bool
    var transferCount: nat

    constructor()
      ensures success && !stopRequested && transferCount == 0
    {
      success := true;
      stopRequested := false;
      transferCount := 0;
    }
  }
}
