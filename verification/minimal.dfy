/**
 * minimal.cpp: the smallest reproduction. Tasks queue themselves and hand
 * control to the next Task through a per-thread trampoline that only
 * forwards: it has no thread check, no lost queue and no history, and the
 * promise has no scheduling fields.
 */
module Minimal {
  import opened Runtime
  import opened Queue

  /** The per-thread trampoline: the coroutine `m_task` and the pending
      destination `m_destination`. */
  class Fix {
    const task: Handle
    var destination: Option<Handle>

    constructor(task: Handle)
      ensures this.task == task && destination == None
    {
      this.task := task;
      destination := None;
    }

    /** Stores `next` as the pending destination and returns the trampoline
        itself as the coroutine to transfer to. */
    method Chain(next: Handle) returns (target: Handle)
      modifies this`destination
      ensures destination == Some(next) && target == task
    {
      destination := Some(next);
      target := task;
    }

    /** One entry into the trampoline's endless loop: `Awaiter::await_suspend`
        hands control to the destination it was built with. `m_destination`
        is thread-local, so `this` is the Fix of the thread executing the step;
        a landing on another thread is `Enter` on that thread's Fix. */
    method Enter() returns (target: Handle)
      requires destination.Some?
      ensures Some(target) == destination
    {
      target := destination.value;
    }
  }

  /** Chain(next) followed by one trampoline step passes control to next. */
  method ChainThenEnter(fix: Fix, next: Handle) returns (trampoline: Handle, landed: Handle)
    modifies fix`destination
    ensures trampoline == fix.task && landed == next
  {
    trampoline := fix.Chain(next);
    landed := fix.Enter();
  }

  /** The awaiter `co_await Transfer{handles, next}`. */
  class Transfer {
    const handles: Handles
    const destination: Handle

    constructor(handles: Handles, destination: Handle)
      ensures this.handles == handles && this.destination == destination
    {
      this.handles := handles;
      this.destination := destination;
    }

    /** Queues `me`, counts the transfer and routes control to `destination`
        through the trampoline. */
    method AwaitSuspend(me: Handle, fix: Fix, ctx: RunContext) returns (target: Handle)
      modifies handles, ctx, fix`destination
      ensures handles.queue == old(handles.queue) + [me]
      ensures ctx.transferCount == Increment(old(ctx.transferCount))
      ensures ctx.success == old(ctx.success) && ctx.stopRequested == old(ctx.stopRequested)
      ensures fix.destination == Some(destination) && target == fix.task
    {
      var next := destination;
      handles.Add(me);
      ctx.transferCount := Increment(ctx.transferCount);
      target := fix.Chain(next);
    }
  }

  /** A transfer from `me` lands, after the trampoline's step, on the Task it
      was built for, with `me` at the back of the queue. */
  method TransferLandsOnDestination(t: Transfer, me: Handle, fix: Fix, ctx: RunContext)
    returns (landed: Handle)
    modifies t.handles, ctx, fix`destination
    ensures landed == t.destination
    ensures t.handles.queue == old(t.handles.queue) + [me]
  {
    var trampoline := t.AwaitSuspend(me, fix, ctx);
    landed := fix.Enter();
  }
}
