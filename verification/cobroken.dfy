/**
 * cobroken.cpp: Tasks hand control to each other directly ("symmetric
 * transfer"), always through the per-thread trampoline `Fix`, which catches a
 * transfer that lands on the wrong thread and diverts its destination to that
 * trampoline's lost queue. Every step is recorded in a 2000-entry history.
 *
 * Each locked method and each coroutine step between two suspension points is
 * one method here. The thread executing a step is an input; the thread-local
 * state of that thread (`expected`, `Fix::Instance()`) is a `Worker` passed in.
 */
module CoBroken {
  import opened Runtime
  import opened Queue
  import Ring

  /** One entry of the history (the variant History::Type). Each records the
      thread that created it and the coroutines involved. */
  datatype Event =
    | Add(thread: ThreadId, from: Handle, to: Handle)
    | Resume(thread: ThreadId, co: Handle)
    | Suspend(thread: ThreadId, co: Handle, suspending: bool)
    | Busted(thread: ThreadId, co: Handle)
    | ThreadChain(thread: ThreadId, co: Handle, dest: Handle)
    | ThreadWoke(thread: ThreadId, co: Handle)

  /** The event history: a ring buffer of `maximum` entries. `log` is every
      entry recorded since the buffer was last drained. */
  class History {
    static const maximum: nat := 2000

    var vec: seq<Event>
    var offset: nat
    ghost var log: seq<Event>

    /** The buffer has a shape Record can produce, and walking it as Show
        does yields the newest min(|log|, maximum) entries, newest first. */
    ghost predicate Valid()
      reads this
    {
      Ring.Valid(|vec|, offset, maximum) &&
      Ring.Shown(vec, offset, maximum) == Ring.NewestFirst(log, maximum)
    }

    constructor()
      ensures Valid() && vec == [] && offset == 0 && log == []
    {
      vec := [];
      offset := 0;
      log := [];
    }

    method Record(e: Event)
      requires Valid()
      modifies this
      ensures Valid() && log == old(log) + [e]
      ensures (vec, offset) == Ring.Record(old(vec), old(offset), maximum, e)
    {
      Ring.ShownAfterRecord(vec, offset, maximum, e);
      Ring.NewestFirstAfterAppend(log, maximum, e);
      log := log + [e];
      if |vec| < maximum {
        vec := vec + [e];
        offset := offset + 1;
        return;
      }
      offset := offset % maximum;
      vec := vec[offset := e];
      offset := offset + 1;
    }

    /** Takes the buffer, resets it to empty, and returns its entries in the
        order it visits them: newest first. */
    method Show() returns (r: seq<Event>)
      requires Valid()
      modifies this
      ensures r == Ring.NewestFirst(old(log), maximum)
      ensures Valid() && vec == [] && offset == 0 && log == []
    {
      var v := vec;
      var start := offset;
      vec := [];
      var o: nat := start + maximum * 2;
      offset := 0;
      log := [];
      r := [];
      var i := 0;
      while i < |v|
        invariant 0 <= i <= |v|
        invariant o == start + 2 * maximum - i && maximum <= o
        invariant r == Ring.Shown(v, start, maximum)[..i]
        invariant vec == [] && offset == 0 && log == []
      {
        Ring.ShowIndexBackwards(start, |v|, maximum, i);
        o := o - 1;
        r := r + [v[o % maximum]];
        i := i + 1;
      }
    }
  }

  /** The source's Show, run after a single Record, reads slot maximum - 1 of
      a vector holding one entry. */
  lemma ShowAsWrittenOverrunsAfterOneRecord(e: Event)
    ensures var (vec, offset) := Ring.Record([], 0, History.maximum, e);
            |vec| == 1 &&
            Ring.VisitIndex(Ring.AsWrittenStart(offset, |vec|, History.maximum), History.maximum, 0)
              == History.maximum - 1
  {
  }

  /** Where the trampoline coroutine `Fix::Run` is suspended. */
  datatype Stage =
    | NotStarted  // at its initial suspend: the body has not begun
    | Forwarding  // in `co_await Awaiter{m_destination}`
    | Parked      // in the `co_await std::suspend_always()` after a wrong-thread landing

  /** The per-thread trampoline: the coroutine `m_task`, its lost queue, the
      pending destination and the local `correctThread` of its body. */
  class Fix {
    const task: Handle
    const lost: Handles
    var destination: Option<Handle>
    var stage: Stage
    var correctThread: ThreadId

    constructor(task: Handle)
      ensures this.task == task && fresh(lost) && lost.queue == []
      ensures destination == None && stage == NotStarted
    {
      this.task := task;
      lost := new Handles();
      destination := None;
      stage := NotStarted;
      correctThread := 0;
    }

    /** Stores `next` as the pending destination and returns the trampoline
        itself as the coroutine to transfer to. */
    method Chain(next: Handle) returns (target: Handle)
      modifies this`destination
      ensures destination == Some(next) && target == task
    {
      destination := Some(next);
      target := task;
    }

    method GetLost() returns (h: Option<Handle>)
      modifies lost
      ensures (h, lost.queue) == Pop(old(lost.queue))
    {
      h := lost.Get();
    }

    /** The trampoline is resumed on `thread`; `local` is the Fix of that
        thread, whose thread-local `m_destination` the body reads. Returns the
        coroutine control passes to, or None when the trampoline parks.
        A first entry records the thread; an entry from the Awaiter on another
        thread marks the destination watched, puts it on the lost queue and
        parks; any other entry records a ThreadChain event and forwards. */
    method Enter(thread: ThreadId, local: Fix, frames: Frames, history: History)
      returns (target: Option<Handle>)
      requires local.destination.Some? && local.destination.value in frames.promise
      requires history.Valid()
      modifies this`stage, this`correctThread, lost, frames, history
      ensures history.Valid()
      ensures correctThread == if old(stage) == NotStarted then thread else old(correctThread)
      ensures var d := old(local.destination).value;
              if old(stage) == Forwarding && thread != old(correctThread) then
                && target == None && stage == Parked
                && frames.promise == old(frames.promise)[d := old(frames.promise)[d].(watch := true)]
                && lost.queue == old(lost.queue) + [d]
                && history.log == old(history.log)
              else
                && target == Some(d) && stage == Forwarding
                && frames.promise == old(frames.promise)
                && lost.queue == old(lost.queue)
                && history.log == old(history.log) + [ThreadChain(thread, task, d)]
    {
      var d := local.destination.value;
      if stage == Forwarding && thread != correctThread {
        frames.promise := frames.promise[d := frames.promise[d].(watch := true)];
        lost.Add(d);
        stage := Parked;
        return None;
      }
      if stage == NotStarted {
        correctThread := thread;
      }
      history.Record(ThreadChain(thread, task, d));
      stage := Forwarding;
      target := Some(d);
    }
  }

  /** The thread-local state of the thread running a step: its id, the
      `expected` handle and `Fix::Instance()`. */
  class Worker {
    const thread: ThreadId
    const fix: Fix
    var expected: Option<Handle>

    constructor(thread: ThreadId, fix: Fix)
      ensures this.thread == thread && this.fix == fix && expected == None
    {
      this.thread := thread;
      this.fix := fix;
      expected := None;
    }
  }

  /** The awaiter `co_await Transfer{handles, next, mine}`: suspends the
      running Task onto the shared queue and transfers to `destination`. */
  class Transfer {
    const handles: Handles
    const destination: Handle
    const mine: Handle
    var me: Option<Handle>

    constructor(handles: Handles, destination: Handle, mine: Handle)
      ensures this.handles == handles && this.destination == destination && this.mine == mine
      ensures me == None
    {
      this.handles := handles;
      this.destination := destination;
      this.mine := mine;
      me := None;
    }

    /** Publishes `me` as suspended by `thread` (before it is queued), records
        the suspension, queues `me`, counts the transfer and routes control to
        `destination` through the trampoline. A `me` other than `mine` is only
        logged. */
    method AwaitSuspend(me: Handle, thread: ThreadId, fix: Fix, frames: Frames, history: History, ctx: RunContext)
      returns (target: Handle)
      requires me in frames.promise
      requires history.Valid()
      modifies this`me, frames, history, handles, ctx, fix`destination
      ensures this.me == Some(me)
      ensures frames.promise == old(frames.promise)[me := Publish(old(frames.promise)[me], thread)]
      ensures history.Valid() && history.log == old(history.log) + [Suspend(thread, me, true)]
      ensures handles.queue == old(handles.queue) + [me]
      ensures ctx.transferCount == Increment(old(ctx.transferCount))
      ensures ctx.success == old(ctx.success) && ctx.stopRequested == old(ctx.stopRequested)
      ensures fix.destination == Some(destination) && target == fix.task
    {
      this.me := Some(me);
      frames.promise := frames.promise[me := Publish(frames.promise[me], thread)];
      history.Record(Suspend(thread, me, true));
      var next := destination;
      handles.Add(me);
      ctx.transferCount := Increment(ctx.transferCount);
      target := fix.Chain(next);
    }

    /** Test-and-clears the flag of the suspended Task; true exactly when it
        was set (a clean suspend/resume cycle). The handle must have been
        captured by AwaitSuspend: the source dereferences it regardless. */
    method AwaitResume(thread: ThreadId, frames: Frames, history: History) returns (ok: bool)
      requires me.Some? && me.value in frames.promise
      requires history.Valid()
      modifies frames, history
      ensures me.value in frames.promise
      ensures (ok, frames.promise[me.value]) == TestAndClear(old(frames.promise)[me.value])
      ensures frames.promise == old(frames.promise)[me.value := frames.promise[me.value]]
      ensures history.Valid()
      ensures history.log == old(history.log) + [Resume(thread, me.value)]
                             + (if ok then [Suspend(thread, me.value, false)] else [])
    {
      var h := me.value;
      history.Record(Resume(thread, h));
      var (was, cleared) := TestAndClear(frames.promise[h]);
      frames.promise := frames.promise[h := cleared];
      if !was {
        return false;
      }
      history.Record(Suspend(thread, h, false));
      ok := true;
    }
  }

  /** Op's pick rule: the back of the lost queue while it has one, otherwise
      the back of the shared queue; gives the pick and both remaining queues. */
  function Select(lost: seq<Handle>, shared: seq<Handle>): (r: (Option<Handle>, seq<Handle>, seq<Handle>))
    ensures lost != [] ==> r == (Some(lost[|lost| - 1]), lost[..|lost| - 1], shared)
    ensures lost == [] && shared != [] ==> r == (Some(shared[|shared| - 1]), lost, shared[..|shared| - 1])
    ensures lost == [] && shared == [] ==> r == (None, lost, shared)
  {
    var (h, rest) := Pop(lost);
    if h.Some? then (h, rest, shared)
    else
      var (h', rest') := Pop(shared);
      (h', rest, rest')
  }

  /** The first half of one iteration of Op's loop: pick the next Task (lost
      queue first), clear its watch flag, remember it as `expected`, record the
      edge and stamp its `wakeOn_` with this thread. With nothing to pick, the
      history is shown (and drained) before the Task parks. */
  method OpSelect(w: Worker, mine: Handle, handles: Handles, frames: Frames, history: History)
    returns (next: Option<Handle>)
    requires w.fix.lost != handles
    requires forall h :: h in w.fix.lost.queue ==> h in frames.promise
    requires forall h :: h in handles.queue ==> h in frames.promise
    requires history.Valid()
    modifies w`expected, w.fix.lost, handles, frames, history
    ensures (next, w.fix.lost.queue, handles.queue) == Select(old(w.fix.lost.queue), old(handles.queue))
    ensures history.Valid()
    ensures next.Some? ==>
              && frames.promise == old(frames.promise)[next.value := old(frames.promise)[next.value].(watch := false, wakeOn := w.thread)]
              && w.expected == next
              && history.log == old(history.log) + [Add(w.thread, mine, next.value)]
    ensures next.None? ==>
              && frames.promise == old(frames.promise)
              && w.expected == old(w.expected)
              && history.log == []
  {
    next := w.fix.GetLost();
    if next.None? {
      next := handles.Get();
    }
    if next.None? {
      var shown := history.Show();
      return;
    }
    var n := next.value;
    assert n in frames.promise;
    if frames.promise[n].watch {
      frames.promise := frames.promise[n := frames.promise[n].(watch := false)];
    }
    w.expected := next;
    history.Record(Add(w.thread, mine, n));
    frames.promise := frames.promise[n := frames.promise[n].(wakeOn := w.thread)];
  }

  /** The second half, once the Task runs again: resume the transfer, then
      clear `success` if the cycle was not clean, if the Task was not woken on
      the thread that stamped it, or if this thread expected another Task; the
      last case also records Busted, shows the history and requests stop.
      `success` is only ever lowered. */
  method OpVerdict(t: Transfer, w: Worker, frames: Frames, history: History, ctx: RunContext)
    requires t.me.Some? && t.me.value in frames.promise && t.mine in frames.promise
    requires history.Valid()
    modifies frames, history, ctx
    ensures frames.promise == old(frames.promise)[t.me.value := old(frames.promise)[t.me.value].(suspended := false)]
    ensures var ok := old(frames.promise)[t.me.value].suspended;
            var onThread := old(frames.promise)[t.mine].wakeOn == w.thread;
            var busted := w.expected != Some(t.mine);
            && ctx.success == (old(ctx.success) && ok && onThread && !busted)
            && ctx.stopRequested == (old(ctx.stopRequested) || busted)
            && history.log == if busted then []
                              else old(history.log) + [Resume(w.thread, t.me.value)]
                                   + (if ok then [Suspend(w.thread, t.me.value, false)] else [])
    ensures ctx.success ==> old(ctx.success)
    ensures ctx.transferCount == old(ctx.transferCount)
    ensures history.Valid()
  {
    var ok := t.AwaitResume(w.thread, frames, history);
    if !ok {
      ctx.success := false;
    }
    if frames.promise[t.mine].wakeOn != w.thread {
      ctx.success := false;
    }
    if w.expected != Some(t.mine) {
      history.Record(Busted(w.thread, t.mine));
      ctx.success := false;
      var shown := history.Show();
      ctx.stopRequested := true;
    }
  }

  /** A cross-thread landing and its recovery: the trampoline of `w` is
      entered on another thread, so it parks and quarantines the destination;
      the next pick of `w` takes that Task before anything on the shared
      queue, with its watch flag cleared and `wakeOn_` stamped. */
  method QuarantineThenRetry(w: Worker, thread: ThreadId, local: Fix, mine: Handle,
                             handles: Handles, frames: Frames, history: History)
    returns (forwarded: Option<Handle>, next: Option<Handle>)
    requires w.fix.stage == Forwarding && thread != w.fix.correctThread
    requires local.destination.Some? && local.destination.value in frames.promise
    requires w.fix.lost != handles
    requires forall h :: h in w.fix.lost.queue ==> h in frames.promise
    requires forall h :: h in handles.queue ==> h in frames.promise
    requires history.Valid()
    modifies w`expected, w.fix`stage, w.fix`correctThread, w.fix.lost, handles, frames, history
    ensures forwarded == None && w.fix.stage == Parked
    ensures next == old(local.destination) && w.expected == next
    ensures frames.promise == old(frames.promise)[next.value := old(frames.promise)[next.value].(watch := false, wakeOn := w.thread)]
    ensures handles.queue == old(handles.queue) && w.fix.lost.queue == old(w.fix.lost.queue)
  {
    forwarded := w.fix.Enter(thread, local, frames, history);
    next := OpSelect(w, mine, handles, frames, history);
  }
}
