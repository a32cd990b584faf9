/**
 * test/cobroken.cpp: the variant without the trampoline. Tasks transfer
 * straight to their destination; a 200-entry history records (thread, from,
 * to) edges and is shown without being drained; a watch list remembers the
 * Tasks a thread meant to resume when a different Task woke instead.
 */
module CoBrokenTest {
  import opened Runtime
  import opened Queue
  import Ring

  /** One history entry: the thread and the two coroutine addresses. */
  type Entry = (ThreadId, Handle, Handle)

  /** The history: a ring buffer of `maximum` entries; `log` is every entry
      ever recorded. */
  class History {
    static const maximum: nat := 200

    var vec: seq<Entry>
    var offset: nat
    ghost var log: seq<Entry>

    /** The buffer has a shape Record can produce, and walking it as Show
        does yields the newest min(|log|, maximum) entries, newest first. */
    ghost predicate Valid()
      reads this
    {
      Ring.Valid(|vec|, offset, maximum) &&
      Ring.Shown(vec, offset, maximum) == Ring.NewestFirst(log, maximum)
    }

    constructor()
      ensures Valid() && vec == [] && offset == 0 && log == []
    {
      vec := [];
      offset := 0;
      log := [];
    }

    method Record(t: ThreadId, a: Handle, b: Handle)
      requires Valid()
      modifies this
      ensures Valid() && log == old(log) + [(t, a, b)]
      ensures (vec, offset) == Ring.Record(old(vec), old(offset), maximum, (t, a, b))
    {
      Ring.ShownAfterRecord(vec, offset, maximum, (t, a, b));
      Ring.NewestFirstAfterAppend(log, maximum, (t, a, b));
      log := log + [(t, a, b)];
      if |vec| < maximum {
        vec := vec + [(t, a, b)];
        offset := offset + 1;
        return;
      }
      offset := offset % maximum;
      vec := vec[offset := (t, a, b)];
      offset := offset + 1;
    }

    /** Lists the entries, newest first, leaving the buffer as it is. */
    method Show() returns (r: seq<Entry>)
      requires Valid()
      ensures r == Ring.NewestFirst(log, maximum)
    {
      var o: nat := offset + maximum * 2;
      r := [];
      var i := 0;
      while i < |vec|
        invariant 0 <= i <= |vec|
        invariant o == offset + 2 * maximum - i && maximum <= o
        invariant r == Ring.Shown(vec, offset, maximum)[..i]
      {
        Ring.ShowIndexBackwards(offset, |vec|, maximum, i);
        o := o - 1;
        r := r + [vec[o % maximum]];
        i := i + 1;
      }
    }
  }

  /** The source's Show, run after a single Record, reads slot maximum - 1 of
      a vector holding one entry. */
  lemma ShowAsWrittenOverrunsAfterOneRecord(e: Entry)
    ensures var (vec, offset) := Ring.Record([], 0, History.maximum, e);
            |vec| == 1 &&
            Ring.VisitIndex(Ring.AsWrittenStart(offset, |vec|, History.maximum), History.maximum, 0)
              == History.maximum - 1
  {
  }

  /** The set of `expected` handles: Tasks a thread meant to resume when a
      different Task woke in their place. */
  class Watch {
    var handles: set<Handle>

    constructor()
      ensures handles == {}
    {
      handles := {};
    }

    /** A set insert: adding a handle already present changes nothing. */
    method Add(h: Handle)
      modifies this
      ensures handles == old(handles) + {h}
      ensures h in handles
      ensures h in old(handles) ==> handles == old(handles)
    {
      handles := handles + {h};
    }

    method IsWatched(h: Handle) returns (watched: bool)
      ensures watched <==> h in handles
    {
      watched := h in handles;
    }
  }

  /** The awaiter `co_await Transfer{handles, next, mine}` of this variant:
      no trampoline and no history. */
  class Transfer {
    const handles: Handles
    const destination: Handle
    const mine: Handle
    var me: Option<Handle>

    constructor(handles: Handles, destination: Handle, mine: Handle)
      ensures this.handles == handles && this.destination == destination && this.mine == mine
      ensures me == None
    {
      this.handles := handles;
      this.destination := destination;
      this.mine := mine;
      me := None;
    }

    /** Publishes `me` as suspended by `thread` before queueing it, counts the
        transfer and transfers straight to `destination`. A watched `me`, or a
        `me` other than `mine`, is only logged. */
    method AwaitSuspend(me: Handle, thread: ThreadId, frames: Frames, ctx: RunContext)
      returns (target: Handle)
      requires me in frames.promise
      modifies this`me, frames, handles, ctx
      ensures this.me == Some(me)
      ensures frames.promise == old(frames.promise)[me := Publish(old(frames.promise)[me], thread)]
      ensures handles.queue == old(handles.queue) + [me]
      ensures ctx.transferCount == Increment(old(ctx.transferCount))
      ensures ctx.success == old(ctx.success) && ctx.stopRequested == old(ctx.stopRequested)
      ensures target == destination
    {
      this.me := Some(me);
      frames.promise := frames.promise[me := Publish(frames.promise[me], thread)];
      var next := destination;
      handles.Add(me);
      ctx.transferCount := Increment(ctx.transferCount);
      target := next;
    }

    /** Test-and-clears the flag of the suspended Task; true exactly when it
        was set. The handle must have been captured by AwaitSuspend. */
    method AwaitResume(frames: Frames) returns (ok: bool)
      requires me.Some? && me.value in frames.promise
      modifies frames
      ensures me.value in frames.promise
      ensures (ok, frames.promise[me.value]) == TestAndClear(old(frames.promise)[me.value])
      ensures frames.promise == old(frames.promise)[me.value := frames.promise[me.value]]
    {
      var h := me.value;
      var (was, cleared) := TestAndClear(frames.promise[h]);
      frames.promise := frames.promise[h := cleared];
      ok := was;
    }
  }
}
