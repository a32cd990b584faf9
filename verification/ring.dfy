/**
 * The index arithmetic of the fixed-capacity event history. Both `History`
 * classes keep a vector `vec` of at most `max` entries and a write position
 * `offset`: `Record` appends while the vector is below capacity and then
 * overwrites slot `offset % max`; `Show` starts a counter `o` and reads
 * `vec[--o % max]` once per stored entry.
 *
 * Everything here depends only on the size of the vector, the offset and the
 * capacity, so both classes (capacity 2000 and capacity 200) share it.
 */
module Ring {

  function Min(a: nat, b: nat): nat
  {
    if a < b then a else b
  }

  /** The shapes `Record` produces from an empty buffer: below capacity the
      offset counts the entries; at capacity it is one past the slot of the
      newest entry, somewhere in 1..max. */
  predicate Valid(size: nat, offset: nat, max: nat)
  {
    0 < max &&
    ((size < max && offset == size) || (size == max && 1 <= offset <= max))
  }

  /** History::Record on the buffer `vec` with write position `offset`. */
  function Record<T>(vec: seq<T>, offset: nat, max: nat, e: T): (r: (seq<T>, nat))
    requires 0 < max
    ensures Valid(|vec|, offset, max) ==> Valid(|r.0|, r.1, max)
  {
    if |vec| < max then
      (vec + [e], offset + 1)
    else
      var slot := offset % max;
      (vec[slot := e], slot + 1)
  }

  /** The index that the i-th iteration of Show reads, `--o % max`, when the
      counter `o` starts at `start`. */
  function VisitIndex(start: int, max: nat, i: nat): (r: int)
    requires 0 < max
    ensures 0 <= r < max
  {
    (start - 1 - i) % max
  }

  /** The start of `o` as the source computes it: `offset + 2 * max - size`.
      With at most max entries it is at least offset + max, and exactly that
      once the buffer is full. */
  function AsWrittenStart(offset: nat, size: nat, max: nat): (r: int)
    ensures size <= max ==> offset + max <= r
    ensures size == max ==> r == offset + max
  {
    offset + 2 * max - size
  }

  /** The start of `o` used by the model's Show: the size term dropped. */
  function ShowStart(offset: nat, max: nat): int
  {
    offset + 2 * max
  }

  /** The slot i steps back from the newest one, offset - 1, wrapping from
      slot 0 to slot max - 1. */
  function Slot(offset: nat, max: nat, i: nat): int
  {
    if i < offset then offset - 1 - i else offset - 1 - i + max
  }

  /** The entries of the buffer in the order Show visits them. */
  function Shown<T>(vec: seq<T>, offset: nat, max: nat): (r: seq<T>)
    requires Valid(|vec|, offset, max)
    ensures |r| == |vec|
  {
    seq(|vec|, i requires 0 <= i < |vec| => vec[Slot(offset, max, i)])
  }

  /** The last min(|log|, max) entries of `log`, newest first. */
  function NewestFirst<T>(log: seq<T>, max: nat): (r: seq<T>)
    ensures |r| == Min(|log|, max)
  {
    seq(Min(|log|, max), i requires 0 <= i < Min(|log|, max) => log[|log| - 1 - i])
  }

  /** The buffer after recording every entry of `es`, in order, from the
      empty buffer with offset 0. */
  function Replay<T>(es: seq<T>, max: nat): (r: (seq<T>, nat))
    requires 0 < max
    ensures Valid(|r.0|, r.1, max)
    decreases |es|
  {
    if es == [] then ([], 0)
    else
      var (vec, offset) := Replay(es[..|es| - 1], max);
      Record(vec, offset, max, es[|es| - 1])
  }

  lemma ModShift(k: int, n: int)
    requires 0 < n && 0 <= k < n
    ensures (k + n) % n == k && (k + 2 * n) % n == k
  {
  }

  /** At capacity the offset is in 1..max, so `offset % max` only wraps max to 0. */
  lemma WrapOffset(offset: nat, max: nat)
    requires 1 <= offset <= max
    ensures offset % max == if offset == max then 0 else offset
  {
    if offset == max {
      ModShift(0, max);
    }
  }

  /** Show's i-th index is the slot i steps back from the newest one, and it
      lies inside the vector. */
  lemma ShowIndexBackwards(offset: nat, size: nat, max: nat, i: nat)
    requires Valid(size, offset, max) && i < size
    ensures VisitIndex(ShowStart(offset, max), max, i) == Slot(offset, max, i)
    ensures 0 <= Slot(offset, max, i) < size
  {
    if i < offset {
      ModShift(offset - 1 - i, max);
    } else {
      ModShift(offset - 1 - i + max, max);
    }
  }

  /** Below capacity, Record appends at the end and keeps the offset equal to
      the number of entries, at most max. */
  lemma RecordBelowCapacity<T>(vec: seq<T>, offset: nat, max: nat, e: T)
    requires Valid(|vec|, offset, max) && |vec| < max
    ensures var (vec', offset') := Record(vec, offset, max, e);
            vec' == vec + [e] && offset' == |vec'| <= max
  {
  }

  /** At capacity, Record overwrites exactly slot offset % max, which held the
      oldest entry (the last one Show visits), keeps the size at max, leaves
      the offset in 1..max and every other slot as it was. */
  lemma RecordAtCapacity<T>(vec: seq<T>, offset: nat, max: nat, e: T)
    requires Valid(|vec|, offset, max) && |vec| == max
    ensures var (vec', offset') := Record(vec, offset, max, e);
            && |vec'| == max && 1 <= offset' <= max
            && vec'[offset % max] == e
            && vec[offset % max] == Shown(vec, offset, max)[max - 1]
            && forall j :: 0 <= j < max && j != offset % max ==> vec'[j] == vec[j]
  {
    ShowIndexBackwards(offset, max, max, max - 1);
    WrapOffset(offset, max);
  }

  /** After Record(e), Show visits e first and then what it visited before,
      dropping the last (oldest) entry once the buffer is full. */
  lemma {:induction false} ShownAfterRecord<T>(vec: seq<T>, offset: nat, max: nat, e: T)
    requires Valid(|vec|, offset, max)
    ensures var (vec', offset') := Record(vec, offset, max, e);
            Valid(|vec'|, offset', max) &&
            Shown(vec', offset', max) == ([e] + Shown(vec, offset, max))[..Min(|vec| + 1, max)]
  {
    var (vec', offset') := Record(vec, offset, max, e);
    var before := Shown(vec, offset, max);
    var after := Shown(vec', offset', max);
    var expected := ([e] + before)[..Min(|vec| + 1, max)];
    if |vec| == max {
      WrapOffset(offset, max);
    }
    assert |after| == |expected|;
    forall i | 0 <= i < |after|
      ensures after[i] == expected[i]
    {
      ShowIndexBackwards(offset', |vec'|, max, i);
      if i > 0 {
        ShowIndexBackwards(offset, |vec|, max, i - 1);
      }
    }
  }

  /** Appending to the log shifts its newest-first window the same way. */
  lemma NewestFirstAfterAppend<T>(log: seq<T>, max: nat, e: T)
    ensures NewestFirst(log + [e], max) == ([e] + NewestFirst(log, max))[..Min(|log| + 1, max)]
  {
    var lhs := NewestFirst(log + [e], max);
    var rhs := ([e] + NewestFirst(log, max))[..Min(|log| + 1, max)];
    assert |lhs| == |rhs|;
    forall i | 0 <= i < |lhs|
      ensures lhs[i] == rhs[i]
    {
    }
  }

  /** After any sequence of records from the empty buffer, Show yields exactly
      the newest min(|es|, max) entries, newest first (the reverse of a
      chronological dump); the older ones have been overwritten. */
  lemma {:induction false} ReplayShowsNewestFirst<T>(es: seq<T>, max: nat)
    requires 0 < max
    ensures var (vec, offset) := Replay(es, max);
            Shown(vec, offset, max) == NewestFirst(es, max)
    decreases |es|
  {
    if es != [] {
      var prefix, e := es[..|es| - 1], es[|es| - 1];
      assert es == prefix + [e];
      var (vec, offset) := Replay(prefix, max);
      ReplayShowsNewestFirst(prefix, max);
      ShownAfterRecord(vec, offset, max, e);
      NewestFirstAfterAppend(prefix, max, e);
    }
  }

  /** With a full buffer Show starts at the newest slot, offset - 1, never
      reads a slot twice, and reads every slot k (at step Slot(offset, max, k):
      stepping back is its own inverse). */
  lemma ShowVisitsEachSlotOnce(offset: nat, max: nat)
    requires Valid(max, offset, max)
    ensures VisitIndex(ShowStart(offset, max), max, 0) == offset - 1
    ensures forall i, j :: 0 <= i < j < max ==>
              VisitIndex(ShowStart(offset, max), max, i) != VisitIndex(ShowStart(offset, max), max, j)
    ensures forall k :: 0 <= k < max ==>
              0 <= Slot(offset, max, k) < max &&
              VisitIndex(ShowStart(offset, max), max, Slot(offset, max, k)) == k
  {
    ShowIndexBackwards(offset, max, max, 0);
    forall i, j | 0 <= i < j < max
      ensures VisitIndex(ShowStart(offset, max), max, i) != VisitIndex(ShowStart(offset, max), max, j)
    {
      ShowIndexBackwards(offset, max, max, i);
      ShowIndexBackwards(offset, max, max, j);
    }
    forall k | 0 <= k < max
      ensures 0 <= Slot(offset, max, k) < max &&
              VisitIndex(ShowStart(offset, max), max, Slot(offset, max, k)) == k
    {
      ShowIndexBackwards(offset, max, max, k);
      ShowIndexBackwards(offset, max, max, Slot(offset, max, k));
    }
  }

  /** With a full buffer the source's start value reads the same slots as the
      model's, so the two walks agree wherever the source is in range. */
  lemma AsWrittenAgreesWhenFull(offset: nat, max: nat)
    requires Valid(max, offset, max)
    ensures forall i :: 0 <= i < max ==>
              VisitIndex(AsWrittenStart(offset, max, max), max, i) == VisitIndex(ShowStart(offset, max), max, i)
  {
    forall i | 0 <= i < max
      ensures VisitIndex(AsWrittenStart(offset, max, max), max, i) == VisitIndex(ShowStart(offset, max), max, i)
    {
      ShowIndexBackwards(offset, max, max, i);
      if i < offset {
        ModShift(offset - 1 - i, max);
      }
    }
  }

  /** A forward walk `vec[o++ % max]` from the source's unchanged start would
      read, at step i, the slot Show's backward walk reads at step size-1-i:
      always inside the vector, and the entries oldest first. */
  lemma ForwardWalkOldestFirst(offset: nat, size: nat, max: nat, i: nat)
    requires Valid(size, offset, max) && i < size
    ensures (AsWrittenStart(offset, size, max) + i) % max == Slot(offset, max, size - 1 - i)
    ensures 0 <= Slot(offset, max, size - 1 - i) < size
  {
    ShowIndexBackwards(offset, size, max, size - 1 - i);
    ModShift(Slot(offset, max, size - 1 - i), max);
  }

  /** The source's start value is at least max, so `--o` never wraps, but its
      indices all lie inside the vector exactly when the buffer is empty or
      full: for 0 < size < max the first index is max - 1, past the end. */
  lemma AsWrittenInRangeIff(offset: nat, size: nat, max: nat)
    requires Valid(size, offset, max)
    ensures max <= AsWrittenStart(offset, size, max)
    ensures 0 < size < max ==> VisitIndex(AsWrittenStart(offset, size, max), max, 0) == max - 1
    ensures (forall i :: 0 <= i < size ==> VisitIndex(AsWrittenStart(offset, size, max), max, i) < size)
            <==> (size == 0 || size == max)
  {
    if size == max {
      AsWrittenAgreesWhenFull(offset, max);
      forall i | 0 <= i < size
        ensures VisitIndex(AsWrittenStart(offset, size, max), max, i) < size
      {
        ShowIndexBackwards(offset, size, max, i);
      }
    } else if 0 < size {
      ModShift(max - 1, max);
      assert VisitIndex(AsWrittenStart(offset, size, max), max, 0) == max - 1;
    }
  }
}
