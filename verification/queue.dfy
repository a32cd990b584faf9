/**
 * `Handles`, the mutex-protected deque of suspended Task handles. The shared
 * run queue and each trampoline's lost queue are instances of it. The three
 * source files carry the same class (cobroken.cpp adds `size()`); each locked
 * method is one step here.
 */
module Queue {
  import opened Runtime

  /** `Get` on the deque `q`: null on an empty deque, otherwise its back
      element and the deque without it. */
  function Pop(q: seq<Handle>): (r: (Option<Handle>, seq<Handle>))
    ensures r.0 == None <==> q == []
    ensures r.0 == None ==> r.1 == q
    ensures r.0.Some? ==> r.1 + [r.0.value] == q
  {
    if q == [] then (None, q) else (Some(q[|q| - 1]), q[..|q| - 1])
  }

  /** LIFO: a handle added and then taken straight back is the one returned,
      and the deque is as it was before. */
  lemma AddThenGet(q: seq<Handle>, h: Handle)
    ensures Pop(q + [h]) == (Some(h), q)
  {
  }

  class Handles {
    var queue: seq<Handle>

    constructor()
      ensures queue == []
    {
      queue := [];
    }

    method Add(h: Handle)
      modifies this
      ensures queue == old(queue) + [h]
    {
      queue := queue + [h];
    }

    method Size() returns (n: nat)
      ensures n == |queue|
    {
      n := |queue|;
    }

    method Get() returns (h: Option<Handle>)
      modifies this
      ensures (h, queue) == Pop(old(queue))
    {
      if queue == [] {
        return None;
      }
      h := Some(queue[|queue| - 1]);
      queue := queue[..|queue| - 1];
    }
  }
}
