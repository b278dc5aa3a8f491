/** The queue that hands events from the worker thread to the UI thread (src/util/ThreadQueue.hpp). */
module Queues {
  import opened Options

  /** A queue as a value; `pushed` and `taken` record what has gone in and what has come out. */
  datatype Queue<T> = Queue(items: seq<T>, closed: bool, pushed: seq<T>, taken: seq<T>)

  /** One atomic step of any thread. */
  datatype Operation<T> = Push(value: T) | Take | Shut

  function Apply<T>(q: Queue<T>, op: Operation<T>): Queue<T> {
    match op
    case Push(x) => q.(items := q.items + [x], pushed := q.pushed + [x])
    case Take => if q.items == [] then q else q.(items := q.items[1..], taken := q.taken + [q.items[0]])
    case Shut => q.(closed := true)
  }

  class ThreadQueue<T> {
    var queue: seq<T>
    var closed: bool
    ghost var pushed: seq<T>
    ghost var taken: seq<T>

    ghost function State(): Queue<T>
      reads this
    {
      Queue(queue, closed, pushed, taken)
    }

    constructor ()
      ensures State() == Queue([], false, [], [])
    {
      queue, closed, pushed, taken := [], false, [], [];
    }

    method Push(value: T)
      modifies this
      ensures State() == Apply(old(State()), Operation.Push(value))
    {
      queue := queue + [value];
      pushed := pushed + [value];
    }

    /** Blocks until there is an item or the queue is closed: the precondition is what it waits for. */
    method Pop() returns (item: Option<T>)
      requires queue != [] || closed
      modifies this
      ensures State() == Apply(old(State()), Take)
      ensures item == if old(queue) == [] then None else Some(old(queue)[0])
      ensures item.None? ==> closed && queue == []
    {
      if queue == [] {
        return None;
      }
      item := Some(queue[0]);
      queue := queue[1..];
      taken := taken + [item.value];
    }

    method TryPop() returns (item: Option<T>)
      modifies this
      ensures State() == Apply(old(State()), Take)
      ensures item == if old(queue) == [] then None else Some(old(queue)[0])
    {
      if queue == [] {
        return None;
      }
      item := Some(queue[0]);
      queue := queue[1..];
      taken := taken + [item.value];
    }

    /** What is already queued can still be popped. */
    method Shutdown()
      modifies this
      ensures State() == Apply(old(State()), Shut)
    {
      closed := true;
    }
  }

  // ----- every interleaving of pushing and popping threads -----

  function ApplyAll<T>(q: Queue<T>, ops: seq<Operation<T>>): Queue<T> {
    if ops == [] then q else Apply(ApplyAll(q, ops[..|ops| - 1]), ops[|ops| - 1])
  }

  /**
    From the empty queue the constructor makes, whoever pushes and takes, and in whatever order: what came out and
    then what is left is what went in, in order; and what is left can still be taken once the queue is closed.
   */
  lemma {:induction false} FirstInFirstOut<T>(ops: seq<Operation<T>>)
    ensures var q := ApplyAll(Queue([], false, [], []), ops);
            q.pushed == q.taken + q.items && (q.closed <==> Shut in ops)
  {
    if ops != [] {
      FirstInFirstOut(ops[..|ops| - 1]);
      var q := ApplyAll(Queue([], false, [], []), ops[..|ops| - 1]);
      assert ops == ops[..|ops| - 1] + [ops[|ops| - 1]];
      match ops[|ops| - 1] {
        case Push(x) => assert q.taken + (q.items + [x]) == q.taken + q.items + [x];
        case Take =>
          assert q.items != [] ==> q.taken + [q.items[0]] + q.items[1..] == q.taken + q.items;
        case Shut =>
      }
    }
  }
}
