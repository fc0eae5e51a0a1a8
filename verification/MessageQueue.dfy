/** The sidecar's async message queue: a FIFO with at most one parked consumer. */
module MessageQueue {
  import opened Sequences

  /** What the promise of one `next()` call has come to. */
  datatype Reply<+T> = Pending | Item(value: T) | End

  /** `replies` has one entry for each `next()` so far, in call order; `waiting` is the call to answer next, if any. */
  datatype Queue<T> = Queue(queue: seq<T>, waiting: Option<nat>, closed: bool, replies: seq<Reply<T>>) {

    function Answer(reply: Reply<T>): Queue<T> {
      if waiting.Some? && waiting.value < |replies|
        then this.(waiting := None, replies := replies[waiting.value := reply])
      else this
    }

    function Push(item: T): Queue<T> {
      if closed then this else if waiting.Some? then Answer(Item(item)) else this.(queue := queue + [item])
    }

    function Close(): Queue<T> { this.(closed := true).Answer(End) }

    function Next(): Queue<T> {
      if |queue| > 0 then this.(queue := queue[1..], replies := replies + [Item(queue[0])])
      else if closed then this.(replies := replies + [End])
      else this.(waiting := Some(|replies|), replies := replies + [Pending])
    }

    /** A parked consumer means an empty open queue, and is the latest one to have called. */
    ghost predicate Valid() {
      && (waiting.Some? ==>
          queue == [] && !closed && waiting.value == |replies| - 1 && replies[waiting.value] == Pending)
      && (forall i | 0 <= i < |replies| && replies[i] == End :: closed && queue == [])
      && (forall i, j | 0 <= i < j < |replies| && replies[i] == End :: replies[j] == End)
    }
  }

  function Empty<T>(): Queue<T> { Queue([], None, false, []) }

  datatype Op<T> = PushOp(item: T) | CloseOp | NextOp

  function Perform<T>(q: Queue<T>, op: Op<T>): Queue<T> {
    match op
    case PushOp(item) => q.Push(item)
    case CloseOp => q.Close()
    case NextOp => q.Next()
  }

  function Run<T>(ops: seq<Op<T>>): Queue<T> {
    if ops == [] then Empty() else Perform(Run(ops[..|ops| - 1]), ops[|ops| - 1])
  }

  /** The items pushed before the first close. */
  ghost function Accepted<T>(ops: seq<Op<T>>): seq<T> {
    if ops == [] then []
    else
      var before := Accepted(ops[..|ops| - 1]);
      match ops[|ops| - 1]
      case PushOp(item) => if CloseOp in ops then before else before + [item]
      case _ => before
  }

  ghost function Delivered<T>(replies: seq<Reply<T>>): seq<T> {
    if replies == [] then []
    else Delivered(replies[..|replies| - 1])
         + match replies[|replies| - 1] { case Item(value) => [value] case _ => [] }
  }

  /** Some `next()` is called while an earlier one is still parked. */
  ghost predicate Overlaps<T>(ops: seq<Op<T>>) {
    exists k :: 0 <= k < |ops| && ops[k].NextOp? && Run(ops[..k]).waiting.Some?
  }

  /** A call that no later push or close will answer. */
  ghost predicate Abandoned<T>(q: Queue<T>, i: nat) {
    i < |q.replies| && q.replies[i] == Pending && q.waiting != Some(i)
  }

  lemma DeliveredAppend<T>(replies: seq<Reply<T>>, reply: Reply<T>)
    ensures Delivered(replies + [reply])
      == Delivered(replies) + match reply { case Item(value) => [value] case _ => [] }
  {
    assert (replies + [reply])[..|replies|] == replies;
  }

  /** Answering the latest call adds its item at the end. */
  lemma DeliveredAnswer<T>(replies: seq<Reply<T>>, reply: Reply<T>)
    requires replies != [] && replies[|replies| - 1] == Pending
    ensures Delivered(replies[|replies| - 1 := reply])
      == Delivered(replies) + match reply { case Item(value) => [value] case _ => [] }
  {
    var n := |replies| - 1;
    assert replies[n := reply] == replies[..n] + [reply] && replies == replies[..n] + [Pending];
    DeliveredAppend(replies[..n], reply);
    DeliveredAppend(replies[..n], Pending);
  }

  lemma EmptyIsValid<T>()
    ensures Empty<T>().Valid()
  {
  }

  lemma PerformKeepsValid<T>(q: Queue<T>, op: Op<T>)
    requires q.Valid()
    ensures Perform(q, op).Valid()
  {
  }

  lemma PerformConserves<T>(q: Queue<T>, op: Op<T>)
    requires q.Valid()
    ensures Delivered(Perform(q, op).replies) + Perform(q, op).queue
         == Delivered(q.replies) + q.queue + (if op.PushOp? && !q.closed then [op.item] else [])
  {
    hide Delivered;
    match op
    case PushOp(item) => if !q.closed && q.waiting.Some? { DeliveredAnswer(q.replies, Item(item)); }
    case CloseOp => if q.waiting.Some? { DeliveredAnswer(q.replies, End); }
    case NextOp =>
      if |q.queue| > 0 {
        DeliveredAppend(q.replies, Item(q.queue[0]));
        assert q.queue == [q.queue[0]] + q.queue[1..];
      } else {
        DeliveredAppend(q.replies, if q.closed then End else Pending);
      }
  }

  lemma {:induction false} RunIsValid<T>(ops: seq<Op<T>>)
    ensures Run(ops).Valid() && (Run(ops).closed <==> CloseOp in ops)
  {
    if ops != [] {
      var front, last := ops[..|ops| - 1], ops[|ops| - 1];
      RunIsValid(front);
      PerformKeepsValid(Run(front), last);
      assert ops == front + [last];
    }
  }

  /** Whatever is called in whatever order: deliveries followed by the queue are the accepted pushes, in order. */
  lemma {:induction false} QueueConserves<T>(ops: seq<Op<T>>)
    ensures Delivered(Run(ops).replies) + Run(ops).queue == Accepted(ops)
  {
    if ops != [] {
      var front, last := ops[..|ops| - 1], ops[|ops| - 1];
      QueueConserves(front);
      RunIsValid(front);
      PerformConserves(Run(front), last);
      assert ops == front + [last];
    }
  }

  /** Once a consumer has been told that the queue is done, every later call is told the same. */
  lemma DoneIsFinal<T>(ops: seq<Op<T>>, i: nat, j: nat)
    requires i < j < |Run(ops).replies| && Run(ops).replies[i] == End
    ensures Run(ops).replies[j] == End
  {
    RunIsValid(ops);
  }

  ghost predicate HasAbandoned<T>(q: Queue<T>) { exists i :: Abandoned(q, i) }

  lemma PerformAbandons<T>(q: Queue<T>, op: Op<T>)
    requires q.Valid()
    ensures HasAbandoned(Perform(q, op)) <==> HasAbandoned(q) || (op.NextOp? && q.waiting.Some?)
  {
    if i :| Abandoned(q, i) { assert Abandoned(Perform(q, op), i); }
    if op.NextOp? && q.waiting.Some? { assert Abandoned(Perform(q, op), q.waiting.value); }
    if i :| Abandoned(Perform(q, op), i) { assert Abandoned(q, i) || (op.NextOp? && q.waiting.Some?); }
  }

  lemma OverlapsByLast<T>(ops: seq<Op<T>>, front: seq<Op<T>>, last: Op<T>)
    requires ops == front + [last]
    ensures Overlaps(ops) <==> Overlaps(front) || (last.NextOp? && Run(front).waiting.Some?)
  {
    forall k | 0 <= k < |front| ensures ops[..k] == front[..k] && ops[k] == front[k] { }
    assert ops[..|front|] == front && ops[|front|] == last;
    hide Run;
    if k :| 0 <= k < |front| && front[k].NextOp? && Run(front[..k]).waiting.Some? {
      assert ops[k].NextOp? && Run(ops[..k]).waiting.Some?;
    }
    if last.NextOp? && Run(front).waiting.Some? {
      assert ops[|front|].NextOp? && Run(ops[..|front|]).waiting.Some?;
    }
  }

  lemma {:induction false} AbandonedIffOverlaps<T>(ops: seq<Op<T>>)
    ensures HasAbandoned(Run(ops)) <==> Overlaps(ops)
  {
    hide Overlaps, HasAbandoned, Perform;
    if ops == [] {
      NothingAbandonedAtFirst<T>();
    } else {
      var front, last := ops[..|ops| - 1], ops[|ops| - 1];
      assert ops == front + [last];
      AbandonedIffOverlaps(front);
      RunIsValid(front);
      PerformAbandons(Run(front), last);
      OverlapsByLast(ops, front, last);
    }
  }

  lemma NothingAbandonedAtFirst<T>()
    ensures !HasAbandoned(Empty<T>()) && !Overlaps<T>([])
  {
  }

  /** After a close every `next()` has been answered exactly when no two of them ever overlapped. */
  lemma CloseAnswersAllIff<T>(ops: seq<Op<T>>)
    requires CloseOp in ops
    ensures (forall i | 0 <= i < |Run(ops).replies| :: Run(ops).replies[i] != Pending) <==> !Overlaps(ops)
  {
    RunIsValid(ops);
    AbandonedIffOverlaps(ops);
    forall i | 0 <= i < |Run(ops).replies| ensures Run(ops).replies[i] == Pending <==> Abandoned(Run(ops), i) { }
  }

  class AsyncMessageQueue<T> {
    var queue: seq<T>
    var waiting: Option<nat>        // the parked promise, by its number in `replies`
    var closed: bool
    var replies: seq<Reply<T>>      // the promises handed out

    constructor ()
      ensures View() == Empty()
    {
      queue, waiting, closed, replies := [], None, false, [];
    }

    function View(): Queue<T> reads this { Queue(queue, waiting, closed, replies) }

    method Push(item: T)
      requires View().Valid()
      modifies this
      ensures View() == old(View()).Push(item) && View().Valid()
    {
      PerformKeepsValid(View(), PushOp(item));
      if closed { return; }
      if waiting.Some? {
        replies := replies[waiting.value := Item(item)];
        waiting := None;
      } else {
        queue := queue + [item];
      }
    }

    method Close()
      requires View().Valid()
      modifies this
      ensures View() == old(View()).Close() && View().Valid()
    {
      PerformKeepsValid(View(), CloseOp);
      closed := true;
      if waiting.Some? {
        replies := replies[waiting.value := End];
        waiting := None;
      }
    }

    /** Returns the number of the promise in `replies`. */
    method Next() returns (promise: nat)
      requires View().Valid()
      modifies this
      ensures View() == old(View()).Next() && View().Valid() && promise == |old(replies)|
    {
      PerformKeepsValid(View(), NextOp);
      promise := |replies|;
      if |queue| > 0 {
        replies := replies + [Item(queue[0])];
        queue := queue[1..];
      } else if closed {
        replies := replies + [End];
      } else {
        waiting := Some(promise);
        replies := replies + [Pending];
      }
    }
  }
}
