/**
 The sequential behaviour of `luxrays::ThreadSafeQueue<T>`: a FIFO over a
 `std::deque`. Locking and notification are left out; `Pop`'s wait for an
 item becomes the precondition that the queue is not empty.
 */
module ThreadSafe {
  import opened Wrappers

  /** The queue's contents, front first. */
  datatype Queue<T> = Queue(items: seq<T>)

  /** A freshly constructed queue. */
  function Empty<T>(): (q: Queue<T>)
    ensures GetSize(q) == 0
  {
    Queue([])
  }

  /** `GetSize`: how many items are waiting. */
  function GetSize<T>(q: Queue<T>): (n: nat)
    ensures n == 0 <==> q.items == []
  {
    |q.items|
  }

  /** `Clear`: drops every waiting item. */
  function Clear<T>(q: Queue<T>): (r: Queue<T>)
    ensures GetSize(r) == 0
    ensures r == Empty()
  {
    Queue([])
  }

  /** `Push`: the item joins at the back; the items already waiting keep their places. */
  function Push<T>(q: Queue<T>, item: T): (r: Queue<T>)
    ensures GetSize(r) == GetSize(q) + 1
    ensures r.items[..GetSize(q)] == q.items
    ensures r.items[GetSize(q)] == item
  {
    Queue(q.items + [item])
  }

  /** `Pop`: removes and returns the front item; only called once an item is waiting. */
  function Pop<T>(q: Queue<T>): (r: (T, Queue<T>))
    requires GetSize(q) >= 1
    ensures GetSize(r.1) == GetSize(q) - 1
    ensures [r.0] + r.1.items == q.items
  {
    (q.items[0], Queue(q.items[1..]))
  }

  /** Popping a queue that held only the pushed item returns it and leaves the queue as it was. */
  lemma PopPushEmpty<T>(q: Queue<T>, item: T)
    requires GetSize(q) == 0
    ensures Pop(Push(q, item)) == (item, q)
  {
  }

  /** On a non-empty queue, pushing and popping commute: the pushed item waits behind the front. */
  lemma PopPushNonEmpty<T>(q: Queue<T>, item: T)
    requires GetSize(q) >= 1
    ensures Pop(Push(q, item)).0 == Pop(q).0
    ensures Pop(Push(q, item)).1 == Push(Pop(q).1, item)
  {
  }

  /** Pushes every item of `xs`, in order. */
  function PushAll<T>(q: Queue<T>, xs: seq<T>): (r: Queue<T>)
    ensures GetSize(r) == GetSize(q) + |xs|
    decreases |xs|
  {
    if |xs| == 0 then q else PushAll(Push(q, xs[0]), xs[1..])
  }

  /** Pops `n` times, returning the popped items in the order they came out. */
  function PopN<T>(q: Queue<T>, n: nat): (r: (seq<T>, Queue<T>))
    requires n <= GetSize(q)
    ensures |r.0| == n
    ensures GetSize(r.1) == GetSize(q) - n
    decreases n
  {
    if n == 0 then ([], q)
    else
      var (x, q') := Pop(q);
      var (xs, q'') := PopN(q', n - 1);
      ([x] + xs, q'')
  }

  /** Pushing a batch leaves the earlier items in front of it, in push order. */
  lemma {:induction false} PushAllAppends<T>(q: Queue<T>, xs: seq<T>)
    ensures PushAll(q, xs).items == q.items + xs
    decreases |xs|
  {
    if |xs| > 0 {
      PushAllAppends(Push(q, xs[0]), xs[1..]);
      assert q.items + [xs[0]] + xs[1..] == q.items + xs;
    }
  }

  /** Popping `n` times yields the first `n` waiting items and leaves the rest. */
  lemma {:induction false} PopNTakesPrefix<T>(q: Queue<T>, n: nat)
    requires n <= GetSize(q)
    ensures PopN(q, n).0 == q.items[..n]
    ensures PopN(q, n).1.items == q.items[n..]
    decreases n
  {
    if n > 0 {
      var q' := Pop(q).1;
      PopNTakesPrefix(q', n - 1);
      assert q'.items == q.items[1..];
      assert [q.items[0]] + q.items[1..][..n - 1] == q.items[..n];
      assert q.items[1..][n - 1..] == q.items[n..];
    }
  }

  /** FIFO: pushing `xs` onto an empty queue and popping `|xs|` times yields `xs`, and empties it. */
  lemma Fifo<T>(xs: seq<T>)
    ensures GetSize(PushAll(Empty<T>(), xs)) == |xs|
    ensures PopN(PushAll(Empty<T>(), xs), |xs|).0 == xs
    ensures GetSize(PopN(PushAll(Empty<T>(), xs), |xs|).1) == 0
  {
    PushAllAppends(Empty<T>(), xs);
    PopNTakesPrefix(PushAll(Empty<T>(), xs), |xs|);
  }

  /** One call on the queue, as a client thread issues it. */
  datatype Op<T> = PushOp(item: T) | PopOp | ClearOp | GetSizeOp

  /** What a call returns to its caller. */
  datatype Reply<T> = Pushed | Popped(item: T) | Cleared | Size(n: nat)

  /**
   One call. `None` means a `Pop` found the queue empty: with no other thread
   to push, that call would wait forever.
   */
  function Step<T>(q: Queue<T>, op: Op<T>): Option<(Reply<T>, Queue<T>)>
  {
    match op
    case PushOp(x) => Some((Pushed, Push(q, x)))
    case PopOp => if GetSize(q) >= 1 then Some((Popped(Pop(q).0), Pop(q).1)) else None
    case ClearOp => Some((Cleared, Clear(q)))
    case GetSizeOp => Some((Size(GetSize(q)), q))
  }

  /** Runs calls one after another; `None` if some `Pop` would wait forever. */
  function Run<T>(q: Queue<T>, ops: seq<Op<T>>): Option<(seq<Reply<T>>, Queue<T>)>
    decreases |ops|
  {
    if |ops| == 0 then Some(([], q))
    else
      var step := Step(q, ops[0]);
      if step.None? then None
      else
        var after := Run(step.value.1, ops[1..]);
        if after.None? then None
        else Some(([step.value.0] + after.value.0, after.value.1))
  }

  /** The item a call pushes, if any. */
  function PushedBy<T>(op: Op<T>): seq<T>
  {
    if op.PushOp? then [op.item] else []
  }

  /** The item a reply hands out, if any. */
  function PoppedBy<T>(reply: Reply<T>): seq<T>
  {
    if reply.Popped? then [reply.item] else []
  }

  /** The items pushed by a sequence of calls, in call order. */
  function PushedItems<T>(ops: seq<Op<T>>): seq<T>
  {
    if |ops| == 0 then [] else PushedBy(ops[0]) + PushedItems(ops[1..])
  }

  /** The items handed out by pops, in reply order. */
  function PoppedItems<T>(replies: seq<Reply<T>>): seq<T>
  {
    if |replies| == 0 then [] else PoppedBy(replies[0]) + PoppedItems(replies[1..])
  }

  /** A call other than `Clear` loses, duplicates and reorders nothing; `GetSize` reports the count. */
  lemma StepConservesItems<T>(q: Queue<T>, op: Op<T>)
    requires !op.ClearOp? && Step(q, op).Some?
    ensures PoppedBy(Step(q, op).value.0) + Step(q, op).value.1.items == q.items + PushedBy(op)
    ensures op.GetSizeOp? ==> Step(q, op).value.0 == Size(|q.items|)
  {
  }

  /** Sequence bookkeeping for one step of the induction below. */
  lemma Regroup<T>(a: seq<T>, b: seq<T>, c: seq<T>, mid: seq<T>, start: seq<T>, d: seq<T>, e: seq<T>)
    requires b + c == mid + e
    requires a + mid == start + d
    ensures (a + b) + c == start + (d + e)
  {
    calc {
      (a + b) + c;
      a + (mid + e);
      (start + d) + e;
    }
  }

  /**
   Without `Clear`, no item is lost, duplicated or reordered: what was waiting
   followed by what was pushed equals what was popped followed by what is left.
   */
  lemma {:induction false} RunConservesItems<T>(q: Queue<T>, ops: seq<Op<T>>)
    requires ClearOp !in ops
    requires Run(q, ops).Some?
    ensures PoppedItems(Run(q, ops).value.0) + Run(q, ops).value.1.items
            == q.items + PushedItems(ops)
    decreases |ops|
  {
    if |ops| > 0 {
      var op, rest := ops[0], ops[1..];
      assert ops == [op] + rest;
      var st := Step(q, op);
      assert st.Some?;
      var reply, q' := st.value.0, st.value.1;
      StepConservesItems(q, op);
      var run' := Run(q', rest);
      assert run'.Some?;
      RunConservesItems(q', rest);
      var replies, q'' := run'.value.0, run'.value.1;
      assert Run(q, ops).value.0 == [reply] + replies;
      assert Run(q, ops).value.1 == q'';
      assert ([reply] + replies)[1..] == replies;
      assert PoppedItems([reply] + replies) == PoppedBy(reply) + PoppedItems(replies);
      assert PushedItems(ops) == PushedBy(op) + PushedItems(rest);
      Regroup(PoppedBy(reply), PoppedItems(replies), q''.items, q'.items, q.items, PushedBy(op), PushedItems(rest));
    }
  }
}
