/** A sequential model of `DarknetWrapper::DetectionQueue`, the FIFO that
    carries work requests between producers and detector threads.

    The queue is an immutable sequence whose index 0 is the head. The
    mutex is dropped (every call here is one critical section), and the
    condition-variable wait that both pops perform on an empty queue is
    the explicit outcome `Waits`: with no other thread to push, a pop on
    an empty queue never returns.
 */
module DetectionQueue {

  /** Outcome of the single-item pop: blocked on the empty queue, or the
      value written to the out-parameter together with the queue left behind. */
  datatype PopOne<T> = Waits | Popped(elem: T, queue: seq<T>)

  /** Outcome of the batch pop: blocked on the empty queue, or the caller's
      vector after the appends together with the queue left behind. */
  datatype PopMany<T> = WaitsForBatch | Drained(elems: seq<T>, queue: seq<T>)

  /** `push_back`: the new element goes to the tail. */
  function PushBack<T>(q: seq<T>, elem: T): (r: seq<T>)
    ensures |r| == |q| + 1
    ensures r[..|q|] == q
    ensures r[|q|] == elem
  {
    q + [elem]
  }

  /** Single-item `pop_front` with the out-parameter receiving the head. */
  function PopFront<T>(q: seq<T>): (r: PopOne<T>)
    ensures r.Waits? <==> q == []
    ensures r.Popped? ==> [r.elem] + r.queue == q
  {
    if q == [] then Waits else Popped(q[0], q[1..])
  }

  /** Single-item `pop_front` as written: the assignment after the wait
      names a variable other than the out-parameter `elems`, so the caller's
      variable keeps the value it had while the head is still removed. */
  function PopFrontAsWritten<T>(q: seq<T>, elems: T): (r: PopOne<T>)
    ensures r.Waits? <==> q == []
    ensures r.Popped? ==> r.elem == elems && r.queue == q[1..]
  {
    if q == [] then Waits else Popped(elems, q[1..])
  }

  /** The number of items the batch pop removes: the loop runs while the
      queue is non-empty and fewer than `numElems` have been popped. */
  function BatchSize(numElems: int, available: nat): (k: nat)
    ensures k <= available
    ensures k <= numElems || k == 0
    ensures k == available || k == numElems || (numElems <= 0 && k == 0)
    ensures numElems >= 1 && available >= 1 ==> k >= 1
  {
    if numElems <= 0 then 0
    else if numElems < available then numElems
    else available
  }

  /** Batch `pop_front(elems, numElems)`: after the wait, the first
      `BatchSize(numElems, |q|)` items are appended to `elems` in order. */
  function PopFrontUpTo<T>(q: seq<T>, elems: seq<T>, numElems: int): (r: PopMany<T>)
    ensures r.WaitsForBatch? <==> q == []
    ensures r.Drained? ==> r.elems + r.queue == elems + q
    ensures r.Drained? ==> |r.elems| == |elems| + BatchSize(numElems, |q|)
  {
    if q == [] then WaitsForBatch
    else
      var k := BatchSize(numElems, |q|);
      Drained(elems + q[..k], q[k..])
  }

  /** The batch pop as the source writes it: one element at a time from the
      front while the queue is non-empty and the budget is not exhausted. */
  method PopFrontBatch<T>(q: seq<T>, elems: seq<T>, numElems: int) returns (r: PopMany<T>)
    ensures r.WaitsForBatch? <==> q == []
    ensures r.Drained? ==> |elems| <= |r.elems| && r.elems[..|elems|] == elems
    ensures r.Drained? ==> r.elems[|elems|..] + r.queue == q
    ensures r.Drained? && r.queue != [] ==>
      |r.elems| == |elems| + (if numElems < 0 then 0 else numElems)
    ensures r.Drained? && numElems >= 1 ==> |r.elems| > |elems|
    ensures r == PopFrontUpTo(q, elems, numElems)
  {
    if q == [] {
      return WaitsForBatch;
    }
    var queue := q;
    var out := elems;
    var numPopped := 0;
    while queue != [] && numPopped < numElems
      invariant 0 <= numPopped <= |q|
      invariant numElems <= 0 ==> numPopped == 0
      invariant numElems > 0 ==> numPopped <= numElems
      invariant queue == q[numPopped..]
      invariant out == elems + q[..numPopped]
      decreases |queue|
    {
      out := out + [queue[0]];
      queue := queue[1..];
      numPopped := numPopped + 1;
    }
    assert numPopped == BatchSize(numElems, |q|);
    r := Drained(out, queue);
  }

  /** Pushing a sequence of elements one after another, in order. */
  function PushAll<T>(q: seq<T>, xs: seq<T>): (r: seq<T>)
    decreases |xs|
  {
    if xs == [] then q else PushAll(PushBack(q, xs[0]), xs[1..])
  }

  /** Popping single items until the queue is empty, collecting them in
      the order the out-parameter received them. */
  function DrainOneByOne<T>(q: seq<T>): (r: seq<T>)
    decreases |q|
  {
    match PopFront(q)
    case Waits => []
    case Popped(e, rest) => [e] + DrainOneByOne(rest)
  }

  /** Popping batches of up to `numElems` items into one vector until the
      queue is empty. */
  function DrainInBatches<T>(q: seq<T>, elems: seq<T>, numElems: int): (r: seq<T>)
    requires numElems >= 1
    decreases |q|
  {
    match PopFrontUpTo(q, elems, numElems)
    case WaitsForBatch => elems
    case Drained(out, rest) => DrainInBatches(rest, out, numElems)
  }

  /** `push_back` appends: pushing several elements is concatenation. */
  lemma {:induction false} PushAllAppends<T>(q: seq<T>, xs: seq<T>)
    ensures PushAll(q, xs) == q + xs
    decreases |xs|
  {
    if xs != [] {
      PushAllAppends(PushBack(q, xs[0]), xs[1..]);
      assert PushBack(q, xs[0]) + xs[1..] == q + xs;
    }
  }

  /** A push at the tail does not disturb a pop at the head. */
  lemma PushThenPopCommute<T>(q: seq<T>, x: T)
    requires q != []
    ensures PopFront(PushBack(q, x)) == Popped(q[0], PushBack(q[1..], x))
  {
  }

  /** Single pops return the queue's contents from head to tail. */
  lemma {:induction false} DrainOneByOneIsFifo<T>(q: seq<T>)
    ensures DrainOneByOne(q) == q
    decreases |q|
  {
    if q != [] {
      DrainOneByOneIsFifo(q[1..]);
    }
  }

  /** Batch pops of any size append the queue's contents, head to tail,
      to the caller's vector. */
  lemma {:induction false} DrainInBatchesIsFifo<T>(q: seq<T>, elems: seq<T>, numElems: int)
    requires numElems >= 1
    ensures DrainInBatches(q, elems, numElems) == elems + q
    decreases |q|
  {
    match PopFrontUpTo(q, elems, numElems)
    case WaitsForBatch =>
    case Drained(out, rest) =>
      DrainInBatchesIsFifo(rest, out, numElems);
  }

  /** FIFO with single pops: pushing `xs` onto an empty queue and popping
      one at a time yields `xs` in order. */
  lemma FifoSinglePops<T>(xs: seq<T>)
    ensures DrainOneByOne(PushAll([], xs)) == xs
  {
    PushAllAppends([], xs);
    assert [] + xs == xs;
    DrainOneByOneIsFifo(xs);
  }

  /** FIFO with batch pops: pushing `xs` onto an empty queue and popping
      batches of any positive size yields `xs` in order. */
  lemma FifoBatchPops<T>(xs: seq<T>, numElems: int)
    requires numElems >= 1
    ensures DrainInBatches(PushAll([], xs), [], numElems) == xs
  {
    PushAllAppends([], xs);
    assert [] + xs == xs;
    DrainInBatchesIsFifo(xs, [], numElems);
  }

  /** A batch pop never waits for a full batch: with one item present and a
      budget of ten, exactly that item is popped. */
  lemma BatchDoesNotWaitForFullBatch<T>(x: T, elems: seq<T>)
    ensures PopFrontUpTo([x], elems, 10) == Drained(elems + [x], [])
  {
  }

  /** The as-written single pop loses the head whenever the caller's
      variable held a different value: the head is neither returned nor
      left in the queue. */
  lemma AsWrittenLosesHead<T>(q: seq<T>, elems: T)
    requires q != [] && elems != q[0]
    requires forall i :: 1 <= i < |q| ==> q[i] != q[0]
    ensures PopFrontAsWritten(q, elems).Popped?
    ensures q[0] !in [PopFrontAsWritten(q, elems).elem] + PopFrontAsWritten(q, elems).queue
    ensures PopFront(q).Popped? && PopFront(q).elem == q[0]
  {
  }
}
