/** A model of one iteration of the loop in `AsyncDetector::doDetection`,
    the worker that moves requests from the request queue, through the
    detector, onto the completion queue.

    The call `Detector::doDetection(elems)` hands the whole batch to a
    routine that takes one request; the model applies the per-request
    detection to each popped request in pop order.
 */
module AsyncDetector {
  import opened DetectionQueue
  import opened Detector

  /** The batch budget passed to `pop_front` on each iteration. */
  const BatchLimit: int := 10

  /** Outcome of one iteration: blocked in the pop on an empty request
      queue, or both queues and the worker's vector at the end of the body. */
  datatype Iteration =
    | Blocked
    | Completed(requests: seq<WorkRequest>, completions: seq<WorkRequest>, elems: seq<WorkRequest>)

  /** The body of the worker's `while (true)` loop, entered with the empty
      vector the previous iteration cleared. */
  method WorkerIteration(
    requests: seq<WorkRequest>,
    completions: seq<WorkRequest>,
    engine: FrameRef -> Boxes,
    classes: int)
    returns (r: Iteration)
    ensures r.Blocked? <==> requests == []
    ensures r.Completed? ==>
      var k := |requests| - |r.requests|;
      && 1 <= k <= BatchLimit
      && (k == BatchLimit || r.requests == [])
      && r.requests == requests[k..]
      && r.completions == completions + DetectEach(engine, classes, requests[..k])
    ensures r.Completed? ==> |r.requests| + |r.completions| == |requests| + |completions|
    ensures r.Completed? ==> r.elems == []
    ensures r.Completed? ==> r.completions[..|completions|] == completions
    ensures r.Completed? ==> forall i :: |completions| <= i < |r.completions| ==>
      r.completions[i].done && r.completions[i].tag == requests[i - |completions|].tag
    ensures r == Iterate(requests, completions, engine, classes)
  {
    var elems: seq<WorkRequest> := [];
    var popped := PopFrontBatch(requests, elems, BatchLimit);
    if popped.WaitsForBatch? {
      return Blocked;
    }
    var k := |popped.elems|;
    assert popped.elems == requests[..k] && popped.queue == requests[k..];
    elems := DetectEach(engine, classes, popped.elems);
    var queue := completions;
    var i := 0;
    while i < |elems|
      invariant 0 <= i <= |elems|
      invariant queue == completions + elems[..i]
    {
      queue := PushBack(queue, elems[i]);
      assert elems[..i + 1] == elems[..i] + [elems[i]];
      i := i + 1;
    }
    assert elems[..i] == elems;
    forall j | |completions| <= j < |queue|
      ensures queue[j].done && queue[j].tag == requests[j - |completions|].tag
    {
      DetectEachPointwise(engine, classes, popped.elems, j - |completions|);
    }
    elems := [];
    r := Completed(popped.queue, queue, elems);
  }

  /** The same iteration as a function of the two queues. */
  function Iterate(
    requests: seq<WorkRequest>,
    completions: seq<WorkRequest>,
    engine: FrameRef -> Boxes,
    classes: int)
    : (r: Iteration)
    ensures r.Blocked? <==> requests == []
    ensures r.Completed? ==> |r.requests| < |requests|
  {
    match PopFrontUpTo(requests, [], BatchLimit)
    case WaitsForBatch => Blocked
    case Drained(batch, rest) =>
      Completed(rest, completions + DetectEach(engine, classes, batch), [])
  }

  /** The worker looping until it would block: the completion queue it
      leaves behind. */
  function RunUntilIdle(
    requests: seq<WorkRequest>,
    completions: seq<WorkRequest>,
    engine: FrameRef -> Boxes,
    classes: int)
    : (r: seq<WorkRequest>)
    ensures |r| == |completions| + |requests|
    ensures |completions| <= |r| && r[..|completions|] == completions
    decreases |requests|
  {
    match Iterate(requests, completions, engine, classes)
    case Blocked => completions
    case Completed(rest, done, _) => RunUntilIdle(rest, done, engine, classes)
  }

  /** A non-blocking iteration moves the batch prefix of the request queue. */
  lemma IterateMovesPrefix(
    requests: seq<WorkRequest>,
    completions: seq<WorkRequest>,
    engine: FrameRef -> Boxes,
    classes: int)
    requires requests != []
    ensures var k := BatchSize(BatchLimit, |requests|);
      Iterate(requests, completions, engine, classes)
      == Completed(requests[k..], completions + DetectEach(engine, classes, requests[..k]), [])
  {
    var k := BatchSize(BatchLimit, |requests|);
    assert PopFrontUpTo(requests, [], BatchLimit) == Drained([] + requests[..k], requests[k..]);
    assert [] + requests[..k] == requests[..k];
  }

  /** One step of the drain loop. */
  lemma RunUntilIdleStep(
    requests: seq<WorkRequest>,
    completions: seq<WorkRequest>,
    engine: FrameRef -> Boxes,
    classes: int)
    requires requests != []
    ensures var k := BatchSize(BatchLimit, |requests|);
      RunUntilIdle(requests, completions, engine, classes)
      == RunUntilIdle(requests[k..], completions + DetectEach(engine, classes, requests[..k]), engine, classes)
  {
    IterateMovesPrefix(requests, completions, engine, classes);
  }

  /** End to end: once the worker has drained the request queue, every
      request has been detected exactly once and sits on the completion
      queue in submission order, after what was already there. */
  lemma {:induction false} RunUntilIdleDeliversAll(
    requests: seq<WorkRequest>,
    completions: seq<WorkRequest>,
    engine: FrameRef -> Boxes,
    classes: int)
    ensures RunUntilIdle(requests, completions, engine, classes)
         == completions + DetectEach(engine, classes, requests)
    decreases |requests|
  {
    if requests == [] {
      assert completions + [] == completions;
    } else {
      var k := BatchSize(BatchLimit, |requests|);
      var batch, rest := requests[..k], requests[k..];
      var done := completions + DetectEach(engine, classes, batch);
      RunUntilIdleStep(requests, completions, engine, classes);
      RunUntilIdleDeliversAll(rest, done, engine, classes);
      assert batch + rest == requests;
      DetectEachAppend(engine, classes, batch, rest);
      calc {
        done + DetectEach(engine, classes, rest);
        completions + (DetectEach(engine, classes, batch) + DetectEach(engine, classes, rest));
        completions + DetectEach(engine, classes, requests);
      }
    }
  }
}
