# Darknet detection server: work queue and worker loop

This project models, in Dafny, the sequential behaviour of the work-queue
logic of the darknet detection server's `server/darknet_wrapper.h`:

- `DetectionQueue` (module `DetectionQueue`): the FIFO of `WorkRequest`s with
  `push_back`, the single-item `pop_front` and the batch
  `pop_front(elems, numElems)`. A queue is an immutable `seq` whose index 0
  is the head. The condition-variable wait is the outcome `Waits` /
  `WaitsForBatch`. A pop on an empty queue blocks, and in a sequential model
  nothing else can push, so it never returns. The mutex is dropped: each
  call is one critical section.
- `Detector` (module `Detector`): the `WorkRequest` record, what
  `Detector::doDetection` writes into one request, and
  `Detector::size_network`. That method counts the outputs of the YOLO,
  REGION and DETECTION layers.
- `AsyncDetector` (module `AsyncDetector`): one iteration of the worker loop
  in `AsyncDetector::doDetection`. The worker pops up to ten requests,
  detects each one, and pushes them onto the completion queue in pop order.
  `RunUntilIdle` repeats that iteration until the request queue is empty.
- `tvsub` (module `Timing`): `timeval` subtraction with one borrow.

The darknet inference is a parameter `engine` mapping a frame to the boxes
it yields. The class count of the network's last layer is a parameter
`classes`. Frames, detection arrays and tags are opaque `nat` handles. Tags
are compared and never dereferenced.

The worker calls `Detector::doDetection(elems)` with the whole batch
(server/darknet_wrapper.h:257), but that routine takes a single
`WorkRequest&`. As written, the call does not type-check. The model applies
the per-request detection to each popped request in pop order
(`Detector.DetectEach`).

## Model

| member | source | states |
|---|---|---|
| DetectionQueue.PushBack | server/darknet_wrapper.h:65-69 | the queue grows by exactly one, every earlier element keeps its position and value, and the new element is at the tail |
| DetectionQueue.PopFront | server/darknet_wrapper.h:72-82 | the call waits exactly when the queue is empty; otherwise the element returned followed by the remaining queue is the old queue, so the head is returned and the tail remains |
| DetectionQueue.PopFrontAsWritten | server/darknet_wrapper.h:78-81 | as written, the caller's out-parameter keeps its previous value while the head is still popped, leaving exactly the old tail in the queue |
| DetectionQueue.AsWrittenLosesHead | server/darknet_wrapper.h:79 | when the head occurs once in the queue and the caller's variable holds a different value, the as-written pop makes the head vanish: it is neither returned nor left in the queue. The corrected pop returns it |
| DetectionQueue.BatchSize | server/darknet_wrapper.h:91-96 | the number of items popped is at most the queue length and at most `numElems`; it is zero for a non-positive budget; it reaches the budget unless the queue runs out; and it is at least one when the budget is positive and the queue is non-empty |
| DetectionQueue.PopFrontUpTo | server/darknet_wrapper.h:85-97 | the call waits exactly on the empty queue; otherwise nothing is lost or reordered (new `elems` followed by the new queue equals old `elems` followed by the old queue), and exactly `BatchSize` items move |
| DetectionQueue.PopFrontBatch | server/darknet_wrapper.h:85-97 | the pop loop appends to `elems` and never clears it; the appended items followed by the remaining queue are the old queue; it pops the full budget whenever items remain; with a positive budget it pops at least one item; and it agrees with `PopFrontUpTo` |
| DetectionQueue.PushAllAppends | server/darknet_wrapper.h:65-69 | pushing `xs` one by one onto `q` gives `q + xs` |
| DetectionQueue.PushThenPopCommute | server/darknet_wrapper.h:65-82 | on a non-empty queue, pushing then popping returns the old head and leaves the old tail with the new element appended |
| DetectionQueue.DrainOneByOneIsFifo | server/darknet_wrapper.h:72-82 | repeated single pops return the queue's elements from head to tail |
| DetectionQueue.DrainInBatchesIsFifo | server/darknet_wrapper.h:85-97 | repeated batch pops with any positive budget append the queue's elements, head to tail, to the caller's vector |
| DetectionQueue.FifoSinglePops | server/darknet_wrapper.h:65-82 | pushing `x1..xn` onto an empty queue and then popping single items yields `x1..xn` in order |
| DetectionQueue.FifoBatchPops | server/darknet_wrapper.h:65-97 | pushing `x1..xn` onto an empty queue and then popping batches of any positive size yields `x1..xn` in order |
| DetectionQueue.BatchDoesNotWaitForFullBatch | server/darknet_wrapper.h:87-96 | with one item queued and a budget of ten, the batch pop returns that one item at once and leaves the queue empty |
| Detector.Detect | server/darknet_wrapper.h:183-195 | detection marks the request done and stores the engine's boxes and count and the network's class count; the frame pointer and the tag stay as they were (the frame's pixels are not modelled) |
| Detector.DetectEach | server/darknet_wrapper.h:257 | detecting a batch yields exactly one result per request |
| Detector.DetectEachPointwise | server/darknet_wrapper.h:257 | position `i` of a detected batch is the detection of request `i`, so order is kept and no request affects another |
| Detector.OutputLayers | server/darknet_wrapper.h:214 | the selected layers are all YOLO, REGION or DETECTION; every such layer of the network is selected; nothing else is; each YOLO, REGION or DETECTION layer is selected exactly as often as it occurs in the network |
| Detector.OutputLayersAppend | server/darknet_wrapper.h:212-216 | selecting the output layers of two layer lists placed end to end gives the selection of the first followed by that of the second, so the selection keeps network order |
| Detector.OutputSumAppend | server/darknet_wrapper.h:212-217 | the output count of two layer lists placed end to end is the sum of their counts |
| Detector.SizeNetwork | server/darknet_wrapper.h:209-219 | the loop returns the sum of `outputs` over the YOLO, REGION and DETECTION layers; zero layers give 0; the result is non-negative when every `outputs` is |
| Detector.OutputSumCountsOnlyOutputLayers | server/darknet_wrapper.h:214-216 | the count equals the plain sum of `outputs` over the YOLO, REGION and DETECTION layers alone |
| Detector.OtherLayersContributeNothing | server/darknet_wrapper.h:214-216 | inserting a layer of any other type anywhere leaves the count unchanged |
| Detector.OutputSumBounds | server/darknet_wrapper.h:211-218 | with non-negative `outputs`, the count is between 0 and the sum of `outputs` over all layers |
| Timing.TvSub | server/darknet_wrapper.h:24-34 | the result denotes the difference in total microseconds; the borrow happens exactly when `x.usec < y.usec`; normalised inputs give a normalised result |
| Timing.NormalizedUnique | server/darknet_wrapper.h:24-34 | two normalised `timeval`s that denote the same number of microseconds are equal |
| Timing.TvSubIsCanonical | server/darknet_wrapper.h:24-34 | on normalised inputs, `tvsub` gives the floor quotient and remainder of the microsecond difference by 1000000 |
| AsyncDetector.WorkerIteration | server/darknet_wrapper.h:251-263 | an iteration blocks exactly when the request queue is empty. Otherwise it moves the first k requests, with 1 <= k <= 10 and k = 10 unless the queue ran out. They are detected and appended, in pop order, to the completion queue's tail, whose earlier contents are unchanged. The two queues' total length is conserved, every moved request is done and keeps its tag, and `elems` is empty afterwards |
| AsyncDetector.Iterate | server/darknet_wrapper.h:252-261 | an iteration blocks exactly on an empty request queue; otherwise the request queue strictly shrinks |
| AsyncDetector.IterateMovesPrefix | server/darknet_wrapper.h:256-260 | a non-blocking iteration removes the batch prefix from the request queue and appends its detections to the completion queue |
| AsyncDetector.RunUntilIdle | server/darknet_wrapper.h:254-262 | running the loop until the request queue is empty grows the completion queue by the number of requests and leaves the earlier completions in place at the head |
| AsyncDetector.RunUntilIdleStep | server/darknet_wrapper.h:254-262 | running the loop to idleness is one iteration followed by running it to idleness from the new queues |
| Detector.DetectEachAppend | server/darknet_wrapper.h:257-260 | detecting two batches one after the other equals detecting them as one batch |
| AsyncDetector.RunUntilIdleDeliversAll | server/darknet_wrapper.h:254-262 | after the worker drains the request queue, the completion queue is its old contents followed by the detection of every request, each exactly once and in submission order |

## Left out

- Mutex and condition-variable synchronisation (server/darknet_wrapper.h:66-75, 86-88) is concurrency. The wait is the explicit `Waits` outcome. No other thread can push while a sequential caller waits, so the wait never returns here.
- The body of `Detector::doDetection` (server/darknet_wrapper.h:136-190) calls into darknet: `set_batch_network`, `letterbox_image`, `network_predict`, `get_network_boxes` and `do_nms_obj`. It also uses float thresholds and console output. Only its effect on the request (lines 183, 194, 195) is modelled, with the inference as the `engine` parameter.
- `Detector::Init` and `Detector::Shutdown` (server/darknet_wrapper.h:109-133) load and free the darknet network and allocate float buffers. These are foreign calls and memory management.
- `AsyncDetector::Init` and `AsyncDetector::Shutdown` (server/darknet_wrapper.h:237-249) store or clear the queue pointers and call `Detector::Init` (line 241) and `Detector::Shutdown` (line 248). In the model the queues are passed to each iteration, and the darknet set-up and tear-down are foreign calls.
- `elem.reserver(10)` (server/darknet_wrapper.h:253) names an undeclared variable and a misspelt method. It is read as `elems.reserve(10)`, a capacity hint that does not change the vector's contents, so the model has nothing for it.
- `convertFrameToImage` (server/darknet_wrapper.h:201-206) points the darknet image's data at the frame's own buffer and copies nothing; that assignment overwrites the pointer to the buffer allocated at line 148. Pixels and buffers are not modelled.
- Detector.Detect: `rgbgr_image` (server/darknet_wrapper.h:156) swaps the colour channels of the image in place, and after line 205 the image's data is the frame's own buffer, reached through a `const_cast`. Detection therefore rewrites the pixels of the caller's `KeyFrame`. The model keeps only the frame pointer and treats `engine` as a pure function of it, so the change to the frame's pixels, and what a second detection of the same frame would see, are not modelled.
- `probe_time_start2` and `probe_time_end2` (server/darknet_wrapper.h:36-47) read the clock with `gettimeofday` and return a float. Only `tvsub` is modelled.
- The endless `while (true)` of the worker (server/darknet_wrapper.h:254) is modelled as one iteration. `RunUntilIdle` repeats it until the request queue is empty.
- server/darknetserver_async_client.cpp is gRPC transport, OpenCV capture and printing. It is not part of this model.
- live-streaming/utils/Types.h declares a different struct, `LiveStreamDetector::WorkRequest`, with `image img`, `int deviceNum` and `Frame *tag`. It is not modelled. The Dafny `Detector.WorkRequest` follows `DarknetWrapper::WorkRequest` at server/darknet_wrapper.h:51-59 field for field.
- src/im2col.h declares float kernels without bodies. It is not part of this model.
- Timing.TvSub: `tv_sec` and `tv_usec` are unbounded integers. The source's `time_t` subtraction could overflow at the extremes of its range, and that case is not modelled.
- Detector.SizeNetwork: `count` is an unbounded integer. The source's `int count` would overflow on a sum beyond 32 bits, which is undefined behaviour in C++, and that case is not modelled.

## Findings

| source | as written | input that shows it | evidently intended | confidence | as-written member | corrected member |
|---|---|---|---|---|---|---|
| server/darknet_wrapper.h:79 | the single-item pop assigns the head to `elem`, a name not declared in `pop_front`, instead of the out-parameter `elems` | queue `[a]` with the caller's variable holding `b != a`: the queue becomes empty and the caller still holds `b`, so `a` is lost | the out-parameter receives the front element | not executed; as written the header does not compile | DetectionQueue.PopFrontAsWritten, DetectionQueue.AsWrittenLosesHead | DetectionQueue.PopFront, DetectionQueue.DrainOneByOneIsFifo |
| server/darknet_wrapper.h:257 | `Detector::doDetection(elems)` passes the `std::vector<WorkRequest>` to a routine declared to take one `WorkRequest&`; this does not type-check, so there is no behaviour to model | any batch popped at line 256 | each popped request is detected on its own, in pop order, before the batch is pushed to the completion queue | not executed; as written the header does not compile | none: the call does not type-check | Detector.DetectEach, AsyncDetector.RunUntilIdleDeliversAll |
