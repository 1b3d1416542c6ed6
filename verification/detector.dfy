/** A model of the parts of `DarknetWrapper::Detector` that are plain
    logic: the `WorkRequest` record, the per-item effect of a detection on
    it, and `size_network`, the count of the network's output values.

    The darknet network itself is not modelled: the inference is a
    parameter (`engine`) from a frame to the boxes it yields, and the
    network's layers are given as a sequence of (type, outputs) pairs.
 */
module Detector {

  /** The caller-owned correlation tag; only compared, never dereferenced. */
  type Tag = nat

  /** The `const KeyFrame*` a request carries; the frame's pixels are not modelled. */
  type FrameRef = nat

  /** The `detection*` array darknet allocates for a request's boxes. */
  type DetectionsRef = nat

  /** `DarknetWrapper::WorkRequest`: the unit of work moved between queues. */
  datatype WorkRequest = WorkRequest(
    done: bool,
    frame: FrameRef,
    dets: DetectionsRef,
    nboxes: int,
    classes: int,
    tag: Tag)

  /** What the inference engine returns for one frame: the boxes array
      and how many boxes it holds. */
  datatype Boxes = Boxes(dets: DetectionsRef, nboxes: int)

  /** `Detector::doDetection` on one request: the engine's boxes, the class
      count of the network's last layer and the completion flag are written
      into the request; the frame and the tag are left as they were. */
  function Detect(engine: FrameRef -> Boxes, classes: int, elem: WorkRequest): (r: WorkRequest)
    ensures r.done
    ensures r.tag == elem.tag && r.frame == elem.frame
    ensures Boxes(r.dets, r.nboxes) == engine(elem.frame)
    ensures r.classes == classes
  {
    var boxes := engine(elem.frame);
    elem.(dets := boxes.dets, nboxes := boxes.nboxes, classes := classes, done := true)
  }

  /** `Detect` applied to each request of a batch, in batch order. */
  function DetectEach(engine: FrameRef -> Boxes, classes: int, elems: seq<WorkRequest>)
    : (r: seq<WorkRequest>)
    ensures |r| == |elems|
    decreases |elems|
  {
    if elems == [] then []
    else [Detect(engine, classes, elems[0])] + DetectEach(engine, classes, elems[1..])
  }

  /** Each request of a batch is detected on its own: position `i` of the
      result is the detection of position `i` of the batch. */
  lemma {:induction false} DetectEachPointwise(
    engine: FrameRef -> Boxes, classes: int, elems: seq<WorkRequest>, i: int)
    requires 0 <= i < |elems|
    ensures DetectEach(engine, classes, elems)[i] == Detect(engine, classes, elems[i])
    decreases |elems|
  {
    if i > 0 {
      DetectEachPointwise(engine, classes, elems[1..], i - 1);
    }
  }

  /** Detecting a batch in two parts is detecting it whole. */
  lemma {:induction false} DetectEachAppend(
    engine: FrameRef -> Boxes, classes: int, a: seq<WorkRequest>, b: seq<WorkRequest>)
    ensures DetectEach(engine, classes, a + b)
         == DetectEach(engine, classes, a) + DetectEach(engine, classes, b)
    decreases |a|
  {
    if a == [] {
      assert a + b == b;
    } else {
      assert (a + b)[1..] == a[1..] + b;
      DetectEachAppend(engine, classes, a[1..], b);
    }
  }

  /** The darknet layer kinds `size_network` distinguishes; every other
      `LAYER_TYPE` value is `Other`. */
  datatype LayerType = Yolo | Region | Detection | Other(code: nat)

  /** One entry of `net->layers`, reduced to the two fields read here. */
  datatype Layer = Layer(kind: LayerType, outputs: int)

  /** The layers whose outputs `size_network` counts. */
  predicate IsOutputLayer(l: Layer)
  {
    l.kind == Yolo || l.kind == Region || l.kind == Detection
  }

  /** What one layer adds to the count. */
  function Contribution(l: Layer): (r: int)
  {
    if IsOutputLayer(l) then l.outputs else 0
  }

  /** Reference definition: the sum of `outputs` over the output layers. */
  function OutputSum(layers: seq<Layer>): (r: int)
    decreases |layers|
  {
    if layers == [] then 0 else Contribution(layers[0]) + OutputSum(layers[1..])
  }

  /** The output layers of a network, in order. */
  function OutputLayers(layers: seq<Layer>): (r: seq<Layer>)
    ensures |r| <= |layers|
    ensures forall i :: 0 <= i < |r| ==> IsOutputLayer(r[i])
    ensures forall l :: l in layers && IsOutputLayer(l) ==> l in r
    ensures forall l :: l in r ==> l in layers
    ensures multiset(r) <= multiset(layers)
    ensures forall l :: IsOutputLayer(l) ==> multiset(r)[l] == multiset(layers)[l]
    decreases |layers|
  {
    if layers == [] then []
    else
      assert layers == [layers[0]] + layers[1..];
      if IsOutputLayer(layers[0]) then [layers[0]] + OutputLayers(layers[1..])
      else OutputLayers(layers[1..])
  }

  /** Selection commutes with concatenation, so it keeps network order. */
  lemma {:induction false} OutputLayersAppend(a: seq<Layer>, b: seq<Layer>)
    ensures OutputLayers(a + b) == OutputLayers(a) + OutputLayers(b)
    decreases |a|
  {
    if a == [] {
      assert a + b == b;
    } else {
      assert (a + b)[1..] == a[1..] + b;
      OutputLayersAppend(a[1..], b);
    }
  }

  /** Plain sum of `outputs`. */
  function TotalOutputs(layers: seq<Layer>): (r: int)
    decreases |layers|
  {
    if layers == [] then 0 else layers[0].outputs + TotalOutputs(layers[1..])
  }

  /** The sum distributes over concatenation of layer lists. */
  lemma {:induction false} OutputSumAppend(a: seq<Layer>, b: seq<Layer>)
    ensures OutputSum(a + b) == OutputSum(a) + OutputSum(b)
    decreases |a|
  {
    if a == [] {
      assert a + b == b;
    } else {
      assert (a + b)[1..] == a[1..] + b;
      OutputSumAppend(a[1..], b);
    }
  }

  /** `Detector::size_network`: the loop over `net->layers` accumulating
      `outputs` of YOLO, REGION and DETECTION layers. */
  method SizeNetwork(layers: seq<Layer>) returns (count: int)
    ensures count == OutputSum(layers)
    ensures layers == [] ==> count == 0
    ensures (forall i :: 0 <= i < |layers| ==> layers[i].outputs >= 0) ==> count >= 0
  {
    count := 0;
    var i := 0;
    while i < |layers|
      invariant 0 <= i <= |layers|
      invariant count == OutputSum(layers[..i])
    {
      OutputSumAppend(layers[..i], [layers[i]]);
      assert layers[..i + 1] == layers[..i] + [layers[i]];
      count := count + Contribution(layers[i]);
      i := i + 1;
    }
    assert layers[..i] == layers;
    if forall i :: 0 <= i < |layers| ==> layers[i].outputs >= 0 {
      OutputSumBounds(layers);
    }
  }

  /** The count is exactly the plain sum of outputs over the output layers:
      layers of any other type contribute nothing. */
  lemma {:induction false} OutputSumCountsOnlyOutputLayers(layers: seq<Layer>)
    ensures OutputSum(layers) == TotalOutputs(OutputLayers(layers))
    decreases |layers|
  {
    if layers != [] {
      OutputSumCountsOnlyOutputLayers(layers[1..]);
    }
  }

  /** Dropping or adding layers of other types leaves the count unchanged. */
  lemma {:induction false} OtherLayersContributeNothing(a: seq<Layer>, l: Layer, b: seq<Layer>)
    requires !IsOutputLayer(l)
    ensures OutputSum(a + [l] + b) == OutputSum(a + b)
  {
    OutputSumAppend(a + [l], b);
    OutputSumAppend(a, [l]);
    OutputSumAppend(a, b);
    assert OutputSum([l]) == 0 by { assert [l][1..] == []; }
  }

  /** With non-negative `outputs` everywhere, the count is non-negative
      and bounded by the plain sum over all layers. */
  lemma {:induction false} OutputSumBounds(layers: seq<Layer>)
    requires forall i :: 0 <= i < |layers| ==> layers[i].outputs >= 0
    ensures 0 <= OutputSum(layers) <= TotalOutputs(layers)
    decreases |layers|
  {
    if layers != [] {
      OutputSumBounds(layers[1..]);
    }
  }
}
