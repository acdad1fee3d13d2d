/** The detector utilities: shaping Darkflow's YOLO output into the
    (boxes, scores, classes) triple used by the rest of the API, running a
    model over a batch of images, choosing the backend, and assembling the
    `tensors` dictionary with its label-map entries.

    The neural networks are opaque: a TF graph is a function from an image to
    its prediction, and a Darkflow net is its forward pass together with its
    `findboxes` and `process_box` functions. */
module Detector {
  import opened Common
  import opened Dicts
  import opened LabelMap

  /** Darkflow's `BoundBox`: centre, size, objectness and class
      probabilities, as `findboxes` returns them. */
  datatype BoundBox = BoundBox(x: real, y: real, w: real, h: real, c: real, probs: seq<real>)

  /** The tuple `process_box` returns:
      `(left, right, top, bot, label, class_index, confidence)`. */
  datatype ProcessedBox = ProcessedBox(
    left: real, right: real, top: real, bot: real,
    labelName: string, classIndex: int, confidence: real)

  /** The predictions for one image: one box `[c0, c1, c2, c3]`, one score
      and one class per detection. */
  datatype Prediction = Prediction(boxes: seq<seq<real>>, scores: seq<real>, classes: seq<int>)

  /** The predictions for a batch of images, as three parallel sequences. */
  datatype BatchPrediction = BatchPrediction(boxes: seq<seq<seq<real>>>, scores: seq<seq<real>>, classes: seq<seq<int>>) {
    predicate Aligned(n: nat) {
      |boxes| == n && |scores| == n && |classes| == n
    }

    /** Rows `0 .. n - 1` exist. */
    predicate Covers(n: nat) {
      n <= |boxes| && n <= |scores| && n <= |classes|
    }

    /** The `i`-th image's predictions. */
    function Row(i: nat): (p: Prediction)
      requires i < |boxes| && i < |scores| && i < |classes|
      ensures p.boxes == boxes[i] && p.scores == scores[i] && p.classes == classes[i]
    {
      Prediction(boxes[i], scores[i], classes[i])
    }
  }

  /** A loaded Darkflow net. `forward` resizes, pads and runs the image. */
  datatype YoloNet = YoloNet(
    threshold: real,
    forward: Image -> seq<real>,
    findBoxes: seq<real> -> seq<BoundBox>,
    processBox: (BoundBox, nat, nat, real) -> Option<ProcessedBox>)

  /** A loaded TF detection graph with its session. */
  datatype TfGraph = TfGraph(detect: Image -> Prediction)

  /** The `tensors` dictionary: which keys are present and what they hold. */
  datatype Tensors = Tensors(
    yoloNet: Option<YoloNet>,
    graph: Option<TfGraph>,
    labelmapDict: Option<Dict<string, int>>,
    labelmapDictInverse: Option<map<int, string>>,
    categoryIndex: Option<map<int, Category>>)

  /** What `detect_objects` is given: one image (a 3-D array) or a batch of
      them (a 4-D array, or the 1-D empty array of an empty list). */
  datatype Input = Single(image: Image) | Batch(images: seq<Image>)

  datatype Output = One(prediction: Prediction) | Many(batch: BatchPrediction)

  // ---------------------------------------------------------------- return_predict

  /** The values kept out of a sequence of optional values, in order. */
  function Survivors<T(!new)>(s: seq<Option<T>>): (r: seq<T>)
    ensures |r| <= |s|
    ensures forall x :: x in r <==> Some(x) in s
    decreases |s|
  {
    if s == [] then []
    else
      var n := |s| - 1;
      assert forall o :: o in s <==> o in s[..n] || o == s[n];
      Survivors(s[..n]) + (if s[n].Some? then [s[n].value] else [])
  }

  /** The positions of the values kept, in increasing order. */
  ghost function SurvivorPositions<T(!new)>(s: seq<Option<T>>): (pos: seq<int>)
    ensures |pos| == |Survivors(s)|
    ensures forall k :: 0 <= k < |pos| ==> 0 <= pos[k] < |s|
    ensures forall a, b :: 0 <= a < b < |pos| ==> pos[a] < pos[b]
    decreases |s|
  {
    if s == [] then []
    else
      var n := |s| - 1;
      if s[n].Some? then SurvivorPositions(s[..n]) + [n] else SurvivorPositions(s[..n])
  }

  /** The `k`-th value kept sits at the `k`-th position. */
  lemma {:induction false} SurvivorPositionsSound<T(!new)>(s: seq<Option<T>>)
    ensures var pos := SurvivorPositions(s);
            forall k :: 0 <= k < |pos| ==> s[pos[k]] == Some(Survivors(s)[k])
    decreases |s|
  {
    if s != [] {
      var n := |s| - 1;
      var front := SurvivorPositions(s[..n]);
      var sv := Survivors(s[..n]);
      var pos := SurvivorPositions(s);
      SurvivorPositionsSound(s[..n]);
      forall k | 0 <= k < |pos| ensures s[pos[k]] == Some(Survivors(s)[k]) {
        if k < |front| {
          assert pos[k] == front[k] && Survivors(s)[k] == sv[k];
          assert s[front[k]] == s[..n][front[k]];
        }
      }
    }
  }

  /** Every value present is kept. */
  lemma {:induction false} SurvivorPositionsComplete<T(!new)>(s: seq<Option<T>>, i: int)
    requires 0 <= i < |s| && s[i].Some?
    ensures i in SurvivorPositions(s)
    decreases |s|
  {
    var n := |s| - 1;
    if i < n {
      assert s[..n][i] == s[i];
      SurvivorPositionsComplete(s[..n], i);
    }
  }

  /** The box in the API's corner order `[t0, t2, t1, t3]`. */
  function Corners(t: ProcessedBox): (c: seq<real>)
    ensures |c| == 4
    ensures c[0] == t.left && c[1] == t.top && c[2] == t.right && c[3] == t.bot
  {
    [t.left, t.top, t.right, t.bot]
  }

  /** The post-processing loop of `return_predict` over the results of
      `process_box`, one appended triple per kept box. */
  function Emit(tmps: seq<Option<ProcessedBox>>): (p: Prediction)
    ensures var kept := Survivors(tmps);
            && |p.boxes| == |kept| && |p.scores| == |kept| && |p.classes| == |kept|
            && forall i :: 0 <= i < |kept| ==>
                 p.boxes[i] == Corners(kept[i]) && p.scores[i] == kept[i].confidence
                 && p.classes[i] == kept[i].classIndex + 1
    decreases |tmps|
  {
    if tmps == [] then Prediction([], [], [])
    else Keep(Emit(tmps[..|tmps| - 1]), tmps[|tmps| - 1])
  }

  /** One round of the loop: a kept box appends its corners, score and
      class; a rejected one changes nothing. */
  function Keep(p: Prediction, tmp: Option<ProcessedBox>): Prediction {
    match tmp
    case None => p
    case Some(t) => Prediction(p.boxes + [Corners(t)], p.scores + [t.confidence], p.classes + [t.classIndex + 1])
  }

  lemma EmitPrefix(tmps: seq<Option<ProcessedBox>>, i: int)
    requires 0 <= i < |tmps|
    ensures Emit(tmps[..i + 1]) == Keep(Emit(tmps[..i]), tmps[i])
  {
    assert tmps[..i + 1][..i] == tmps[..i];
  }

  /** `process_box` applied to each box `findboxes` returns for `img`, with the
      image's original height and width. */
  function ProcessBoxes(net: YoloNet, img: Image): (tmps: seq<Option<ProcessedBox>>)
    ensures var boxes := net.findBoxes(net.forward(img));
            |tmps| == |boxes| && forall i :: 0 <= i < |tmps| ==> tmps[i] == net.processBox(boxes[i], img.height, img.width, net.threshold)
  {
    var boxes := net.findBoxes(net.forward(img));
    seq(|boxes|, i requires 0 <= i < |boxes| => net.processBox(boxes[i], img.height, img.width, net.threshold))
  }

  /** What `return_predict(net, img)` returns. */
  function Predict(net: YoloNet, img: Image): Prediction {
    Emit(ProcessBoxes(net, img))
  }

  /** `return_predict`: drops the boxes `process_box` rejects, reorders the
      corners and shifts the class index to start from 1. */
  method ReturnPredict(net: YoloNet, img: Image) returns (p: Prediction)
    ensures p == Predict(net, img)
  {
    var h, w := img.height, img.width;
    var out := net.forward(img);
    var boxes := net.findBoxes(out);
    var threshold := net.threshold;
    ghost var tmps := ProcessBoxes(net, img);
    var boxesOut: seq<seq<real>>, scores: seq<real>, classes: seq<int> := [], [], [];
    for i := 0 to |boxes|
      invariant Prediction(boxesOut, scores, classes) == Emit(tmps[..i])
    {
      var tmpBox := net.processBox(boxes[i], h, w, threshold);
      EmitPrefix(tmps, i);
      if tmpBox.None? {
        continue;
      }
      var t := tmpBox.value;
      boxesOut := boxesOut + [[t.left, t.top, t.right, t.bot]];
      scores := scores + [t.confidence];
      classes := classes + [t.classIndex + 1];
    }
    assert tmps[..|boxes|] == tmps;
    return Prediction(boxesOut, scores, classes);
  }

  /** The three outputs of `return_predict` have equal length, one entry per
      box `process_box` keeps, in `findboxes` order. */
  lemma PredictShape(net: YoloNet, img: Image)
    ensures var p := Predict(net, img);
            var tmps := ProcessBoxes(net, img);
            var pos := SurvivorPositions(tmps);
            && |p.boxes| == |p.scores| == |p.classes| == |pos|
            && (forall k :: 0 <= k < |pos| ==>
                  && tmps[pos[k]].Some?
                  && p.boxes[k] == Corners(tmps[pos[k]].value)
                  && p.scores[k] == tmps[pos[k]].value.confidence
                  && p.classes[k] == tmps[pos[k]].value.classIndex + 1)
            && (forall i :: 0 <= i < |tmps| && tmps[i].Some? ==> i in pos)
  {
    var tmps := ProcessBoxes(net, img);
    SurvivorPositionsSound(tmps);
    forall i | 0 <= i < |tmps| && tmps[i].Some? ensures i in SurvivorPositions(tmps) {
      SurvivorPositionsComplete(tmps, i);
    }
  }

  /** Filtering distributes over concatenation. */
  lemma {:induction false} SurvivorsAppend<T(!new)>(a: seq<Option<T>>, b: seq<Option<T>>)
    ensures Survivors(a + b) == Survivors(a) + Survivors(b)
    decreases |b|
  {
    if b == [] {
      assert a + b == a;
    } else {
      var n := |b| - 1;
      assert (a + b)[..|a + b| - 1] == a + b[..n];
      SurvivorsAppend(a, b[..n]);
    }
  }

  /** The number of values kept is the number of `Some`s. */
  function CountSome<T>(s: seq<Option<T>>): nat
    decreases |s|
  {
    if s == [] then 0 else CountSome(s[1..]) + (if s[0].Some? then 1 else 0)
  }

  lemma {:induction false} SurvivorsCount<T(!new)>(s: seq<Option<T>>)
    ensures |Survivors(s)| == CountSome(s)
    decreases |s|
  {
    if s != [] {
      SurvivorsCount(s[1..]);
      SurvivorsAppend([s[0]], s[1..]);
      assert [s[0]] + s[1..] == s;
      assert [s[0]][..0] == [];
    }
  }

  // ---------------------------------------------------------------- batches

  /** `list(zip(*rows))` on non-empty rows: the three columns. */
  function Unzip(ps: seq<Prediction>): (b: BatchPrediction)
    ensures b.Aligned(|ps|)
    ensures forall i :: 0 <= i < |ps| ==> b.Row(i) == ps[i]
    decreases |ps|
  {
    if ps == [] then BatchPrediction([], [], [])
    else
      var rest := Unzip(ps[1..]);
      BatchPrediction([ps[0].boxes] + rest.boxes, [ps[0].scores] + rest.scores, [ps[0].classes] + rest.classes)
  }

  /** `pool.map(lambda img: return_predict(net, img), imgs)`: one prediction
      per image, in image order. */
  function PredictAll(net: YoloNet, imgs: seq<Image>): (ps: seq<Prediction>)
    ensures |ps| == |imgs| && forall i :: 0 <= i < |imgs| ==> ps[i] == Predict(net, imgs[i])
  {
    seq(|imgs|, i requires 0 <= i < |imgs| => Predict(net, imgs[i]))
  }

  function DetectAll(graph: TfGraph, imgs: seq<Image>): (ps: seq<Prediction>)
    ensures |ps| == |imgs| && forall i :: 0 <= i < |imgs| ==> ps[i] == graph.detect(imgs[i])
  {
    seq(|imgs|, i requires 0 <= i < |imgs| => graph.detect(imgs[i]))
  }

  /** `detect_objects_yolo`: a missing `"yolo_net"` key raises KeyError; an
      empty batch leaves nothing to unpack from the zip and raises
      ValueError; otherwise the `i`-th row is the prediction for image `i`. */
  function DetectObjectsYolo(imgs: seq<Image>, tensors: Tensors): (r: Result<BatchPrediction>)
    ensures tensors.yoloNet.None? ==> r == Err(KeyError)
    ensures tensors.yoloNet.Some? && imgs == [] ==> r.Err? && r.error.ValueError?
    ensures r.Ok? <==> tensors.yoloNet.Some? && imgs != []
    ensures r.Ok? ==> r.value.Aligned(|imgs|)
                      && forall i :: 0 <= i < |imgs| ==> r.value.Row(i) == Predict(tensors.yoloNet.value, imgs[i])
  {
    if tensors.yoloNet.None? then Err(KeyError)
    else
      var boxesData := PredictAll(tensors.yoloNet.value, imgs);
      if boxesData == [] then Err(ValueError("not enough values to unpack"))
      else Ok(Unzip(boxesData))
  }

  /** `detect_objects_tf`: a missing `"sess"` key raises KeyError; the session
      rejects the 1-D array of an empty list with ValueError; otherwise the
      `i`-th row is the graph's prediction for image `i`. */
  function DetectObjectsTf(imgs: seq<Image>, tensors: Tensors): (r: Result<BatchPrediction>)
    ensures tensors.graph.None? ==> r == Err(KeyError)
    ensures tensors.graph.Some? && imgs == [] ==> r.Err? && r.error.ValueError?
    ensures r.Ok? <==> tensors.graph.Some? && imgs != []
    ensures r.Ok? ==> r.value.Aligned(|imgs|)
                      && forall i :: 0 <= i < |imgs| ==> r.value.Row(i) == tensors.graph.value.detect(imgs[i])
  {
    if tensors.graph.None? then Err(KeyError)
    else if imgs == [] then Err(ValueError("cannot feed value of shape (0,)"))
    else Ok(Unzip(DetectAll(tensors.graph.value, imgs)))
  }

  /** `detect_objects`: a single image is run as a batch of one and its row
      returned; the backend is YOLO exactly when `"yolo_net"` is present. */
  function DetectObjects(input: Input, tensors: Tensors): (r: Result<Output>)
    ensures input.Single? ==> r.Ok? == (tensors.yoloNet.Some? || tensors.graph.Some?)
    ensures input.Single? && tensors.yoloNet.Some? ==> r == Ok(One(Predict(tensors.yoloNet.value, input.image)))
    ensures input.Single? && tensors.yoloNet.None? && tensors.graph.Some? ==> r == Ok(One(tensors.graph.value.detect(input.image)))
    ensures input.Batch? && tensors.yoloNet.Some? ==> r.Ok? == (input.images != [])
    ensures input.Batch? && tensors.yoloNet.None? ==> r.Ok? == (tensors.graph.Some? && input.images != [])
    ensures r.Ok? ==> r.value.One? == input.Single?
  {
    var imgs := match input case Single(img) => [img] case Batch(imgs) => imgs;
    if tensors.yoloNet.Some? then
      var b :- DetectObjectsYolo(imgs, tensors);
      if input.Single? then Ok(One(b.Row(0))) else Ok(Many(b))
    else
      var b :- DetectObjectsTf(imgs, tensors);
      if input.Single? then Ok(One(b.Row(0))) else Ok(Many(b))
  }

  /** The result on one image is row 0 of the result on the batch holding it. */
  lemma SingleIsBatchOfOne(img: Image, tensors: Tensors)
    ensures var single := DetectObjects(Single(img), tensors);
            var batch := DetectObjects(Batch([img]), tensors);
            && single.Ok? == batch.Ok?
            && (single.Ok? ==> batch.value.Many? && batch.value.batch.Aligned(1) && single.value.prediction == batch.value.batch.Row(0))
  {
  }

  /** The backend choice depends only on whether `"yolo_net"` is present:
      dictionaries that agree on the YOLO entry, and on the graph when there
      is none, give the same result. */
  lemma DispatchDependsOnYoloKey(input: Input, t1: Tensors, t2: Tensors)
    requires t1.yoloNet == t2.yoloNet
    requires t1.yoloNet.None? ==> t1.graph == t2.graph
    ensures DetectObjects(input, t1) == DetectObjects(input, t2)
  {
  }

  /** A batch result lists the images' predictions in image order. */
  lemma BatchRows(imgs: seq<Image>, tensors: Tensors, i: nat)
    requires DetectObjects(Batch(imgs), tensors).Ok? && i < |imgs|
    ensures var b := DetectObjects(Batch(imgs), tensors).value.batch;
            b.Aligned(|imgs|)
            && b.Row(i) == (if tensors.yoloNet.Some? then Predict(tensors.yoloNet.value, imgs[i]) else tensors.graph.value.detect(imgs[i]))
  {
  }

  // ---------------------------------------------------------------- loading

  /** The loaders of the two backends and the label-map parser. */
  datatype Loaders = Loaders(
    loadTf: string -> TfGraph,
    loadYolo: (string, string, real, real) -> YoloNet,
    parseLabelMap: string -> Result<seq<Item>>)

  /** `load_inference_graph`: the TF loader without a meta file, Darkflow's
      otherwise; either way the dictionary holds that one backend. */
  function LoadInferenceGraph(graphPath: string, metaPath: Option<string>, gpuUsage: real,
                              confidenceThreshold: real, loaders: Loaders): (t: Tensors)
    ensures t.graph.Some? <==> metaPath.None?
    ensures t.yoloNet.Some? <==> metaPath.Some?
    ensures t.graph.Some? ==> t.graph.value == loaders.loadTf(graphPath)
    ensures t.yoloNet.Some? ==> t.yoloNet.value == loaders.loadYolo(graphPath, metaPath.value, gpuUsage, confidenceThreshold)
    ensures t.labelmapDict.None? && t.labelmapDictInverse.None? && t.categoryIndex.None?
  {
    if metaPath.None? then Tensors(None, Some(loaders.loadTf(graphPath)), None, None, None)
    else Tensors(Some(loaders.loadYolo(graphPath, metaPath.value, gpuUsage, confidenceThreshold)), None, None, None, None)
  }

  /** Loading with a meta file makes `detect_objects` use YOLO, without one
      the TF graph. */
  lemma LoadedBackendDecidesDetection(graphPath: string, metaPath: Option<string>, gpuUsage: real,
                                      confidenceThreshold: real, loaders: Loaders, img: Image)
    ensures var t := LoadInferenceGraph(graphPath, metaPath, gpuUsage, confidenceThreshold, loaders);
            DetectObjects(Single(img), t)
              == if metaPath.Some?
                 then Ok(One(Predict(loaders.loadYolo(graphPath, metaPath.value, gpuUsage, confidenceThreshold), img)))
                 else Ok(One(loaders.loadTf(graphPath).detect(img)))
  {
  }

  /** `load_tensors`: loads the backend, then the name -> id dictionary, its
      inverse and the category index of the label map, where the number of
      classes defaults to the size of the dictionary. An invalid label map
      raises before anything is returned. */
  method LoadTensors(graphPath: string, labelmapPath: string, numClasses: Option<int>, metaPath: Option<string>,
                     gpuUsage: real, confidenceThreshold: real, loaders: Loaders)
    returns (r: Result<Tensors>)
    ensures var parsed := loaders.parseLabelMap(labelmapPath);
            r.Ok? <==> parsed.Ok? && ValidIds(parsed.value)
    ensures r.Ok? ==>
              var t := r.value;
              var backend := LoadInferenceGraph(graphPath, metaPath, gpuUsage, confidenceThreshold, loaders);
              var items := loaders.parseLabelMap(labelmapPath).value;
              && t.yoloNet == backend.yoloNet && t.graph == backend.graph
              && t.labelmapDict.Some? && t.labelmapDictInverse.Some? && t.categoryIndex.Some?
              && var d := t.labelmapDict.value;
                 && d.Valid() && LastWriteWins(NameIdWrites(items), d.entries)
                 && d.keys == Dedup(WrittenKeys(NameIdWrites(items)))
                 && LastWriteWins(InverseWrites(d), t.labelmapDictInverse.value)
                 && LastWriteWins(CategoryWrites(Categories(items, numClasses.GetOr(d.Len()), true)), t.categoryIndex.value)
  {
    var tensors := LoadInferenceGraph(graphPath, metaPath, gpuUsage, confidenceThreshold, loaders);
    var labelmapDict :- LoadLabelMapDict(loaders.parseLabelMap, labelmapPath);
    var labelmapDictInverse := GetLabelMapDictInverse(labelmapDict);
    var classes := numClasses.GetOr(labelmapDict.Len());
    // the file was parsed and validated above; the second reading agrees
    var indexResult := LoadCategoryIndex(loaders.parseLabelMap, labelmapPath, classes);
    assert indexResult.Ok?;
    var categoryIndex := indexResult.value;
    tensors := tensors.(labelmapDict := Some(labelmapDict));
    tensors := tensors.(labelmapDictInverse := Some(labelmapDictInverse));
    tensors := tensors.(categoryIndex := Some(categoryIndex));
    return Ok(tensors);
  }
}
