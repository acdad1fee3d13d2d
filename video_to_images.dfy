/** The video-to-images pipeline: every `num_frame_interval`-th decoded frame
    is kept, named "{name}_{n}.jpg" in the output directory, and buffered;
    every `batch_size` kept frames (and once more for a leftover at the end
    of a video) the buffer is flushed: it grows by augmented copies that get
    fresh numbers, the model(s) detect objects on all of it, and one XML
    label file per image is written and the images are saved.

    Augmentation, the per-image box filter, frame geometry and the writers
    are opaque: they are parameters, and what the writers are asked to do is
    returned as a sequence of effects. */
module VideoToImages {
  import opened Common
  import opened Text
  import opened Paths
  import opened Detector
  import opened Arithmetic

  const ConfidenceThreshold: real := 0.5
  const InvalidRotateMessage: string := "Invalid value for 'rotate'"

  /** A labelled box as the per-image filter returns it. */
  datatype LabelBox = LabelBox(xmin: int, ymin: int, xmax: int, ymax: int, labelName: string)

  /** A loaded model: its tensors and the filter (`get_filtered_boxes` with
      the model's classes to detect and its inverse label map) that turns one
      image's prediction, the confidence threshold and the image height and
      width into labelled boxes. */
  datatype Model = Model(tensors: Tensors, filter: (Prediction, real, nat, nat) -> seq<LabelBox>)

  /** Rotation and resizing: the (width, height) every frame is resized to,
      computed from the first kept frame and the rotation; and the rotate and
      resize of a frame to that size. */
  datatype Geometry = Geometry(
    targetSize: (Image, Option<int>) -> (nat, nat),
    transform: (Image, Option<int>, (nat, nat)) -> Image)

  /** The command-line settings, the loaded models and `detect_objects`. */
  datatype Config = Config(
    numFrameInterval: int,
    batchSize: int,
    numTransform: int,
    augment: seq<Image> -> seq<Image>,
    detect: Detect,
    model: Model,
    model2: Option<Model>,
    geometry: Geometry)

  /** What is asked of the outside world, in order. */
  datatype Effect =
    | WriteXml(path: string, width: nat, height: nat, boxes: seq<LabelBox>)
    | SaveImages(images: seq<Image>, paths: seq<string>)
    | Report(generated: nat, outputDir: string)

  /** The counters that survive from one video to the next: the frames
      passed, the frames kept, and the resize target (unset while
      `beginning` holds). */
  datatype Counters = Counters(passed: nat, processed: nat, target: Option<(nat, nat)>)

  /** The two lists `frames` and `img_save_paths`, which a flush extends in
      place. */
  class FrameBatch {
    var frames: seq<Image>
    var paths: seq<string>

    constructor ()
      ensures frames == [] && paths == []
    {
      frames := [];
      paths := [];
    }
  }

  // ---------------------------------------------------------------- rotation

  /** The `rotate` check: a multiple of 90 is normalised into [0, 360), any
      other value raises ValueError. */
  function ValidateRotate(rotate: Option<int>): (r: Result<Option<int>>)
    ensures rotate.None? ==> r == Ok(None)
    ensures rotate.Some? ==> (r.Err? <==> rotate.value % 90 != 0)
    ensures r.Err? ==> r.error == ValueError(InvalidRotateMessage)
    ensures r.Ok? && rotate.Some? ==> r.value.Some? && r.value.value in {0, 90, 180, 270}
                                      && (rotate.value - r.value.value) % 360 == 0
  {
    if rotate.None? then Ok(None)
    else if rotate.value % 90 != 0 then Err(ValueError(InvalidRotateMessage))
    else
      QuarterTurn(rotate.value);
      Ok(Some(rotate.value % 360))
  }

  /** Validating a normalised value leaves it unchanged. */
  lemma ValidateRotateIdempotent(rotate: Option<int>)
    requires ValidateRotate(rotate).Ok?
    ensures ValidateRotate(ValidateRotate(rotate).value) == ValidateRotate(rotate)
  {
  }

  // ---------------------------------------------------------------- frame sampling

  /** How many of the frames numbered `passed + 1 .. passed + n` are kept:
      those whose running number is a multiple of the interval. */
  function KeptFrames(passed: nat, n: nat, interval: int): (k: nat)
    ensures k <= n
    decreases n
  {
    if n == 0 then 0
    else KeptFrames(passed, n - 1, interval) + (if interval != 0 && (passed + n) % interval == 0 then 1 else 0)
  }

  /** Counting over two stretches of frames adds up; the count only depends
      on the running number, so it carries from one video to the next. */
  lemma {:induction false} KeptFramesAppend(passed: nat, a: nat, b: nat, interval: int)
    ensures KeptFrames(passed, a + b, interval) == KeptFrames(passed, a, interval) + KeptFrames(passed + a, b, interval)
    decreases b
  {
    if b > 0 {
      KeptFramesAppend(passed, a, b - 1, interval);
    }
  }

  lemma {:induction false} KeptFramesMonotone(passed: nat, a: nat, b: nat, interval: int)
    requires a <= b
    ensures KeptFrames(passed, a, interval) <= KeptFrames(passed, b, interval)
  {
    KeptFramesAppend(passed, a, b - a, interval);
  }

  /** For a positive interval the count is the number of multiples of the
      interval in `(passed, passed + n]`. */
  lemma {:induction false} KeptFramesCount(passed: nat, n: nat, interval: int)
    requires interval > 0
    ensures KeptFrames(passed, n, interval) == (passed + n) / interval - passed / interval
    decreases n
  {
    if n > 0 {
      KeptFramesCount(passed, n - 1, interval);
      DivStep(passed + n, interval);
    }
  }

  // ---------------------------------------------------------------- names

  /** The name stem of a video: the extension-free tail of its path. */
  function VideoName(videoPath: string): (name: string)
    ensures Slash !in name
  {
    var tail := BaseName(videoPath);
    var name := SplitExt(tail).0;
    assert forall k :: 0 <= k < |name| ==> name[k] == tail[k];
    name
  }

  /** The prefix every image of a video is numbered under. */
  function VideoPrefix(outputDir: string, videoPath: string): string {
    PathJoin(outputDir, VideoName(videoPath))
  }

  /** The names `prefix_{start}.jpg, .., prefix_{start + count - 1}.jpg`. */
  function NumberedRun(prefix: string, start: nat, count: nat): (names: seq<string>)
    ensures |names| == count
    decreases count
  {
    if count == 0 then [] else NumberedRun(prefix, start, count - 1) + [NumberedName(prefix, start + count - 1)]
  }

  /** Name `j` of a run carries number `start + j`. */
  lemma {:induction false} NumberedRunIndex(prefix: string, start: nat, count: nat)
    ensures forall j :: 0 <= j < count ==> NumberedRun(prefix, start, count)[j] == NumberedName(prefix, start + j)
    decreases count
  {
    if count > 0 {
      NumberedRunIndex(prefix, start, count - 1);
    }
  }

  lemma {:induction false} NumberedRunAppend(prefix: string, start: nat, m: nat, n: nat)
    ensures NumberedRun(prefix, start, m) + NumberedRun(prefix, start + m, n) == NumberedRun(prefix, start, m + n)
    decreases n
  {
    if n > 0 {
      NumberedRunAppend(prefix, start, m, n - 1);
    }
  }

  /** A run continued from its next number is a longer run. */
  lemma NumberedRunExtend(prefix: string, start: nat, m: nat, next: nat, n: nat)
    requires next == start + m
    ensures NumberedRun(prefix, start, m) + NumberedRun(prefix, next, n) == NumberedRun(prefix, start, m + n)
  {
    NumberedRunAppend(prefix, start, m, n);
  }

  /** `xs` is numbered `prefix_{start}.jpg, prefix_{start + 1}.jpg, ..`. */
  ghost predicate IsRun(xs: seq<string>, prefix: string, start: nat) {
    forall j :: 0 <= j < |xs| ==> xs[j] == NumberedName(prefix, start + j)
  }

  lemma IsRunOfNumberedRun(prefix: string, start: nat, count: nat)
    ensures IsRun(NumberedRun(prefix, start, count), prefix, start)
  {
    NumberedRunIndex(prefix, start, count);
  }

  /** A numbered sequence is the run of its length. */
  lemma IsRunIsNumberedRun(xs: seq<string>, prefix: string, start: nat)
    requires IsRun(xs, prefix, start)
    ensures xs == NumberedRun(prefix, start, |xs|)
  {
    NumberedRunIndex(prefix, start, |xs|);
  }

  /** A numbered sequence continued from its next number stays numbered. */
  lemma IsRunAppend(xs: seq<string>, ys: seq<string>, prefix: string, start: nat)
    requires IsRun(xs, prefix, start) && IsRun(ys, prefix, start + |xs|)
    ensures IsRun(xs + ys, prefix, start)
  {
    forall j | 0 <= j < |xs + ys| ensures (xs + ys)[j] == NumberedName(prefix, start + j) {
      if j >= |xs| {
        assert (xs + ys)[j] == ys[j - |xs|];
      }
    }
  }

  /** A numbered sequence followed by its next name stays numbered. */
  lemma IsRunSnoc(xs: seq<string>, x: string, prefix: string, start: nat)
    requires IsRun(xs, prefix, start) && x == NumberedName(prefix, start + |xs|)
    ensures IsRun(xs + [x], prefix, start)
  {
  }

  /** The names of a run are pairwise distinct, and each parses back to its
      own number. */
  lemma NumberedRunDistinct(prefix: string, start: nat, count: nat)
    ensures var names := NumberedRun(prefix, start, count);
            && (forall a, b :: 0 <= a < b < count ==> names[a] != names[b])
            && (forall j :: 0 <= j < count ==> ParseNumberedName(names[j]) == Ok((prefix, start + j)))
  {
    var names := NumberedRun(prefix, start, count);
    NumberedRunIndex(prefix, start, count);
    forall a, b | 0 <= a < b < count ensures names[a] != names[b] {
      if names[a] == names[b] {
        NumberedNameInjective(prefix, start + a, prefix, start + b);
      }
    }
    forall j | 0 <= j < count ensures ParseNumberedName(names[j]) == Ok((prefix, start + j)) {
      ParseNumberedNameRoundTrip(prefix, start + j);
    }
  }

  // ---------------------------------------------------------------- one flush

  /** `frames * k`: the frames repeated `k` times, nothing when `k <= 0`. */
  function Repeat<T>(xs: seq<T>, k: int): (r: seq<T>)
    ensures |r| == |xs| * Max0(k)
    decreases Max0(k)
  {
    if k <= 0 then []
    else
      assert |xs| * Max0(k) == |xs| + |xs| * Max0(k - 1);
      xs + Repeat(xs, k - 1)
  }

  /** Copy `i` of the repetition is frame `i % len(frames)`. */
  lemma {:induction false} RepeatIndex<T>(xs: seq<T>, k: int, i: int)
    requires 0 <= i < |Repeat(xs, k)|
    ensures Repeat(xs, k)[i] == xs[i % |xs|]
    decreases Max0(k)
  {
    var rest := Repeat(xs, k - 1);
    if i < |xs| {
      DivModUnique(i, |xs|, 0, i);
    } else {
      RepeatIndex(xs, k - 1, i - |xs|);
      ModAddMultiple(i - |xs|, |xs|, 1);
    }
  }

  /** An augmenter that returns one image per image it is given. */
  ghost predicate LengthPreserving(augment: seq<Image> -> seq<Image>) {
    forall imgs :: |augment(imgs)| == |imgs|
  }

  predicate Ready(m: Model) {
    m.tensors.yoloNet.Some? || m.tensors.graph.Some?
  }

  predicate ModelsReady(m1: Model, m2: Option<Model>) {
    Ready(m1) && (m2.None? || Ready(m2.value))
  }

  /** `detect_objects` on the buffered frames as one batch. */
  function DetectBatch(m: Model, frames: seq<Image>): (r: Result<BatchPrediction>)
    ensures r.Ok? <==> Ready(m) && frames != []
    ensures r.Ok? ==> r.value.Aligned(|frames|)
  {
    match DetectObjects(Batch(frames), m.tensors)
    case Err(e) => Err(e)
    case Ok(out) => Ok(out.batch)
  }

  /** `detect_objects(frames, model)`: a model and a batch of frames to the
      batch's predictions. */
  type Detect = (Model, seq<Image>) -> Result<BatchPrediction>

  /** What the flush relies on from detection: it succeeds exactly on a
      model with a backend and a non-empty batch, and then gives one row of
      predictions per image. */
  ghost predicate DetectContract(detect: Detect) {
    forall m, frames {:trigger detect(m, frames)} ::
      && (detect(m, frames).Ok? <==> Ready(m) && frames != [])
      && (detect(m, frames).Ok? ==> detect(m, frames).value.Aligned(|frames|))
  }

  /** `detect_objects` meets that contract. */
  lemma DetectBatchMeetsContract()
    ensures DetectContract(DetectBatch)
  {
  }

  /** The boxes written for image `i`: the first model's filtered boxes,
      followed by the second model's when there is one. */
  function ImageBoxes(b1: BatchPrediction, b2: Option<BatchPrediction>, m1: Model, m2: Option<Model>,
                      confidence: real, height: nat, width: nat, i: nat): seq<LabelBox>
    requires i < |b1.boxes| && i < |b1.scores| && i < |b1.classes|
    requires m2.Some? ==> b2.Some? && i < |b2.value.boxes| && i < |b2.value.scores| && i < |b2.value.classes|
  {
    var boxes := m1.filter(b1.Row(i), confidence, height, width);
    if m2.Some? then boxes + m2.value.filter(b2.value.Row(i), confidence, height, width) else boxes
  }

  /** The boxes of each of the `n` images of a batch. */
  function Labels(b1: BatchPrediction, b2: Option<BatchPrediction>, m1: Model, m2: Option<Model>,
                  confidence: real, height: nat, width: nat, n: nat): (labels: seq<seq<LabelBox>>)
    requires b1.Covers(n) && (m2.Some? ==> b2.Some? && b2.value.Covers(n))
    ensures |labels| == n
    decreases n
  {
    if n == 0 then []
    else Labels(b1, b2, m1, m2, confidence, height, width, n - 1) + [ImageBoxes(b1, b2, m1, m2, confidence, height, width, n - 1)]
  }

  /** Entry `i` holds the boxes of image `i`. */
  lemma {:induction false} LabelsIndex(b1: BatchPrediction, b2: Option<BatchPrediction>, m1: Model, m2: Option<Model>,
                                       confidence: real, height: nat, width: nat, n: nat, i: nat)
    requires b1.Covers(n) && (m2.Some? ==> b2.Some? && b2.value.Covers(n))
    requires i < n
    ensures Labels(b1, b2, m1, m2, confidence, height, width, n)[i] == ImageBoxes(b1, b2, m1, m2, confidence, height, width, i)
    decreases n
  {
    if i < n - 1 {
      LabelsIndex(b1, b2, m1, m2, confidence, height, width, n - 1, i);
    }
  }

  /** Round `i` of the per-image loop: image `i`'s XML file with its boxes,
      then a save of the whole buffer. */
  function Round(frames: seq<Image>, paths: seq<string>, labels: seq<seq<LabelBox>>, height: nat, width: nat, i: nat): seq<Effect>
    requires i < |paths| && i < |labels|
  {
    [WriteXml(paths[i], width, height, labels[i]), SaveImages(frames, paths)]
  }

  /** The effects of the first `n` rounds of the per-image loop. */
  function ImageEffects(frames: seq<Image>, paths: seq<string>, labels: seq<seq<LabelBox>>, height: nat, width: nat, n: nat): (effects: seq<Effect>)
    requires n <= |paths| && n <= |labels|
    ensures |effects| == 2 * n
    decreases n
  {
    if n == 0 then []
    else ImageEffects(frames, paths, labels, height, width, n - 1) + Round(frames, paths, labels, height, width, n - 1)
  }

  /** The paths of the XML files among some effects, in order. */
  function XmlPaths(effects: seq<Effect>): seq<string>
    decreases |effects|
  {
    if effects == [] then []
    else XmlPaths(effects[..|effects| - 1]) + (if effects[|effects| - 1].WriteXml? then [effects[|effects| - 1].path] else [])
  }

  lemma {:induction false} XmlPathsAppend(a: seq<Effect>, b: seq<Effect>)
    ensures XmlPaths(a + b) == XmlPaths(a) + XmlPaths(b)
    decreases |b|
  {
    if b == [] {
      assert a + b == a;
    } else {
      var n := |b| - 1;
      assert (a + b)[..|a + b| - 1] == a + b[..n];
      XmlPathsAppend(a, b[..n]);
    }
  }

  /** Round `i` of the per-image loop writes image `i`'s XML file with its
      boxes, then saves the whole buffer. */
  lemma {:induction false} ImageEffectsRounds(frames: seq<Image>, paths: seq<string>, labels: seq<seq<LabelBox>>,
                                              height: nat, width: nat, n: nat)
    requires n <= |paths| && n <= |labels|
    ensures var effects := ImageEffects(frames, paths, labels, height, width, n);
            forall i :: 0 <= i < n ==>
              effects[2 * i] == WriteXml(paths[i], width, height, labels[i]) && effects[2 * i + 1] == SaveImages(frames, paths)
    decreases n
  {
    if n > 0 {
      var effects := ImageEffects(frames, paths, labels, height, width, n);
      var front := ImageEffects(frames, paths, labels, height, width, n - 1);
      ImageEffectsRounds(frames, paths, labels, height, width, n - 1);
      forall i | 0 <= i < n
        ensures effects[2 * i] == WriteXml(paths[i], width, height, labels[i]) && effects[2 * i + 1] == SaveImages(frames, paths)
      {
        if i < n - 1 {
          assert effects[2 * i] == front[2 * i] && effects[2 * i + 1] == front[2 * i + 1];
        }
      }
    }
  }

  /** A round writes exactly one XML file, under the image's path. */
  lemma XmlPathsRound(frames: seq<Image>, paths: seq<string>, labels: seq<seq<LabelBox>>, height: nat, width: nat, i: nat)
    requires i < |paths| && i < |labels|
    ensures XmlPaths(Round(frames, paths, labels, height, width, i)) == [paths[i]]
  {
    var round := Round(frames, paths, labels, height, width, i);
    assert round[..1][..0] == [];
    assert XmlPaths(round[..1]) == [paths[i]];
    assert XmlPaths(round) == XmlPaths(round[..1]);
  }

  /** The per-image loop writes one XML file per image, under its own path. */
  lemma {:induction false} ImageEffectsXml(frames: seq<Image>, paths: seq<string>, labels: seq<seq<LabelBox>>,
                                           height: nat, width: nat, n: nat)
    requires n <= |paths| && n <= |labels|
    ensures XmlPaths(ImageEffects(frames, paths, labels, height, width, n)) == paths[..n]
    decreases n
  {
    if n > 0 {
      var front := ImageEffects(frames, paths, labels, height, width, n - 1);
      var round := Round(frames, paths, labels, height, width, n - 1);
      ImageEffectsXml(frames, paths, labels, height, width, n - 1);
      XmlPathsAppend(front, round);
      XmlPathsRound(frames, paths, labels, height, width, n - 1);
      assert paths[..n] == paths[..n - 1] + [paths[n - 1]];
    }
  }

  function Min(a: int, b: int): int {
    if a < b then a else b
  }

  /** The counter and prefix read back from the last saved path: IndexError
      when there is none, ValueError when its counter is not a number. */
  function ParseLast(paths: seq<string>): (r: Result<(string, nat)>)
    ensures paths == [] ==> r == Err(IndexError)
    ensures paths != [] ==> r == ParseNumberedName(paths[|paths| - 1])
  {
    if paths == [] then Err(IndexError) else ParseNumberedName(paths[|paths| - 1])
  }

  /** The last path of a consecutively numbered run reads back as the run's
      prefix and last number. */
  lemma ParseLastOfRun(prefix: string, start: nat, paths: seq<string>)
    requires IsRun(paths, prefix, start) && paths != []
    ensures ParseLast(paths) == Ok((prefix, start + |paths| - 1))
  {
    ParseNumberedNameRoundTrip(prefix, start + |paths| - 1);
  }

  /** Detection on the whole buffer with the first model, then the second. */
  function DetectBoth(detect: Detect, m1: Model, m2: Option<Model>,
                      frames: seq<Image>): (r: Result<(BatchPrediction, Option<BatchPrediction>)>)
    requires DetectContract(detect)
    ensures r.Ok? <==> ModelsReady(m1, m2) && frames != []
    ensures r.Ok? ==> && r.value.0.Aligned(|frames|)
                      && (m2.Some? <==> r.value.1.Some?)
                      && (r.value.1.Some? ==> r.value.1.value.Aligned(|frames|))
  {
    var b1 :- detect(m1, frames);
    if m2.None? then Ok((b1, None))
    else
      var b2 :- detect(m2.value, frames);
      Ok((b1, Some(b2)))
  }

  /** The detection and writing steps of a flush on the grown buffer and the
      renumbered paths: the counter to return (IndexError once the loop
      over the images runs out of paths) and the effects. */
  function Annotate(grown: seq<Image>, renamed: seq<string>, counter: nat, detect: Detect,
                    m1: Model, m2: Option<Model>, confidence: real): (r: (Result<nat>, seq<Effect>))
    requires DetectContract(detect)
  {
    match DetectBoth(detect, m1, m2, grown)
    case Err(e) => (Err(e), [])
    case Ok(detected) =>
      var height, width := grown[0].height, grown[0].width;
      var labels := Labels(detected.0, detected.1, m1, m2, confidence, height, width, |grown|);
      (if |renamed| < |grown| then Err(IndexError) else Ok(counter),
       ImageEffects(grown, renamed, labels, height, width, Min(|renamed|, |grown|)))
  }

  /** What a flush leaves: the grown buffer, the returned counter (or the
      exception raised) and the effects. */
  datatype FlushOutcome = FlushOutcome(frames: seq<Image>, paths: seq<string>, counter: Result<nat>, effects: seq<Effect>)

  /** `process_frame_batch` as a function of the buffer it is given and of
      what its last path reads back as (`parsed`, which is
      `ParseLast(paths)`): the buffer grows by the augmented copies, the
      copies continue the numbering, and the grown buffer is annotated. */
  function Flush(frames: seq<Image>, paths: seq<string>, parsed: Result<(string, nat)>, numTransform: int,
                 augment: seq<Image> -> seq<Image>, detect: Detect, m1: Model, m2: Option<Model>,
                 confidence: real): (o: FlushOutcome)
    requires DetectContract(detect)
    ensures o.frames == frames + augment(Repeat(frames, numTransform))
    ensures parsed.Err? ==> o.counter == parsed.PropagateFailure() && o.paths == paths && o.effects == []
  {
    var aug := augment(Repeat(frames, numTransform));
    var grown := frames + aug;
    if parsed.Err? then FlushOutcome(grown, paths, Err(parsed.error), [])
    else
      var name, last := parsed.value.0, parsed.value.1;
      var renamed := paths + NumberedRun(name, last + 1, |aug|);
      var annotated := Annotate(grown, renamed, last + |aug|, detect, m1, m2, confidence);
      FlushOutcome(grown, renamed, annotated.0, annotated.1)
  }

  /** A flush keeps the paths it is given and adds one per augmented copy. */
  lemma FlushExtendsPaths(frames: seq<Image>, paths: seq<string>, parsed: Result<(string, nat)>, numTransform: int,
                          augment: seq<Image> -> seq<Image>, detect: Detect, m1: Model, m2: Option<Model>, confidence: real)
    requires DetectContract(detect)
    requires parsed.Ok?
    ensures var o := Flush(frames, paths, parsed, numTransform, augment, detect, m1, m2, confidence);
            |o.paths| == |paths| + |augment(Repeat(frames, numTransform))| && o.paths[..|paths|] == paths
  {
    var o := Flush(frames, paths, parsed, numTransform, augment, detect, m1, m2, confidence);
    FlushPaths(frames, paths, parsed.value.0, parsed.value.1, numTransform, augment, detect, m1, m2, confidence);
    assert o.paths[..|paths|] == paths;
  }

  /** `process_frame_batch`: grows the buffer by the augmented copies, numbers
      them on from the counter in the last path, runs the model(s) on the
      whole buffer and writes one XML file per image, saving the buffer after
      each. */
  method ProcessFrameBatch(batch: FrameBatch, numTransform: int, augment: seq<Image> -> seq<Image>,
                           detect: Detect, m1: Model, m2: Option<Model>, confidence: real)
    returns (r: Result<nat>, effects: seq<Effect>)
    requires DetectContract(detect)
    modifies batch
    ensures var o := Flush(old(batch.frames), old(batch.paths), ParseLast(old(batch.paths)), numTransform, augment,
                           detect, m1, m2, confidence);
            batch.frames == o.frames && batch.paths == o.paths && r == o.counter && effects == o.effects
  {
    var framesAug := augment(Repeat(batch.frames, numTransform));
    batch.frames := batch.frames + framesAug;
    if batch.paths == [] {
      return Err(IndexError), [];
    }
    var parsed := ParseNumberedName(batch.paths[|batch.paths| - 1]);
    if parsed.Err? {
      return Err(parsed.error), [];
    }
    var name, numImgGenerated := parsed.value.0, parsed.value.1;
    FlushPaths(old(batch.frames), old(batch.paths), name, numImgGenerated, numTransform, augment, detect, m1, m2, confidence);
    FlushAnnotates(old(batch.frames), old(batch.paths), name, numImgGenerated, numTransform, augment, detect, m1, m2, confidence);
    numImgGenerated := ExtendPaths(batch, name, numImgGenerated, |framesAug|);
    r, effects := WriteAnnotations(batch.frames, batch.paths, numImgGenerated, detect, m1, m2, confidence);
  }

  /** The renumbering loop: `count` paths numbered on from `last`; returns
      the last number used. */
  method ExtendPaths(batch: FrameBatch, name: string, last: nat, count: nat) returns (numImgGenerated: nat)
    modifies batch
    ensures batch.frames == old(batch.frames)
    ensures batch.paths == old(batch.paths) + NumberedRun(name, last + 1, count)
    ensures numImgGenerated == last + count
  {
    numImgGenerated := last;
    for i := 0 to count
      invariant batch.paths == old(batch.paths) + NumberedRun(name, last + 1, i)
      invariant numImgGenerated == last + i
      invariant batch.frames == old(batch.frames)
    {
      numImgGenerated := numImgGenerated + 1;
      batch.paths := batch.paths + [NumberedName(name, numImgGenerated)];
    }
  }

  /** Detection on the grown buffer and the per-image loop, which writes
      image `i`'s XML file under path `i` and saves the buffer. */
  method WriteAnnotations(frames: seq<Image>, paths: seq<string>, counter: nat, detect: Detect,
                          m1: Model, m2: Option<Model>, confidence: real)
    returns (r: Result<nat>, effects: seq<Effect>)
    requires DetectContract(detect)
    ensures (r, effects) == Annotate(frames, paths, counter, detect, m1, m2, confidence)
  {
    var detected := DetectBoth(detect, m1, m2, frames);
    if detected.Err? {
      return Err(detected.error), [];
    }
    var b1, b2 := detected.value.0, detected.value.1;
    var height, width := frames[0].height, frames[0].width;
    ghost var labels := Labels(b1, b2, m1, m2, confidence, height, width, |frames|);
    AnnotateDetected(frames, paths, counter, detect, m1, m2, confidence);
    effects := [];
    for i := 0 to |frames|
      invariant i <= |paths|
      invariant effects == ImageEffects(frames, paths, labels, height, width, i)
    {
      var bboxes := m1.filter(b1.Row(i), confidence, height, width);
      if m2.Some? {
        var bboxes2 := m2.value.filter(b2.value.Row(i), confidence, height, width);
        bboxes := bboxes + bboxes2;
      }
      if i >= |paths| {
        return Err(IndexError), effects;
      }
      LabelsIndex(b1, b2, m1, m2, confidence, height, width, |frames|, i);
      ImageEffectsSnoc(frames, paths, labels, height, width, i);
      effects := effects + [WriteXml(paths[i], width, height, bboxes), SaveImages(frames, paths)];
    }
    return Ok(counter), effects;
  }

  /** Annotation once detection has succeeded. */
  lemma AnnotateDetected(grown: seq<Image>, renamed: seq<string>, counter: nat, detect: Detect,
                         m1: Model, m2: Option<Model>, confidence: real)
    requires DetectContract(detect) && DetectBoth(detect, m1, m2, grown).Ok?
    ensures var detected := DetectBoth(detect, m1, m2, grown).value;
            var height, width := grown[0].height, grown[0].width;
            var labels := Labels(detected.0, detected.1, m1, m2, confidence, height, width, |grown|);
            Annotate(grown, renamed, counter, detect, m1, m2, confidence)
            == (if |renamed| < |grown| then Err(IndexError) else Ok(counter),
                ImageEffects(grown, renamed, labels, height, width, Min(|renamed|, |grown|)))
  {
  }

  /** One more round of the per-image loop. */
  lemma ImageEffectsSnoc(frames: seq<Image>, paths: seq<string>, labels: seq<seq<LabelBox>>, height: nat, width: nat, i: nat)
    requires i < |paths| && i < |labels|
    ensures ImageEffects(frames, paths, labels, height, width, i + 1)
            == ImageEffects(frames, paths, labels, height, width, i) + [WriteXml(paths[i], width, height, labels[i]), SaveImages(frames, paths)]
  {
  }

  /** A flush whose last path reads back as `name` and `last` numbers the
      copies on from `last`, ... */
  lemma FlushPaths(frames: seq<Image>, paths: seq<string>, name: string, last: nat, numTransform: int,
                   augment: seq<Image> -> seq<Image>, detect: Detect, m1: Model, m2: Option<Model>, confidence: real)
    requires DetectContract(detect)
    ensures Flush(frames, paths, Ok((name, last)), numTransform, augment, detect, m1, m2, confidence).paths
            == paths + NumberedRun(name, last + 1, |augment(Repeat(frames, numTransform))|)
  {
  }

  /** ... and annotates the grown buffer under its new paths, returning the
      last number used. */
  lemma FlushAnnotates(frames: seq<Image>, paths: seq<string>, name: string, last: nat, numTransform: int,
                       augment: seq<Image> -> seq<Image>, detect: Detect, m1: Model, m2: Option<Model>, confidence: real)
    requires DetectContract(detect)
    ensures var o := Flush(frames, paths, Ok((name, last)), numTransform, augment, detect, m1, m2, confidence);
            (o.counter, o.effects) == Annotate(o.frames, o.paths, last + |augment(Repeat(frames, numTransform))|, detect, m1, m2, confidence)
  {
  }

  /** Annotating a buffer with as many paths as images: it fails exactly
      when a model has no backend, then with no effects; otherwise it
      returns the counter and writes one XML file per image, under its
      path. */
  lemma AnnotateAligned(grown: seq<Image>, renamed: seq<string>, counter: nat, detect: Detect,
                        m1: Model, m2: Option<Model>, confidence: real)
    requires DetectContract(detect)
    requires grown != [] && |renamed| == |grown|
    ensures var (r, effects) := Annotate(grown, renamed, counter, detect, m1, m2, confidence);
            && (r.Ok? <==> ModelsReady(m1, m2))
            && (r.Err? ==> effects == [])
            && (r.Ok? ==> r.value == counter && XmlPaths(effects) == renamed)
  {
    var detected := DetectBoth(detect, m1, m2, grown);
    if detected.Ok? {
      var labels := Labels(detected.value.0, detected.value.1, m1, m2, confidence, grown[0].height, grown[0].width, |grown|);
      ImageEffectsXml(grown, renamed, labels, grown[0].height, grown[0].width, |grown|);
      assert renamed[..|grown|] == renamed;
    }
  }

  /** With an augmenter that returns one image per image, a buffer of `m`
      frames grows to `m * (1 + num_transform)` (no copies when
      `num_transform <= 0`). */
  lemma FlushGrowth(frames: seq<Image>, paths: seq<string>, parsed: Result<(string, nat)>, numTransform: int,
                    augment: seq<Image> -> seq<Image>, detect: Detect, m1: Model, m2: Option<Model>, confidence: real)
    requires DetectContract(detect)
    requires LengthPreserving(augment)
    ensures |Flush(frames, paths, parsed, numTransform, augment, detect, m1, m2, confidence).frames| == |frames| * (1 + Max0(numTransform))
  {
    var aug := augment(Repeat(frames, numTransform));
    assert |aug| == |frames| * Max0(numTransform);
  }

  // ---------------------------------------------------------------- one video

  lemma Distribute(a: int, b: int, c: int)
    ensures (a - b) * c + b * c == a * c
  {
  }

  /** The variables of `main` while a video is read: the frames passed and
      kept, the image counter, the resize target, the buffered frames and
      their paths, and the effects so far. */
  datatype VideoState = VideoState(passed: nat, processed: nat, generated: nat, target: Option<(nat, nat)>,
                                   frames: seq<Image>, paths: seq<string>, effects: seq<Effect>)

  /** Still reading; or a kept frame completed a batch, whose flush comes
      next; or stopped by an exception. */
  datatype Progress = Reading(state: VideoState) | Full(state: VideoState) | Stopped(error: Error, effects: seq<Effect>)

  /** The state a video starts in: the frame counters and the resize target
      carry over from the videos before it, the image counter restarts. */
  function InitialState(counters: Counters): VideoState {
    VideoState(counters.passed, counters.processed, 0, counters.target, [], [], [])
  }

  /** A kept frame: it is counted, named with the next image number, rotated
      and resized to the target (fixed by the first kept frame) and
      buffered. */
  function KeepFrame(cfg: Config, rotate: Option<int>, name: string, outputDir: string, s: VideoState, frame: Image): VideoState {
    var generated := s.generated + 1;
    var target := if s.target.None? then Some(cfg.geometry.targetSize(frame, rotate)) else s.target;
    VideoState(s.passed, s.processed + 1, generated, target,
               s.frames + [cfg.geometry.transform(frame, rotate, target.value)],
               s.paths + [PathJoin(outputDir, NumberedName(name, generated))], s.effects)
  }

  /** The state after a flush with outcome `o`: on success the image
      counter becomes the one returned and the buffer starts afresh. */
  function AfterFlush(s: VideoState, o: FlushOutcome): Progress {
    if o.counter.Err? then Stopped(o.counter.error, s.effects + o.effects)
    else Reading(s.(generated := o.counter.value, frames := [], paths := [], effects := s.effects + o.effects))
  }

  /** A flush of the buffer. */
  function FlushState(cfg: Config, s: VideoState): (p: Progress)
    requires DetectContract(cfg.detect)
    ensures !p.Full?
  {
    AfterFlush(s, Flush(s.frames, s.paths, ParseLast(s.paths), cfg.numTransform, cfg.augment, cfg.detect, cfg.model, cfg.model2, ConfidenceThreshold))
  }

  /** A completed batch is flushed; anything else is left as it is. */
  function Settle(cfg: Config, p: Progress): (q: Progress)
    requires DetectContract(cfg.detect)
    ensures !q.Full?
    ensures !p.Full? ==> q == p
  {
    if p.Full? then FlushState(cfg, p.state) else p
  }

  /** One decoded frame: the `%` by a zero interval or batch size raises
      ZeroDivisionError; a frame off the interval is only counted; a kept
      frame that completes a batch triggers a flush. */
  function Step(cfg: Config, rotate: Option<int>, name: string, outputDir: string, s: VideoState, frame: Image): Progress {
    var passed := s.passed + 1;
    if cfg.numFrameInterval == 0 then Stopped(ZeroDivisionError, s.effects)
    else if passed % cfg.numFrameInterval != 0 then Reading(s.(passed := passed))
    else
      Buffer(cfg, KeepFrame(cfg, rotate, name, outputDir, s.(passed := passed), frame))
  }

  /** After a frame is buffered: the `%` by a zero batch size raises
      ZeroDivisionError, and a full batch waits for its flush. */
  function Buffer(cfg: Config, t: VideoState): Progress {
    if cfg.batchSize == 0 then Stopped(ZeroDivisionError, t.effects)
    else if t.processed % cfg.batchSize != 0 then Reading(t)
    else Full(t)
  }

  /** The frame loop over `frames`, from state `s`. */
  function Run(cfg: Config, rotate: Option<int>, name: string, outputDir: string, s: VideoState, frames: seq<Image>): (p: Progress)
    requires DetectContract(cfg.detect)
    ensures !p.Full?
    decreases |frames|
  {
    if frames == [] then Reading(s)
    else
      var before := Run(cfg, rotate, name, outputDir, s, frames[..|frames| - 1]);
      if before.Reading? then Settle(cfg, Step(cfg, rotate, name, outputDir, before.state, frames[|frames| - 1]))
      else before
  }

  /** After the loop: a leftover buffer is flushed, then the number of images
      generated is reported. */
  function Finish(cfg: Config, outputDir: string, p: Progress): (Result<Counters>, seq<Effect>)
    requires DetectContract(cfg.detect)
  {
    var after := if !p.Stopped? && p.state.frames != [] then FlushState(cfg, p.state) else p;
    if after.Stopped? then (Err(after.error), after.effects)
    else (Ok(Counters(after.state.passed, after.state.processed, after.state.target)),
          after.state.effects + [Report(after.state.generated, outputDir)])
  }

  /** One video: its frame loop, then the leftover flush and the report. */
  function Video(cfg: Config, rotate: Option<int>, counters: Counters, videoPath: string, outputDir: string,
                 decoded: seq<Image>): (Result<Counters>, seq<Effect>)
    requires DetectContract(cfg.detect)
  {
    Finish(cfg, outputDir, Run(cfg, rotate, VideoName(videoPath), outputDir, InitialState(counters), decoded))
  }

  /** The counters after `n` frames of a video: frames passed and kept, and
      the resize target, which the first kept frame fixes. */
  ghost predicate Counted(cfg: Config, counters: Counters, n: nat, s: VideoState) {
    var kept := KeptFrames(counters.passed, n, cfg.numFrameInterval);
    && s.passed == counters.passed + n
    && (n > 0 ==> cfg.numFrameInterval != 0)
    && s.processed == counters.processed + kept
    && (kept > 0 ==> cfg.batchSize != 0)
    && (counters.target.Some? ==> s.target == counters.target)
    && (s.target.Some? <==> counters.target.Some? || kept > 0)
  }

  /** The files after `n` frames of a video: the XML files written so far
      are numbered `1, 2, ..`, the buffer is numbered on from them, and,
      with an augmenter that keeps lengths, each flushed frame accounts for
      `1 + num_transform` files. */
  ghost predicate Numbered(cfg: Config, prefix: string, counters: Counters, n: nat, s: VideoState) {
    Files(prefix, s) && Accounted(cfg, counters, n, s)
  }

  /** The XML files written are numbered `1, 2, ..`, and the buffer, one
      path per frame, is numbered on from them. */
  ghost predicate Files(prefix: string, s: VideoState) {
    var done := |XmlPaths(s.effects)|;
    && |s.frames| == |s.paths|
    && IsRun(XmlPaths(s.effects), prefix, 1)
    && IsRun(s.paths, prefix, done + 1)
    && s.generated == done + |s.paths|
  }

  /** The buffer holds at most the frames kept; the others were flushed,
      which needs the models, and with an augmenter that keeps lengths
      each flushed frame accounts for `1 + num_transform` files. */
  ghost predicate Accounted(cfg: Config, counters: Counters, n: nat, s: VideoState) {
    var kept := KeptFrames(counters.passed, n, cfg.numFrameInterval);
    && (kept > |s.paths| ==> ModelsReady(cfg.model, cfg.model2))
    && |s.paths| <= kept
    && (LengthPreserving(cfg.augment) ==> |XmlPaths(s.effects)| == (kept - |s.paths|) * (1 + Max0(cfg.numTransform)))
  }

  /** What holds after `n` frames of a video while it is still read. */
  ghost predicate Buffered(cfg: Config, prefix: string, counters: Counters, n: nat, s: VideoState) {
    Counted(cfg, counters, n, s) && Numbered(cfg, prefix, counters, n, s)
  }

  /** Between flushes the buffer holds the frames kept since the last
      multiple of the batch size, and at most those of this video. */
  ghost predicate Consistent(cfg: Config, prefix: string, counters: Counters, n: nat, s: VideoState) {
    && Buffered(cfg, prefix, counters, n, s)
    && (cfg.batchSize != 0 ==>
          |s.paths| == Min(KeptFrames(counters.passed, n, cfg.numFrameInterval), s.processed % cfg.batchSize))
  }

  /** Why a video stopped after `n` frames: a zero interval, a zero batch
      size once a frame was kept, or a model without a backend at a flush. */
  ghost predicate StopReason(cfg: Config, counters: Counters, n: nat, e: Error) {
    var kept := KeptFrames(counters.passed, n, cfg.numFrameInterval);
    || (n > 0 && cfg.numFrameInterval == 0 && e == ZeroDivisionError)
    || (cfg.numFrameInterval != 0 && kept > 0 && cfg.batchSize == 0 && e == ZeroDivisionError)
    || (cfg.numFrameInterval != 0 && cfg.batchSize != 0 && kept > 0 && !ModelsReady(cfg.model, cfg.model2))
  }

  /** A buffered state whose batch is complete. */
  ghost predicate Complete(cfg: Config, prefix: string, counters: Counters, n: nat, s: VideoState) {
    && Buffered(cfg, prefix, counters, n, s) && s.paths != []
    && cfg.batchSize != 0 && s.processed % cfg.batchSize == 0
  }

  /** The loop is consistent while reading, holds a complete non-empty
      batch when full, and is stopped only for a reason. */
  ghost predicate Holds(cfg: Config, prefix: string, counters: Counters, n: nat, p: Progress) {
    match p
    case Reading(s) => Consistent(cfg, prefix, counters, n, s)
    case Full(s) => Complete(cfg, prefix, counters, n, s)
    case Stopped(e, _) => StopReason(cfg, counters, n, e)
  }

  /** A frame off the interval is only counted. */
  lemma SkipPreserves(cfg: Config, rotate: Option<int>, name: string, outputDir: string, counters: Counters,
                      n: nat, s: VideoState, frame: Image)
    requires Consistent(cfg, PathJoin(outputDir, name), counters, n, s)
    requires cfg.numFrameInterval != 0 && (s.passed + 1) % cfg.numFrameInterval != 0
    ensures Holds(cfg, PathJoin(outputDir, name), counters, n + 1, Step(cfg, rotate, name, outputDir, s, frame))
  {
    assert Step(cfg, rotate, name, outputDir, s, frame) == Reading(s.(passed := s.passed + 1));
    SkipConsistent(cfg, PathJoin(outputDir, name), counters, n, s);
  }

  lemma SkipConsistent(cfg: Config, prefix: string, counters: Counters, n: nat, s: VideoState)
    requires Consistent(cfg, prefix, counters, n, s)
    requires cfg.numFrameInterval != 0 && (s.passed + 1) % cfg.numFrameInterval != 0
    ensures Consistent(cfg, prefix, counters, n + 1, s.(passed := s.passed + 1))
  {
    assert KeptFrames(counters.passed, n + 1, cfg.numFrameInterval) == KeptFrames(counters.passed, n, cfg.numFrameInterval);
  }

  /** A kept frame: a zero batch size stops the loop, otherwise the frame
      is buffered and may complete a batch. */
  lemma KeptPreserves(cfg: Config, rotate: Option<int>, name: string, outputDir: string, counters: Counters,
                      n: nat, s: VideoState, frame: Image)
    requires Slash !in name
    requires Consistent(cfg, PathJoin(outputDir, name), counters, n, s)
    requires cfg.numFrameInterval != 0 && (s.passed + 1) % cfg.numFrameInterval == 0
    ensures Holds(cfg, PathJoin(outputDir, name), counters, n + 1, Step(cfg, rotate, name, outputDir, s, frame))
  {
    var t := KeepFrame(cfg, rotate, name, outputDir, s.(passed := s.passed + 1), frame);
    assert Step(cfg, rotate, name, outputDir, s, frame) == Buffer(cfg, t);
    KeptBufferHolds(cfg, rotate, name, outputDir, counters, n, s, frame);
  }

  lemma KeptBufferHolds(cfg: Config, rotate: Option<int>, name: string, outputDir: string, counters: Counters,
                        n: nat, s: VideoState, frame: Image)
    requires Slash !in name
    requires Consistent(cfg, PathJoin(outputDir, name), counters, n, s)
    requires cfg.numFrameInterval != 0 && (s.passed + 1) % cfg.numFrameInterval == 0
    ensures Holds(cfg, PathJoin(outputDir, name), counters, n + 1,
                  Buffer(cfg, KeepFrame(cfg, rotate, name, outputDir, s.(passed := s.passed + 1), frame)))
  {
    if cfg.batchSize == 0 {
      KeptZeroBatch(cfg, counters, n, s);
    } else if (s.processed + 1) % cfg.batchSize != 0 {
      KeepPreserves(cfg, rotate, name, outputDir, counters, n, s, frame);
    } else {
      KeptComplete(cfg, rotate, name, outputDir, counters, n, s, frame);
    }
  }

  /** A kept frame with a zero batch size raises ZeroDivisionError. */
  lemma KeptZeroBatch(cfg: Config, counters: Counters, n: nat, s: VideoState)
    requires Counted(cfg, counters, n, s)
    requires cfg.numFrameInterval != 0 && (s.passed + 1) % cfg.numFrameInterval == 0
    requires cfg.batchSize == 0
    ensures StopReason(cfg, counters, n + 1, ZeroDivisionError)
  {
    KeptOneMore(counters.passed, n, cfg.numFrameInterval);
  }

  /** The frame numbered `passed + n + 1` is kept. */
  lemma KeptOneMore(passed: nat, n: nat, interval: int)
    requires interval != 0 && (passed + n + 1) % interval == 0
    ensures KeptFrames(passed, n + 1, interval) == KeptFrames(passed, n, interval) + 1
  {
  }

  /** A frame kept without completing a batch joins the buffer under the
      next number. */
  lemma KeepPreserves(cfg: Config, rotate: Option<int>, name: string, outputDir: string, counters: Counters,
                      n: nat, s: VideoState, frame: Image)
    requires Slash !in name
    requires Consistent(cfg, PathJoin(outputDir, name), counters, n, s)
    requires cfg.numFrameInterval != 0 && (s.passed + 1) % cfg.numFrameInterval == 0
    requires cfg.batchSize != 0
    requires (s.processed + 1) % cfg.batchSize != 0
    ensures Consistent(cfg, PathJoin(outputDir, name), counters, n + 1,
                       KeepFrame(cfg, rotate, name, outputDir, s.(passed := s.passed + 1), frame))
  {
    KeptBuffered(cfg, rotate, name, outputDir, counters, n, s, frame);
    KeptOneMore(counters.passed, n, cfg.numFrameInterval);
    ModSucc(s.processed, cfg.batchSize);
  }

  /** A frame that completes a batch fills it. */
  lemma KeptComplete(cfg: Config, rotate: Option<int>, name: string, outputDir: string, counters: Counters,
                     n: nat, s: VideoState, frame: Image)
    requires Slash !in name
    requires Consistent(cfg, PathJoin(outputDir, name), counters, n, s)
    requires cfg.numFrameInterval != 0 && (s.passed + 1) % cfg.numFrameInterval == 0
    requires cfg.batchSize != 0
    requires (s.processed + 1) % cfg.batchSize == 0
    ensures Complete(cfg, PathJoin(outputDir, name), counters, n + 1,
                     KeepFrame(cfg, rotate, name, outputDir, s.(passed := s.passed + 1), frame))
  {
    KeptBuffered(cfg, rotate, name, outputDir, counters, n, s, frame);
  }

  /** A kept frame is buffered under the next number. */
  lemma KeptBuffered(cfg: Config, rotate: Option<int>, name: string, outputDir: string, counters: Counters,
                     n: nat, s: VideoState, frame: Image)
    requires Slash !in name
    requires Buffered(cfg, PathJoin(outputDir, name), counters, n, s)
    requires cfg.numFrameInterval != 0 && (s.passed + 1) % cfg.numFrameInterval == 0
    requires cfg.batchSize != 0
    ensures Buffered(cfg, PathJoin(outputDir, name), counters, n + 1,
                     KeepFrame(cfg, rotate, name, outputDir, s.(passed := s.passed + 1), frame))
  {
    KeptOneMore(counters.passed, n, cfg.numFrameInterval);
    KeptCounted(cfg, rotate, name, outputDir, counters, n, s, frame);
    KeptNumbered(cfg, rotate, name, outputDir, counters, n, s, frame);
  }

  /** A kept frame is counted, and fixes the target if none is set. */
  lemma KeptCounted(cfg: Config, rotate: Option<int>, name: string, outputDir: string, counters: Counters,
                    n: nat, s: VideoState, frame: Image)
    requires Counted(cfg, counters, n, s)
    requires cfg.numFrameInterval != 0 && cfg.batchSize != 0
    requires KeptFrames(counters.passed, n + 1, cfg.numFrameInterval) == KeptFrames(counters.passed, n, cfg.numFrameInterval) + 1
    ensures Counted(cfg, counters, n + 1, KeepFrame(cfg, rotate, name, outputDir, s.(passed := s.passed + 1), frame))
  {
  }

  /** A kept frame takes the next number. */
  lemma KeptNumbered(cfg: Config, rotate: Option<int>, name: string, outputDir: string, counters: Counters,
                     n: nat, s: VideoState, frame: Image)
    requires Slash !in name
    requires Numbered(cfg, PathJoin(outputDir, name), counters, n, s)
    requires KeptFrames(counters.passed, n + 1, cfg.numFrameInterval) == KeptFrames(counters.passed, n, cfg.numFrameInterval) + 1
    ensures Numbered(cfg, PathJoin(outputDir, name), counters, n + 1,
                     KeepFrame(cfg, rotate, name, outputDir, s.(passed := s.passed + 1), frame))
  {
    KeptFiles(cfg, rotate, name, outputDir, s.(passed := s.passed + 1), frame);
    KeptAccounted(cfg, rotate, name, outputDir, counters, n, s, frame);
  }

  lemma KeptFiles(cfg: Config, rotate: Option<int>, name: string, outputDir: string, s: VideoState, frame: Image)
    requires Slash !in name
    requires Files(PathJoin(outputDir, name), s)
    ensures Files(PathJoin(outputDir, name), KeepFrame(cfg, rotate, name, outputDir, s, frame))
  {
    var prefix := PathJoin(outputDir, name);
    var t := KeepFrame(cfg, rotate, name, outputDir, s, frame);
    JoinNumberedName(outputDir, name, t.generated);
    IsRunSnoc(s.paths, NumberedName(prefix, t.generated), prefix, |XmlPaths(s.effects)| + 1);
  }

  lemma KeptAccounted(cfg: Config, rotate: Option<int>, name: string, outputDir: string, counters: Counters,
                      n: nat, s: VideoState, frame: Image)
    requires Accounted(cfg, counters, n, s)
    requires KeptFrames(counters.passed, n + 1, cfg.numFrameInterval) == KeptFrames(counters.passed, n, cfg.numFrameInterval) + 1
    ensures Accounted(cfg, counters, n + 1, KeepFrame(cfg, rotate, name, outputDir, s.(passed := s.passed + 1), frame))
  {
    var t := KeepFrame(cfg, rotate, name, outputDir, s.(passed := s.passed + 1), frame);
    assert t.effects == s.effects && |t.paths| == |s.paths| + 1;
  }

  /** The flush of a complete batch writes the buffer's XML files, or
      stops because a model has no backend. */
  lemma SettlePreserves(cfg: Config, prefix: string, counters: Counters, n: nat, p: Progress)
    requires DetectContract(cfg.detect)
    requires Holds(cfg, prefix, counters, n, p)
    ensures Holds(cfg, prefix, counters, n, Settle(cfg, p))
  {
    if p.Full? {
      FlushBuffer(cfg, prefix, counters, n, p.state);
      var q := FlushState(cfg, p.state);
      if q.Reading? {
        assert q.state.processed % cfg.batchSize == 0;
      }
    }
  }

  /** What a flush of a buffered state leads to: it succeeds exactly when
      the models have a backend, and then the buffer's files have joined
      the written ones and the buffer is empty. */
  ghost predicate Flushed(cfg: Config, prefix: string, counters: Counters, n: nat, t: VideoState, p: Progress) {
    && (p.Reading? <==> ModelsReady(cfg.model, cfg.model2))
    && (p.Reading? ==> && Buffered(cfg, prefix, counters, n, p.state)
                       && p.state.paths == [] && p.state.processed == t.processed
                       && p.state.generated == |XmlPaths(p.state.effects)|)
    && (p.Stopped? ==> StopReason(cfg, counters, n, p.error))
  }

  /** A flush outcome that numbers the grown buffer from `start` on: its
      paths and its XML files run on from there, and it succeeds exactly
      when the models have a backend. */
  ghost predicate NumbersOn(cfg: Config, prefix: string, start: nat, o: FlushOutcome) {
    && IsRun(o.paths, prefix, start) && |o.frames| == |o.paths|
    && (o.counter.Ok? <==> ModelsReady(cfg.model, cfg.model2))
    && (o.counter.Ok? ==> o.counter.value + 1 == start + |o.paths| && XmlPaths(o.effects) == o.paths)
  }

  /** Flushing a non-empty buffered state. */
  lemma FlushBuffer(cfg: Config, prefix: string, counters: Counters, n: nat, t: VideoState)
    requires DetectContract(cfg.detect)
    requires Buffered(cfg, prefix, counters, n, t) && t.paths != []
    ensures Flushed(cfg, prefix, counters, n, t, FlushState(cfg, t))
  {
    var start := |XmlPaths(t.effects)| + 1;
    var last := start + |t.paths| - 1;
    var o := Flush(t.frames, t.paths, ParseLast(t.paths), cfg.numTransform, cfg.augment, cfg.detect,
                   cfg.model, cfg.model2, ConfidenceThreshold);
    ParseLastOfRun(prefix, start, t.paths);
    FlushContinues(cfg, prefix, last, t.frames, t.paths);
    NumbersOnOf(cfg, prefix, start, t.paths, last, o);
    if LengthPreserving(cfg.augment) {
      FlushGrowth(t.frames, t.paths, ParseLast(t.paths), cfg.numTransform, cfg.augment, cfg.detect,
                  cfg.model, cfg.model2, ConfidenceThreshold);
    }
    AfterFlushHolds(cfg, prefix, counters, n, t, o);
  }

  /** A flush outcome that continues `paths` from number `last + 1` on: the
      new paths take the next numbers, the counter returned is the last
      number used, and it fails only when a model has no backend; one XML
      file is written per image of the grown buffer, under its path. */
  ghost predicate Continues(cfg: Config, prefix: string, last: nat, paths: seq<string>, o: FlushOutcome) {
    && |paths| <= |o.paths| == |o.frames|
    && o.paths == paths + NumberedRun(prefix, last + 1, |o.paths| - |paths|)
    && (o.counter.Ok? <==> ModelsReady(cfg.model, cfg.model2))
    && (o.counter.Ok? ==> o.counter.value == last + |o.paths| - |paths| && XmlPaths(o.effects) == o.paths)
  }

  /** The flush of a buffer with one path per frame, whose last path reads
      back as `prefix` and number `last`, continues its paths. */
  lemma FlushContinues(cfg: Config, prefix: string, last: nat, frames: seq<Image>, paths: seq<string>)
    requires DetectContract(cfg.detect)
    requires |frames| == |paths| > 0
    ensures Continues(cfg, prefix, last, paths,
                      Flush(frames, paths, Ok((prefix, last)), cfg.numTransform, cfg.augment, cfg.detect, cfg.model, cfg.model2, ConfidenceThreshold))
  {
    var k := |cfg.augment(Repeat(frames, cfg.numTransform))|;
    var o := Flush(frames, paths, Ok((prefix, last)), cfg.numTransform, cfg.augment, cfg.detect, cfg.model, cfg.model2, ConfidenceThreshold);
    FlushPaths(frames, paths, prefix, last, cfg.numTransform, cfg.augment, cfg.detect, cfg.model, cfg.model2, ConfidenceThreshold);
    FlushAnnotates(frames, paths, prefix, last, cfg.numTransform, cfg.augment, cfg.detect, cfg.model, cfg.model2, ConfidenceThreshold);
    AnnotateAligned(o.frames, o.paths, last + k, cfg.detect, cfg.model, cfg.model2, ConfidenceThreshold);
  }

  /** A flush that continues a numbered buffer numbers on from its start. */
  lemma NumbersOnOf(cfg: Config, prefix: string, start: nat, paths: seq<string>, last: nat, o: FlushOutcome)
    requires IsRun(paths, prefix, start) && last + 1 == start + |paths|
    requires Continues(cfg, prefix, last, paths, o)
    ensures NumbersOn(cfg, prefix, start, o)
  {
    var k := |o.paths| - |paths|;
    IsRunOfNumberedRun(prefix, last + 1, k);
    IsRunAppend(paths, NumberedRun(prefix, last + 1, k), prefix, start);
  }

  /** The bookkeeping of a flush, for any outcome that numbers on. */
  lemma AfterFlushHolds(cfg: Config, prefix: string, counters: Counters, n: nat, t: VideoState, o: FlushOutcome)
    requires Buffered(cfg, prefix, counters, n, t) && t.paths != []
    requires NumbersOn(cfg, prefix, |XmlPaths(t.effects)| + 1, o)
    requires LengthPreserving(cfg.augment) ==> |o.frames| == |t.frames| * (1 + Max0(cfg.numTransform))
    ensures Flushed(cfg, prefix, counters, n, t, AfterFlush(t, o))
  {
    if o.counter.Ok? {
      AfterFlushNumbered(cfg, prefix, counters, n, t, o);
    }
  }

  /** A successful flush adds the buffer's files, and those of its copies,
      to the written ones. */
  lemma AfterFlushNumbered(cfg: Config, prefix: string, counters: Counters, n: nat, t: VideoState, o: FlushOutcome)
    requires Numbered(cfg, prefix, counters, n, t) && t.paths != []
    requires NumbersOn(cfg, prefix, |XmlPaths(t.effects)| + 1, o)
    requires LengthPreserving(cfg.augment) ==> |o.frames| == |t.frames| * (1 + Max0(cfg.numTransform))
    requires o.counter.Ok?
    ensures Numbered(cfg, prefix, counters, n, AfterFlush(t, o).state)
  {
    WrittenRun(prefix, t.effects, o.effects, o.paths);
    if LengthPreserving(cfg.augment) {
      Distribute(KeptFrames(counters.passed, n, cfg.numFrameInterval), |t.paths|, 1 + Max0(cfg.numTransform));
    }
  }

  /** XML files numbered on from those already written extend their run. */
  lemma WrittenRun(prefix: string, written: seq<Effect>, added: seq<Effect>, paths: seq<string>)
    requires IsRun(XmlPaths(written), prefix, 1)
    requires IsRun(paths, prefix, |XmlPaths(written)| + 1)
    requires XmlPaths(added) == paths
    ensures IsRun(XmlPaths(written + added), prefix, 1)
    ensures |XmlPaths(written + added)| == |XmlPaths(written)| + |paths|
  {
    XmlPathsAppend(written, added);
    IsRunAppend(XmlPaths(written), paths, prefix, 1);
  }

  /** One frame keeps the loop consistent, or stops it for a reason. */
  lemma StepPreserves(cfg: Config, rotate: Option<int>, name: string, outputDir: string, counters: Counters,
                      n: nat, s: VideoState, frame: Image)
    requires Slash !in name
    requires Consistent(cfg, PathJoin(outputDir, name), counters, n, s)
    ensures Holds(cfg, PathJoin(outputDir, name), counters, n + 1, Step(cfg, rotate, name, outputDir, s, frame))
  {
    var interval := cfg.numFrameInterval;
    if interval == 0 {
      assert Step(cfg, rotate, name, outputDir, s, frame) == Stopped(ZeroDivisionError, s.effects);
    } else if (s.passed + 1) % interval != 0 {
      SkipPreserves(cfg, rotate, name, outputDir, counters, n, s, frame);
    } else {
      KeptPreserves(cfg, rotate, name, outputDir, counters, n, s, frame);
    }
  }

  /** The frame loop keeps its state consistent, and stops only for a reason. */
  lemma {:induction false} RunInvariant(cfg: Config, rotate: Option<int>, name: string, outputDir: string,
                                        counters: Counters, frames: seq<Image>)
    requires DetectContract(cfg.detect)
    requires Slash !in name
    ensures Holds(cfg, PathJoin(outputDir, name), counters, |frames|, Run(cfg, rotate, name, outputDir, InitialState(counters), frames))
    decreases |frames|
  {
    if frames != [] {
      var n := |frames| - 1;
      RunInvariant(cfg, rotate, name, outputDir, counters, frames[..n]);
      assert frames[..|frames| - 1] == frames[..n];
      NextHolds(cfg, rotate, name, outputDir, counters, n,
                Run(cfg, rotate, name, outputDir, InitialState(counters), frames[..n]), frames[n]);
    }
  }

  /** One more frame keeps the loop's invariant, whether it is still read
      or the loop has stopped. */
  lemma NextHolds(cfg: Config, rotate: Option<int>, name: string, outputDir: string, counters: Counters,
                  n: nat, before: Progress, frame: Image)
    requires DetectContract(cfg.detect)
    requires Slash !in name
    requires !before.Full? && Holds(cfg, PathJoin(outputDir, name), counters, n, before)
    ensures Holds(cfg, PathJoin(outputDir, name), counters, n + 1,
                  if before.Reading? then Settle(cfg, Step(cfg, rotate, name, outputDir, before.state, frame)) else before)
  {
    if before.Reading? {
      var s := before.state;
      StepPreserves(cfg, rotate, name, outputDir, counters, n, s, frame);
      SettlePreserves(cfg, PathJoin(outputDir, name), counters, n + 1, Step(cfg, rotate, name, outputDir, s, frame));
    } else {
      KeptFramesMonotone(counters.passed, n, n + 1, cfg.numFrameInterval);
    }
  }

  /** A stopped loop ignores one more frame. */
  lemma RunStoppedStep(cfg: Config, rotate: Option<int>, name: string, outputDir: string,
                       s: VideoState, frames: seq<Image>)
    requires DetectContract(cfg.detect)
    requires frames != [] && Run(cfg, rotate, name, outputDir, s, frames[..|frames| - 1]).Stopped?
    ensures Run(cfg, rotate, name, outputDir, s, frames) == Run(cfg, rotate, name, outputDir, s, frames[..|frames| - 1])
  {
  }

  /** Once stopped, the loop stays stopped with the same exception. */
  lemma {:induction false} RunStaysStopped(cfg: Config, rotate: Option<int>, name: string, outputDir: string,
                                           s: VideoState, frames: seq<Image>, k: nat)
    requires DetectContract(cfg.detect)
    requires k <= |frames|
    requires Run(cfg, rotate, name, outputDir, s, frames[..k]).Stopped?
    ensures Run(cfg, rotate, name, outputDir, s, frames) == Run(cfg, rotate, name, outputDir, s, frames[..k])
    decreases |frames| - k
  {
    if k < |frames| {
      assert frames[..k + 1][..k] == frames[..k];
      RunStoppedStep(cfg, rotate, name, outputDir, s, frames[..k + 1]);
      RunStaysStopped(cfg, rotate, name, outputDir, s, frames, k + 1);
    } else {
      assert frames[..k] == frames;
    }
  }

  // ---------------------------------------------------------------- end of a video

  /** What the frame counters promise after `total` frames, of one video
      or of several. The run succeeds exactly when no `%` divides by zero
      and, once a frame is kept, the models have a backend. On success the
      counters count every frame on from `counters`: they are not reset
      between videos, so frames are sampled by their running number over
      all videos; and the first kept frame of all fixes the resize
      target. */
  ghost predicate CountsDone(cfg: Config, counters: Counters, total: nat, r: Result<Counters>) {
    var kept := KeptFrames(counters.passed, total, cfg.numFrameInterval);
    && (r.Ok? <==> && (total > 0 ==> cfg.numFrameInterval != 0)
                   && (kept > 0 ==> cfg.batchSize != 0 && ModelsReady(cfg.model, cfg.model2)))
    && (r.Ok? ==> && r.value.passed == counters.passed + total
                  && r.value.processed == counters.processed + kept
                  && (counters.target.Some? ==> r.value.target == counters.target)
                  && (r.value.target.Some? <==> counters.target.Some? || kept > 0))
  }

  /** What one video of `n` frames promises: its counters as above, and a
      stop only for a reason. On success the XML files are numbered
      `prefix_1.jpg, prefix_2.jpg, ..` and the last effect reports their
      number; with an augmenter that keeps lengths there are
      `1 + num_transform` of them per kept frame. */
  ghost predicate VideoDone(cfg: Config, prefix: string, outputDir: string, counters: Counters, n: nat,
                            r: Result<Counters>, effects: seq<Effect>) {
    var kept := KeptFrames(counters.passed, n, cfg.numFrameInterval);
    var written := XmlPaths(effects);
    && CountsDone(cfg, counters, n, r)
    && (r.Err? ==> StopReason(cfg, counters, n, r.error))
    && (r.Ok? ==> && effects != [] && effects[|effects| - 1] == Report(|written|, outputDir)
                  && IsRun(written, prefix, 1))
    && (r.Ok? && LengthPreserving(cfg.augment) ==> |written| == kept * (1 + Max0(cfg.numTransform)))
  }

  /** The report after an empty buffer. */
  lemma ReportDone(cfg: Config, prefix: string, outputDir: string, counters: Counters, n: nat, s: VideoState)
    requires Buffered(cfg, prefix, counters, n, s) && s.paths == []
    ensures VideoDone(cfg, prefix, outputDir, counters, n, Ok(Counters(s.passed, s.processed, s.target)),
                      s.effects + [Report(s.generated, outputDir)])
  {
    XmlPathsAppend(s.effects, [Report(s.generated, outputDir)]);
    assert XmlPaths([Report(s.generated, outputDir)]) == [];
    assert s.effects + [Report(s.generated, outputDir)] == s.effects + [Report(s.generated, outputDir)] + [];
  }

  /** The end of a video: whatever state the frame loop held, the leftover
      flush and the report keep its promise. */
  lemma FinishDone(cfg: Config, prefix: string, outputDir: string, counters: Counters, n: nat, p: Progress)
    requires DetectContract(cfg.detect)
    requires !p.Full? && Holds(cfg, prefix, counters, n, p)
    ensures VideoDone(cfg, prefix, outputDir, counters, n, Finish(cfg, outputDir, p).0, Finish(cfg, outputDir, p).1)
  {
    if p.Reading? {
      var s := p.state;
      if s.frames != [] {
        FlushBuffer(cfg, prefix, counters, n, s);
        var q := FlushState(cfg, s);
        if q.Reading? {
          ReportDone(cfg, prefix, outputDir, counters, n, q.state);
        }
      } else {
        ReportDone(cfg, prefix, outputDir, counters, n, s);
      }
    }
  }

  /** One video keeps its promise. */
  lemma VideoFacts(cfg: Config, rotate: Option<int>, counters: Counters, videoPath: string, outputDir: string,
                   decoded: seq<Image>)
    requires DetectContract(cfg.detect)
    ensures var (r, effects) := Video(cfg, rotate, counters, videoPath, outputDir, decoded);
            VideoDone(cfg, VideoPrefix(outputDir, videoPath), outputDir, counters, |decoded|, r, effects)
  {
    var name := VideoName(videoPath);
    RunInvariant(cfg, rotate, name, outputDir, counters, decoded);
    FinishDone(cfg, PathJoin(outputDir, name), outputDir, counters, |decoded|,
               Run(cfg, rotate, name, outputDir, InitialState(counters), decoded));
  }

  /** One video's counters keep their promise. */
  lemma VideoCounts(cfg: Config, rotate: Option<int>, counters: Counters, videoPath: string, outputDir: string,
                    decoded: seq<Image>, r: Result<Counters>)
    requires DetectContract(cfg.detect)
    requires r == Video(cfg, rotate, counters, videoPath, outputDir, decoded).0
    ensures CountsDone(cfg, counters, |decoded|, r)
  {
    VideoFacts(cfg, rotate, counters, videoPath, outputDir, decoded);
  }

  // ---------------------------------------------------------------- the loop of `main` over one video

  /** One more frame of a loop still reading. */
  lemma RunNext(cfg: Config, rotate: Option<int>, name: string, outputDir: string, start: VideoState,
                frames: seq<Image>, i: nat, s: VideoState)
    requires DetectContract(cfg.detect)
    requires i < |frames| && Run(cfg, rotate, name, outputDir, start, frames[..i]) == Reading(s)
    ensures Run(cfg, rotate, name, outputDir, start, frames[..i + 1])
            == Settle(cfg, Step(cfg, rotate, name, outputDir, s, frames[i]))
  {
    assert frames[..i + 1][..i] == frames[..i];
  }

  /** The flush of `t` given the counter and the effects of
      `process_frame_batch` on its buffer. */
  lemma FlushStateOf(cfg: Config, t: VideoState, counter: Result<nat>, written: seq<Effect>)
    requires DetectContract(cfg.detect)
    requires var o := Flush(t.frames, t.paths, ParseLast(t.paths), cfg.numTransform, cfg.augment,
                            cfg.detect, cfg.model, cfg.model2, ConfidenceThreshold);
             counter == o.counter && written == o.effects
    ensures FlushState(cfg, t)
            == if counter.Err? then Stopped(counter.error, t.effects + written)
               else Reading(t.(generated := counter.value, frames := [], paths := [], effects := t.effects + written))
  {
  }

  /** A frame off the interval is only counted. */
  lemma SkipStep(cfg: Config, rotate: Option<int>, name: string, outputDir: string, s: VideoState, frame: Image)
    requires cfg.numFrameInterval != 0 && (s.passed + 1) % cfg.numFrameInterval != 0
    ensures Step(cfg, rotate, name, outputDir, s, frame) == Reading(s.(passed := s.passed + 1))
  {
  }

  /** A kept frame is buffered ... */
  lemma KeepStep(cfg: Config, rotate: Option<int>, name: string, outputDir: string, s: VideoState, frame: Image)
    requires cfg.numFrameInterval != 0 && (s.passed + 1) % cfg.numFrameInterval == 0
    ensures Step(cfg, rotate, name, outputDir, s, frame)
            == Buffer(cfg, KeepFrame(cfg, rotate, name, outputDir, s.(passed := s.passed + 1), frame))
  {
  }

  /** One pass of the `while True` loop on a decoded frame, from the loop
      variables (the buffer is `batch`): the frame is counted, and a kept
      frame is named, rotated, resized and buffered; a full buffer is
      flushed and a fresh one started. */
  method ReadFrame(cfg: Config, rotate: Option<int>, name: string, outputDir: string,
                   passed0: nat, processed0: nat, generated0: nat, target0: Option<(nat, nat)>,
                   batch: FrameBatch, effects0: seq<Effect>, frame: Image)
    returns (stop: Option<Error>, passed: nat, processed: nat, generated: nat, target: Option<(nat, nat)>,
             next: FrameBatch, effects: seq<Effect>)
    requires DetectContract(cfg.detect)
    modifies batch
    ensures next == batch || fresh(next)
    ensures Settle(cfg, Step(cfg, rotate, name, outputDir,
                             VideoState(passed0, processed0, generated0, target0, old(batch.frames), old(batch.paths), effects0), frame))
            == if stop.None? then Reading(VideoState(passed, processed, generated, target, next.frames, next.paths, effects))
               else Stopped(stop.value, effects)
  {
    ghost var s := VideoState(passed0, processed0, generated0, target0, batch.frames, batch.paths, effects0);
    passed, processed, generated, target, next, effects := passed0 + 1, processed0, generated0, target0, batch, effects0;
    if cfg.numFrameInterval == 0 {
      return Some(ZeroDivisionError), passed, processed, generated, target, next, effects;
    }
    if passed % cfg.numFrameInterval != 0 {
      SkipStep(cfg, rotate, name, outputDir, s, frame);
      return None, passed, processed, generated, target, next, effects;
    }
    KeepStep(cfg, rotate, name, outputDir, s, frame);
    ghost var t := KeepFrame(cfg, rotate, name, outputDir, s.(passed := passed), frame);
    processed := processed + 1;
    generated := generated + 1;
    batch.paths := batch.paths + [PathJoin(outputDir, NumberedName(name, generated))];
    if target.None? {
      target := Some(cfg.geometry.targetSize(frame, rotate));
    }
    batch.frames := batch.frames + [cfg.geometry.transform(frame, rotate, target.value)];
    assert t == VideoState(passed, processed, generated, target, batch.frames, batch.paths, effects);
    if cfg.batchSize == 0 {
      return Some(ZeroDivisionError), passed, processed, generated, target, next, effects;
    }
    if processed % cfg.batchSize != 0 {
      return None, passed, processed, generated, target, next, effects;
    }
    var counter, written := ProcessFrameBatch(batch, cfg.numTransform, cfg.augment, cfg.detect,
                                              cfg.model, cfg.model2, ConfidenceThreshold);
    FlushStateOf(cfg, t, counter, written);
    effects := effects + written;
    if counter.Err? {
      return Some(counter.error), passed, processed, generated, target, next, effects;
    }
    generated := counter.value;
    next := new FrameBatch();
    stop := None;
  }

  /** The `while True` loop over the decoded frames of one video, from the
      counters the videos before it left, the image counter at 0 and empty
      frame lists. It ends when the frames run out, with the loop
      variables, or at the first exception. */
  method ReadFrames(cfg: Config, rotate: Option<int>, name: string, outputDir: string, counters: Counters,
                    decoded: seq<Image>)
    returns (stop: Option<Error>, passed: nat, processed: nat, generated: nat, target: Option<(nat, nat)>,
             batch: FrameBatch, effects: seq<Effect>)
    requires DetectContract(cfg.detect)
    ensures fresh(batch)
    ensures Run(cfg, rotate, name, outputDir, InitialState(counters), decoded)
            == if stop.None? then Reading(VideoState(passed, processed, generated, target, batch.frames, batch.paths, effects))
               else Stopped(stop.value, effects)
  {
    passed, processed, generated, target := counters.passed, counters.processed, 0, counters.target;
    batch := new FrameBatch();
    effects := [];
    ghost var start := InitialState(counters);
    var i := 0;
    while i < |decoded|
      invariant i <= |decoded|
      invariant fresh(batch)
      invariant Run(cfg, rotate, name, outputDir, start, decoded[..i])
                == Reading(VideoState(passed, processed, generated, target, batch.frames, batch.paths, effects))
    {
      RunNext(cfg, rotate, name, outputDir, start, decoded, i,
              VideoState(passed, processed, generated, target, batch.frames, batch.paths, effects));
      stop, passed, processed, generated, target, batch, effects :=
        ReadFrame(cfg, rotate, name, outputDir, passed, processed, generated, target, batch, effects, decoded[i]);
      if stop.Some? {
        RunStaysStopped(cfg, rotate, name, outputDir, start, decoded, i + 1);
        return;
      }
      i := i + 1;
    }
    assert decoded[..i] == decoded;
    stop := None;
  }

  /** The body of the `for video_path, output_dir in ...` loop for one video,
      given its decoded frames: the frame loop, the leftover flush and the
      report. */
  method ProcessVideo(cfg: Config, rotate: Option<int>, counters: Counters, videoPath: string, outputDir: string,
                      decoded: seq<Image>)
    returns (r: Result<Counters>, effects: seq<Effect>)
    requires DetectContract(cfg.detect)
    ensures (r, effects) == Video(cfg, rotate, counters, videoPath, outputDir, decoded)
  {
    var name := VideoName(videoPath);
    var stop, passed, processed, generated, target, batch, written := ReadFrames(cfg, rotate, name, outputDir, counters, decoded);
    effects := written;
    if stop.Some? {
      return Err(stop.value), effects;
    }
    ghost var s := VideoState(passed, processed, generated, target, batch.frames, batch.paths, effects);
    if batch.frames != [] {
      ghost var o := Flush(batch.frames, batch.paths, ParseLast(batch.paths), cfg.numTransform, cfg.augment,
                           cfg.detect, cfg.model, cfg.model2, ConfidenceThreshold);
      assert FlushState(cfg, s) == AfterFlush(s, o);
      var counter, added := ProcessFrameBatch(batch, cfg.numTransform, cfg.augment, cfg.detect,
                                              cfg.model, cfg.model2, ConfidenceThreshold);
      effects := effects + added;
      if counter.Err? {
        return Err(counter.error), effects;
      }
      generated := counter.value;
    }
    effects := effects + [Report(generated, outputDir)];
    return Ok(Counters(passed, processed, target)), effects;
  }

  // ---------------------------------------------------------------- the loop of `main` over the videos

  /** The videos paired with their output directories, as `zip` pairs
      them: up to the shorter of the two lists. */
  function Zip(videoPaths: seq<string>, outputDirs: seq<string>): (pairs: seq<(string, string)>)
    ensures |pairs| == Min(|videoPaths|, |outputDirs|)
    ensures forall i :: 0 <= i < |pairs| ==> pairs[i].0 == videoPaths[i] && pairs[i].1 == outputDirs[i]
  {
    seq(Min(|videoPaths|, |outputDirs|), i requires 0 <= i < Min(|videoPaths|, |outputDirs|) => (videoPaths[i], outputDirs[i]))
  }

  /** The number of frames decoded from the videos of `pairs`. */
  function TotalFrames(pairs: seq<(string, string)>, decode: string -> seq<Image>): nat
    decreases |pairs|
  {
    if pairs == [] then 0 else TotalFrames(pairs[..|pairs| - 1], decode) + |decode(pairs[|pairs| - 1].0)|
  }

  /** The videos of `pairs` one after another, from `counters`: the frame
      counters and the resize target carry from each video into the next,
      and the first exception ends the run. `decode` gives a video's
      frames. */
  function Videos(cfg: Config, rotate: Option<int>, counters: Counters, pairs: seq<(string, string)>,
                  decode: string -> seq<Image>): (Result<Counters>, seq<Effect>)
    requires DetectContract(cfg.detect)
    decreases |pairs|
  {
    if pairs == [] then (Ok(counters), [])
    else
      var before := Videos(cfg, rotate, counters, pairs[..|pairs| - 1], decode);
      if before.0.Err? then before
      else
        var videoPath := pairs[|pairs| - 1].0;
        var after := Video(cfg, rotate, before.0.value, videoPath, pairs[|pairs| - 1].1, decode(videoPath));
        (after.0, before.1 + after.1)
  }

  /** `main` once the models are loaded: the `rotate` check, then the
      videos from zeroed counters and no resize target. */
  function Pipeline(cfg: Config, rotate: Option<int>, videoPaths: seq<string>, outputDirs: seq<string>,
                    decode: string -> seq<Image>): (Result<Counters>, seq<Effect>)
    requires DetectContract(cfg.detect)
  {
    var checked := ValidateRotate(rotate);
    if checked.Err? then (Err(checked.error), [])
    else Videos(cfg, checked.value, Counters(0, 0, None), Zip(videoPaths, outputDirs), decode)
  }

  /** The videos keep their promise. */
  lemma {:induction false} VideosFacts(cfg: Config, rotate: Option<int>, counters: Counters,
                                       pairs: seq<(string, string)>, decode: string -> seq<Image>)
    requires DetectContract(cfg.detect)
    ensures CountsDone(cfg, counters, TotalFrames(pairs, decode), Videos(cfg, rotate, counters, pairs, decode).0)
    decreases |pairs|
  {
    if pairs != [] {
      var front := pairs[..|pairs| - 1];
      VideosFacts(cfg, rotate, counters, front, decode);
      if Videos(cfg, rotate, counters, front, decode).0.Ok? {
        VideosOk(cfg, rotate, counters, pairs, decode);
      } else {
        VideosErr(cfg, rotate, counters, pairs, decode);
      }
    }
  }

  /** A video after earlier ones that succeeded ... */
  lemma VideosOk(cfg: Config, rotate: Option<int>, counters: Counters, pairs: seq<(string, string)>,
                 decode: string -> seq<Image>)
    requires DetectContract(cfg.detect)
    requires pairs != []
    requires var front := Videos(cfg, rotate, counters, pairs[..|pairs| - 1], decode).0;
             front.Ok? && CountsDone(cfg, counters, TotalFrames(pairs[..|pairs| - 1], decode), front)
    ensures CountsDone(cfg, counters, TotalFrames(pairs, decode), Videos(cfg, rotate, counters, pairs, decode).0)
  {
    var front := pairs[..|pairs| - 1];
    var before := Videos(cfg, rotate, counters, front, decode).0;
    var videoPath, outputDir := pairs[|pairs| - 1].0, pairs[|pairs| - 1].1;
    VideoAfter(cfg, rotate, counters, TotalFrames(front, decode), before, videoPath, outputDir, decode(videoPath),
               TotalFrames(pairs, decode), Videos(cfg, rotate, counters, pairs, decode).0);
  }

  /** A video after `a` frames of earlier videos that succeeded adds its
      frames to the counts. */
  lemma VideoAfter(cfg: Config, rotate: Option<int>, counters: Counters, a: nat, before: Result<Counters>,
                   videoPath: string, outputDir: string, decoded: seq<Image>, total: nat, r: Result<Counters>)
    requires DetectContract(cfg.detect)
    requires CountsDone(cfg, counters, a, before) && before.Ok?
    requires total == a + |decoded| && r == Video(cfg, rotate, before.value, videoPath, outputDir, decoded).0
    ensures CountsDone(cfg, counters, total, r)
  {
    KeptFramesAppend(counters.passed, a, |decoded|, cfg.numFrameInterval);
    VideoCounts(cfg, rotate, before.value, videoPath, outputDir, decoded, r);
    VideosStep(cfg, counters, a, |decoded|, total, before, r, r);
  }

  /** ... or after one that raised. */
  lemma VideosErr(cfg: Config, rotate: Option<int>, counters: Counters, pairs: seq<(string, string)>,
                  decode: string -> seq<Image>)
    requires DetectContract(cfg.detect)
    requires pairs != []
    requires var front := Videos(cfg, rotate, counters, pairs[..|pairs| - 1], decode).0;
             front.Err? && CountsDone(cfg, counters, TotalFrames(pairs[..|pairs| - 1], decode), front)
    ensures CountsDone(cfg, counters, TotalFrames(pairs, decode), Videos(cfg, rotate, counters, pairs, decode).0)
  {
    var a := TotalFrames(pairs[..|pairs| - 1], decode);
    KeptFramesMonotone(counters.passed, a, TotalFrames(pairs, decode), cfg.numFrameInterval);
  }

  /** A video after `a` frames of earlier videos adds its `b` frames to the
      counts. */
  lemma VideosStep(cfg: Config, counters: Counters, a: nat, b: nat, total: nat, before: Result<Counters>,
                   video: Result<Counters>, r: Result<Counters>)
    requires CountsDone(cfg, counters, a, before) && before.Ok?
    requires CountsDone(cfg, before.value, b, video)
    requires KeptFrames(counters.passed, a + b, cfg.numFrameInterval)
             == KeptFrames(counters.passed, a, cfg.numFrameInterval) + KeptFrames(counters.passed + a, b, cfg.numFrameInterval)
    requires total == a + b && r == video
    ensures CountsDone(cfg, counters, total, r)
  {
  }

  /** `main`: a bad `rotate` raises ValueError before any video is read;
      otherwise the videos keep their promise, counted over the frames of
      the videos `zip` pairs with an output directory. */
  lemma PipelineFacts(cfg: Config, rotate: Option<int>, videoPaths: seq<string>, outputDirs: seq<string>,
                      decode: string -> seq<Image>)
    requires DetectContract(cfg.detect)
    ensures var r := Pipeline(cfg, rotate, videoPaths, outputDirs, decode);
            && (rotate.Some? && rotate.value % 90 != 0 ==> r == (Err(ValueError(InvalidRotateMessage)), []))
            && (rotate.None? || rotate.value % 90 == 0 ==>
                  CountsDone(cfg, Counters(0, 0, None), TotalFrames(Zip(videoPaths, outputDirs), decode), r.0))
  {
    var checked := ValidateRotate(rotate);
    if checked.Ok? {
      VideosFacts(cfg, checked.value, Counters(0, 0, None), Zip(videoPaths, outputDirs), decode);
    }
  }

  /** One more video of a run that has not stopped. */
  lemma VideosNext(cfg: Config, rotate: Option<int>, counters: Counters, pairs: seq<(string, string)>,
                   decode: string -> seq<Image>, i: nat, current: Counters, effects: seq<Effect>,
                   r: Result<Counters>, added: seq<Effect>)
    requires DetectContract(cfg.detect)
    requires i < |pairs| && Videos(cfg, rotate, counters, pairs[..i], decode) == (Ok(current), effects)
    requires (r, added) == Video(cfg, rotate, current, pairs[i].0, pairs[i].1, decode(pairs[i].0))
    ensures Videos(cfg, rotate, counters, pairs[..i + 1], decode) == (r, effects + added)
  {
    assert pairs[..i + 1][..i] == pairs[..i];
  }

  /** Once a video raises, the later videos are not read. */
  lemma {:induction false} VideosStayStopped(cfg: Config, rotate: Option<int>, counters: Counters,
                                             pairs: seq<(string, string)>, decode: string -> seq<Image>, k: nat)
    requires DetectContract(cfg.detect)
    requires k <= |pairs| && Videos(cfg, rotate, counters, pairs[..k], decode).0.Err?
    ensures Videos(cfg, rotate, counters, pairs, decode) == Videos(cfg, rotate, counters, pairs[..k], decode)
    decreases |pairs| - k
  {
    if k < |pairs| {
      assert pairs[..k + 1][..k] == pairs[..k];
      VideosStayStopped(cfg, rotate, counters, pairs, decode, k + 1);
    } else {
      assert pairs[..k] == pairs;
    }
  }

  /** The `for video_path, output_dir in zip(...)` loop of `main`, which
      carries the frame counters and the resize target from one video to
      the next. */
  method ProcessVideos(cfg: Config, rotate: Option<int>, videoPaths: seq<string>, outputDirs: seq<string>,
                       decode: string -> seq<Image>)
    returns (r: Result<Counters>, effects: seq<Effect>)
    requires DetectContract(cfg.detect)
    ensures (r, effects) == Videos(cfg, rotate, Counters(0, 0, None), Zip(videoPaths, outputDirs), decode)
  {
    ghost var pairs := Zip(videoPaths, outputDirs);
    r, effects := Ok(Counters(0, 0, None)), [];
    var i := 0;
    while r.Ok? && i < |videoPaths| && i < |outputDirs|
      invariant i <= |pairs|
      invariant Videos(cfg, rotate, Counters(0, 0, None), pairs[..i], decode) == (r, effects)
    {
      var videoPath, outputDir := videoPaths[i], outputDirs[i];
      assert pairs[i].0 == videoPath && pairs[i].1 == outputDir;
      var result, added := ProcessVideo(cfg, rotate, r.value, videoPath, outputDir, decode(videoPath));
      VideosNext(cfg, rotate, Counters(0, 0, None), pairs, decode, i, r.value, effects, result, added);
      r, effects := result, effects + added;
      i := i + 1;
    }
    if r.Err? {
      VideosStayStopped(cfg, rotate, Counters(0, 0, None), pairs, decode, i);
    } else {
      assert pairs[..i] == pairs;
    }
  }

  /** `main` after the models are loaded: the `rotate` check, then the
      videos. */
  method ConvertVideos(cfg: Config, rotate: Option<int>, videoPaths: seq<string>, outputDirs: seq<string>,
                       decode: string -> seq<Image>)
    returns (r: Result<Counters>, effects: seq<Effect>)
    requires DetectContract(cfg.detect)
    ensures (r, effects) == Pipeline(cfg, rotate, videoPaths, outputDirs, decode)
  {
    var rot := rotate;
    if rotate.Some? {
      if rotate.value % 90 != 0 {
        return Err(ValueError(InvalidRotateMessage)), [];
      }
      rot := Some(rotate.value % 360);
    }
    assert ValidateRotate(rotate) == Ok(rot);
    r, effects := ProcessVideos(cfg, rot, videoPaths, outputDirs, decode);
  }
}
