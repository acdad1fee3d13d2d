# vebits_api: frame extraction, label maps, detection shaping and a dataset viewer

This project is a Dafny model of the sequential logic in four files of the
`vebits_api` toolkit. The toolkit turns videos into auto-annotated training
images with TensorFlow or Darkflow (YOLO) object detectors.

- **VideoToImages** (`scripts/det_vid2img.py`) models the frame loop of
  `main`. It keeps every `num_frame_interval`-th decoded frame, names it
  `"{video}_{n}.jpg"`, buffers frames and paths, and flushes every
  `batch_size` kept frames and at the end of each video. It also models
  `process_frame_batch`, which adds `num_transform` augmented copies of the
  buffer. It reads the image counter back from the last saved path, numbers
  the copies on from it, and writes one XML annotation per image with the
  two models' boxes concatenated.
- **LabelMap** (`vebits_api/labelmap_util.py`) covers id validation, the
  category list (a default list, range filtering, first-occurrence
  de-duplication and the display-name choice), the category index, the
  name -> id dictionary and its inverse.
- **Detector** (`vebits_api/detector_util.py`) covers the post-processing
  loop of `return_predict`, the map-then-unzip of `detect_objects_yolo`,
  the backend and arity dispatch of `detect_objects`, the loader dispatch
  of `load_inference_graph` and the assembly of `load_tensors`.
- **InspectDataset** (`scripts/inspect_dataset.py`) models the keystroke
  loop of the dataset viewer. Keys `d`/`w` step forward, `a` steps back,
  `w` also copies the image shown, and `q` quits. A missing file is
  skipped.

Supporting modules:

- **Common**: Option, Result, Python exceptions, images.
- **Text**: decimal strings, `str.split` and `str.join`.
- **Paths**: `os.path.join`, `split` and `splitext`, the numbered file names.
- **Dicts**: insertion-ordered dictionaries and the last-write-wins meaning
  of a loop of `d[k] = v`.
- **Arithmetic**: facts about Dafny's `%` and `/`.

Foreign calls become parameters of the model:

- Darkflow's `findboxes` and `process_box`, and the TF session, become functions inside `YoloNet` and `TfGraph`.
- The label-map parser is a `parse` function.
- Video decoding is `decode`.
- The augmenter is `augment`.
- Rotation and resizing are the functions of `Geometry`.
- `get_filtered_boxes` is `Model.filter`.
- `os.path.isfile` is `Setup.isFile`.
- The key presses are a finite sequence.

Writing XML files, saving images, copying files and printing are recorded
as effects, in order.

Python's `%` on a positive divisor agrees with Dafny's. Where the divisor
can be zero or negative (`num_frame_interval`, `batch_size`), the model
raises ZeroDivisionError for zero, and uses the fact that only divisibility
is tested. `rotate % 90` and `rotate % 360` are Euclidean in both languages
for the positive divisors used.

Behaviour of the code worth noting:

- `num_frame_passed`, `num_frame_processed` and the resize target (`beginning`) are not reset between videos. Only `num_img_generated` and the two buffers are (`det_vid2img.py:197-199`). So frames are sampled by their running number over all videos.
- Every dictionary built by a loop of assignments keeps the LAST write to a repeated key. The category list, in contrast, keeps the FIRST item with a given id.
- `get_label_map_dict_inverse` follows dictionary insertion order. When two names share an id, the name inserted last wins.
- In the viewer, `(index + 1) % num_imgs` can never divide by zero. With an empty image list, `img_list[index]` raises IndexError first.

## Model

| member | source | states |
|---|---|---|
| VideoToImages.ValidateRotate | scripts/det_vid2img.py:112-117 | no rotation passes unchanged; a rotation not divisible by 90 raises ValueError; any other becomes one of 0, 90, 180, 270, congruent to it modulo 360 |
| VideoToImages.ValidateRotateIdempotent | scripts/det_vid2img.py:112-117 | a normalised rotation passes the check again unchanged |
| VideoToImages.KeptFramesAppend | scripts/det_vid2img.py:140-142 | frames kept over two stretches of frames add up, because the pass counter runs on across them |
| VideoToImages.KeptFramesMonotone | scripts/det_vid2img.py:140-142 | more frames never keep fewer |
| VideoToImages.KeptFramesCount | scripts/det_vid2img.py:140-142 | with a positive interval, the frames kept are the multiples of the interval passed: `(passed + n) / interval - passed / interval` |
| VideoToImages.VideoName | scripts/det_vid2img.py:131-132 | the name a video's images are numbered under holds no slash |
| VideoToImages.NumberedRunIndex | scripts/det_vid2img.py:43-44 | the j-th name of a run is `prefix_{start + j}.jpg` |
| VideoToImages.NumberedRunAppend | scripts/det_vid2img.py:40-44 | two runs that meet form one run |
| VideoToImages.NumberedRunDistinct | scripts/det_vid2img.py:40-44 | the names of a run are pairwise distinct, and each reads back as its prefix and number |
| VideoToImages.IsRunIsNumberedRun | scripts/det_vid2img.py:40-44 | a sequence numbered on from `start` is the run from `start` |
| VideoToImages.IsRunAppend | scripts/det_vid2img.py:40-44 | paths numbered on from where the earlier ones end extend their run |
| VideoToImages.RepeatIndex | scripts/det_vid2img.py:33 | `frames * num_transform` holds `frames` repeated, element i being frame `i % len(frames)` |
| VideoToImages.DetectBatchMeetsContract | scripts/det_vid2img.py:46-48 | `detect_objects` on a batch succeeds exactly when the model has a backend and the batch is non-empty, and then gives one row per image |
| VideoToImages.LabelsIndex | scripts/det_vid2img.py:52-73 | image i's boxes are model 1's filtered boxes, followed by model 2's when there is a second model |
| VideoToImages.ImageEffectsRounds | scripts/det_vid2img.py:52-82 | round i writes the XML of path i with that image's boxes, then saves all images |
| VideoToImages.ImageEffectsXml | scripts/det_vid2img.py:52-82 | the XML files written are the first paths, in order |
| VideoToImages.XmlPathsAppend | scripts/det_vid2img.py:75-80 | the XML files written by two stretches of effects are those of the first followed by those of the second |
| VideoToImages.ParseLastOfRun | scripts/det_vid2img.py:37-39 | the last path of a run reads back as its prefix and its highest number |
| VideoToImages.DetectBoth | scripts/det_vid2img.py:46-48 | detection succeeds exactly when both models have a backend and the batch is non-empty; it gives aligned rows, and a second result exactly when there is a second model |
| VideoToImages.Flush | scripts/det_vid2img.py:24-84 | the buffer grows by the augmented copies of `frames * num_transform`; a last path that does not read back raises before any path is added or file written |
| VideoToImages.FlushExtendsPaths | scripts/det_vid2img.py:40-44 | a flush keeps the old paths and adds one path per augmented copy |
| VideoToImages.FlushPaths | scripts/det_vid2img.py:37-44 | the new paths are `prefix_{last + 1} .. prefix_{last + k}.jpg` |
| VideoToImages.FlushAnnotates | scripts/det_vid2img.py:40-84 | the grown buffer is annotated and the returned counter is `last + k` |
| VideoToImages.FlushGrowth | scripts/det_vid2img.py:33-34 | with an augmenter that keeps lengths, the buffer ends at `len(frames) * (1 + num_transform)` frames |
| VideoToImages.FlushContinues | scripts/det_vid2img.py:24-84 | a flush of a buffer with one path per frame continues its numbering; it succeeds exactly when the models have a backend, returns `last + k` and writes one XML file per path, in order |
| VideoToImages.AnnotateDetected | scripts/det_vid2img.py:46-82 | once detection succeeds, there is one XML write and one save per image; fewer paths than images raise IndexError after the writes for the paths present |
| VideoToImages.AnnotateAligned | scripts/det_vid2img.py:46-84 | with one path per image, annotation succeeds exactly when the models have a backend; it then writes the XML files of exactly those paths and returns the counter unchanged |
| VideoToImages.ProcessFrameBatch | scripts/det_vid2img.py:24-84 | the method extends the two lists in place and returns the counter and the effects of `Flush` |
| VideoToImages.ExtendPaths | scripts/det_vid2img.py:40-44 | the loop appends `prefix_{last + 1} .. prefix_{last + count}.jpg` and ends with counter `last + count` |
| VideoToImages.WriteAnnotations | scripts/det_vid2img.py:46-84 | the detection and per-image writing loop computes what `Annotate` specifies |
| VideoToImages.SkipPreserves | scripts/det_vid2img.py:140-142 | a frame off the interval only advances the pass counter, and the loop stays consistent |
| VideoToImages.KeptPreserves | scripts/det_vid2img.py:144-167 | a kept frame keeps the loop consistent, leaves it holding a complete batch, or stops it on a zero batch size |
| VideoToImages.KeptZeroBatch | scripts/det_vid2img.py:166 | a kept frame with batch size 0 raises ZeroDivisionError for a stated reason |
| VideoToImages.KeptOneMore | scripts/det_vid2img.py:140-144 | a frame on the interval is kept: the kept count grows by one |
| VideoToImages.KeptFiles | scripts/det_vid2img.py:145-164 | a kept frame appends one frame and the path `output_dir/name_{n}.jpg` for the next image number, so the lists stay in step and numbered on from the written files |
| VideoToImages.KeptCounted | scripts/det_vid2img.py:140-158 | a kept frame advances the kept count by one; the first kept frame of all fixes the resize target, which never changes after |
| VideoToImages.KeptAccounted | scripts/det_vid2img.py:144-147 | the buffer holds at most the frames kept, and the files written account for the rest |
| VideoToImages.FlushBuffer | scripts/det_vid2img.py:166-180 | a flush succeeds exactly when the models have a backend; it then empties both buffers, keeps the kept count and numbers the written files `1, 2, ..` on, and otherwise stops for a stated reason |
| VideoToImages.SettlePreserves | scripts/det_vid2img.py:166-180 | flushing a full batch keeps the loop's invariant |
| VideoToImages.StepPreserves | scripts/det_vid2img.py:136-167 | one decoded frame keeps the loop's invariant or stops it for a stated reason |
| VideoToImages.RunInvariant | scripts/det_vid2img.py:135-180 | after any number of frames the loop is consistent, with lists in step, files numbered `1, 2, ..` and counts as stated, or it has stopped for a stated reason |
| VideoToImages.RunStaysStopped | scripts/det_vid2img.py:135-180 | once an exception is raised, later frames change nothing |
| VideoToImages.ReportDone | scripts/det_vid2img.py:193-194 | the report of a video with nothing left over gives the number of images written |
| VideoToImages.FinishDone | scripts/det_vid2img.py:182-199 | a leftover buffer is flushed once, then the report follows, and the video keeps its promise |
| VideoToImages.VideoFacts | scripts/det_vid2img.py:130-199 | one video: its counters as `CountsDone` states; on success the XML files are `name_1.jpg, name_2.jpg, ..` and the last effect reports how many; with an augmenter that keeps lengths there are `kept * (1 + num_transform)` of them |
| VideoToImages.VideoCounts | scripts/det_vid2img.py:140-199 | one video succeeds exactly when no `%` divides by zero and the models have a backend once a frame is kept; its pass and kept counters are then the old ones plus its frames and its kept frames |
| VideoToImages.ReadFrame | scripts/det_vid2img.py:136-180 | one pass of the `while True` loop, on the loop variables and the buffer object, computes the specified step |
| VideoToImages.ReadFrames | scripts/det_vid2img.py:119-180 | the frame loop over a video computes the specified run from the carried counters, an image counter of 0 and empty buffers |
| VideoToImages.ProcessVideo | scripts/det_vid2img.py:130-199 | the body of the loop over videos computes the specified video outcome |
| VideoToImages.VideosFacts | scripts/det_vid2img.py:126-199 | over several videos the counters count every frame on from the start, and the run succeeds exactly when no `%` divides by zero and the models have a backend once a frame is kept |
| VideoToImages.VideoAfter | scripts/det_vid2img.py:119-199 | a video after successful ones adds its frames to the carried counters |
| VideoToImages.VideosStayStopped | scripts/det_vid2img.py:126-199 | once a video raises, the later videos are not read |
| VideoToImages.PipelineFacts | scripts/det_vid2img.py:112-199 | a bad `rotate` raises ValueError before any video; otherwise the counters over all zipped videos start at zero and keep their promise |
| VideoToImages.ProcessVideos | scripts/det_vid2img.py:119-199 | the loop over the videos, each paired with the output directory at its position and stopping at the shorter list as `zip` does, computes the specified run |
| VideoToImages.ConvertVideos | scripts/det_vid2img.py:112-199 | the rotation check followed by the loop over videos computes the specified pipeline |
| Paths.PathJoin | scripts/det_vid2img.py:147 | an absolute second part replaces the first; otherwise the second part ends the joined path |
| Paths.SplitExt | scripts/det_vid2img.py:37 | the root and extension concatenate back to the path, and the extension is empty or starts with a dot |
| Paths.ParseNumberedName | scripts/det_vid2img.py:37-39 | raises ValueError exactly when the last `_` field of the extension-free path is not a decimal number; otherwise gives the other fields re-joined with `_` and that number |
| Paths.ParseNumberedNameRoundTrip | scripts/det_vid2img.py:37-43 | `prefix_{n}.jpg` reads back as exactly `prefix` and `n`, even when `prefix` holds `_` or dots |
| Paths.NumberedNameInjective | scripts/det_vid2img.py:43 | different prefixes or numbers give different names |
| Paths.JoinNumberedName | scripts/det_vid2img.py:146-147 | joining the directory before or after numbering gives the same path |
| Paths.SplitExtNumberedName | scripts/det_vid2img.py:37 | `splitext` of a numbered name splits off exactly `.jpg` |
| Text.ParseNatToString | scripts/det_vid2img.py:38-43 | `int(str(n)) == n` |
| Text.NatToStringInjective | scripts/det_vid2img.py:43 | distinct numbers print differently |
| Text.ParseNat | scripts/det_vid2img.py:38 | a string parses exactly when it is a non-empty string of digits |
| Text.JoinSplit | scripts/det_vid2img.py:38-39 | `sep.join(s.split(sep)) == s` |
| Text.SplitAppend | scripts/det_vid2img.py:38-39 | splitting `p + sep + d`, where `d` holds no separator, gives the fields of `p` followed by `d` |
| Text.LastIndexOf | scripts/det_vid2img.py:37 | the last occurrence of a character, or -1 |
| LabelMap.ValidateLabelMap | vebits_api/labelmap_util.py:18-29 | raises ValueError exactly when some item has an id below 1 |
| LabelMap.ConvertLabelMapToCategories | vebits_api/labelmap_util.py:51-98 | without a label map, ids `1 .. max_num_classes` in order named `category_{id}`; otherwise the first item of each in-range id, in input order, named by its display name when asked for and present |
| LabelMap.CategoriesPrefix | vebits_api/labelmap_util.py:86-97 | one more item adds its category exactly when its id is in range and not seen before |
| LabelMap.CategoriesSound | vebits_api/labelmap_util.py:86-97 | every category comes from an item whose id is in range and the first with that id |
| LabelMap.CategoriesComplete | vebits_api/labelmap_util.py:86-97 | every such item gives its category |
| LabelMap.CategoriesDistinctInRange | vebits_api/labelmap_util.py:86-97 | category ids are in `(0, max_num_classes]` and pairwise distinct |
| LabelMap.CategoriesCoverIds | vebits_api/labelmap_util.py:86-97 | every in-range id of the label map has a category |
| LabelMap.CreateCategoryIndex | vebits_api/labelmap_util.py:32-48 | each category is keyed by its id, the later category winning on a repeated id |
| LabelMap.CategoryIndexOfDistinct | vebits_api/labelmap_util.py:32-48 | with distinct ids every category is found under its own id, and nothing else is there |
| LabelMap.GetLabelMapDict | vebits_api/labelmap_util.py:149-152 | each item's name maps to its id, the last item winning on a repeated name, with keys in first-insertion order |
| LabelMap.GetLabelMapDictFromCategoryIndex | vebits_api/labelmap_util.py:155-171 | raises KeyError exactly when a key in `1 .. len` is missing; otherwise maps each entry's id to its name |
| LabelMap.IndexDictCovers | vebits_api/labelmap_util.py:165-171 | on an index keyed `1 .. len` by its own ids, every key maps to its name |
| LabelMap.IndexDictWithin | vebits_api/labelmap_util.py:165-171 | and no other key appears |
| LabelMap.IndexDictOfConsecutiveIndex | vebits_api/labelmap_util.py:165-171 | both together |
| LabelMap.IndexWritesDistinct | vebits_api/labelmap_util.py:167-170 | on such an index no key is written twice |
| LabelMap.GetLabelMapDictInverse | vebits_api/labelmap_util.py:174-178 | each id maps back to a name, the name inserted last winning |
| LabelMap.InverseDomainIsRange | vebits_api/labelmap_util.py:174-178 | the inverse is defined on exactly the ids, and maps each to a name that has it |
| LabelMap.InverseOfInjective | vebits_api/labelmap_util.py:174-178 | when no two names share an id, the inverse is the exact inverse |
| LabelMap.LoadLabelmap | vebits_api/labelmap_util.py:102-118 | parse errors propagate; a parsed map with an id below 1 raises ValueError; a valid one is returned unchanged |
| LabelMap.LoadCategoryIndex | vebits_api/labelmap_util.py:121-136 | succeeds exactly when the file parses to valid ids; then every key is in range and holds its own category, and every in-range id has one |
| LabelMap.LoadLabelMapDict | vebits_api/labelmap_util.py:139-152 | succeeds exactly when the file parses to valid ids, and then maps names to ids, the last item winning, with keys in first-insertion order |
| Dicts.LastWriteWinsAppend | vebits_api/labelmap_util.py:151 | one more assignment `d[k] = v` keeps the last-write-wins meaning |
| Dicts.LastWriteWinsUnique | vebits_api/labelmap_util.py:149-152 | the dictionary a loop of assignments leaves is unique |
| Dicts.LastWriteWinsDistinct | vebits_api/labelmap_util.py:45-48 | when no key is written twice, every write survives |
| Dicts.Dedup | scripts/inspect_dataset.py:22 | the distinct elements, each once, ordered by their first occurrence in the input |
| Dicts.Dict.Put | vebits_api/labelmap_util.py:151 | `d[k] = v`: a new key goes last; an existing key keeps its place and takes the new value |
| Detector.Survivors | vebits_api/detector_util.py:213-216 | the values kept are exactly those present, no more of them than boxes |
| Detector.SurvivorPositionsSound | vebits_api/detector_util.py:213-216 | the k-th value kept is at the k-th position kept, and positions increase |
| Detector.SurvivorPositionsComplete | vebits_api/detector_util.py:213-216 | every box that `process_box` keeps is in the output |
| Detector.SurvivorsAppend | vebits_api/detector_util.py:213-216 | filtering distributes over concatenation |
| Detector.SurvivorsCount | vebits_api/detector_util.py:213-216 | the number kept is the number not `None` |
| Detector.Emit | vebits_api/detector_util.py:212-221 | three outputs of equal length, one per kept box, with its corners, its confidence and its class plus 1 |
| Detector.ReturnPredict | vebits_api/detector_util.py:198-221 | the loop computes the specified prediction |
| Detector.PredictShape | vebits_api/detector_util.py:212-221 | equal lengths, one entry per kept box in `findboxes` order, every kept box present |
| Detector.Unzip | vebits_api/detector_util.py:194 | the three columns have one row per prediction, row i being prediction i |
| Detector.DetectObjectsYolo | vebits_api/detector_util.py:171-195 | a missing `yolo_net` raises KeyError; an empty batch raises ValueError; otherwise row i is image i's prediction |
| Detector.DetectObjectsTf | vebits_api/detector_util.py:155-168 | a missing `sess` raises KeyError; an empty batch raises ValueError, as TensorFlow's feed check is assumed to; otherwise row i is the graph's output on image i |
| Detector.DetectObjects | vebits_api/detector_util.py:224-242 | the backend is YOLO when `yolo_net` is present, else TF; a single image gives one prediction and a batch gives rows |
| Detector.SingleIsBatchOfOne | vebits_api/detector_util.py:225-242 | the result on one image is row 0 of the result on the batch holding it |
| Detector.DispatchDependsOnYoloKey | vebits_api/detector_util.py:229 | the backend choice depends only on the `yolo_net` key |
| Detector.BatchRows | vebits_api/detector_util.py:229-242 | a batch result lists the images' predictions in image order |
| Detector.LoadInferenceGraph | vebits_api/detector_util.py:82-110 | the TF loader exactly when there is no meta file, YOLO otherwise; the dictionary holds that one backend |
| Detector.LoadedBackendDecidesDetection | vebits_api/detector_util.py:105-110 | loading with a meta file makes detection use YOLO, without one TF |
| Detector.LoadTensors | vebits_api/detector_util.py:113-152 | succeeds exactly when the label map is valid; keeps the loaded backend and adds the name -> id dictionary (keys in first-insertion order), its inverse and the category index, whose class count defaults to the dictionary's size |
| InspectDataset.SetupOf | scripts/inspect_dataset.py:21-27 | the image list holds each file name of the table once, in order of first appearance, so `img_list[index]` is the file whose first row comes index-th |
| InspectDataset.PyIndex | scripts/inspect_dataset.py:34 | `img_list[index]` succeeds exactly when `-n <= index < n`, and a negative index counts from the end |
| InspectDataset.PyMod | scripts/inspect_dataset.py:39-54 | Python's `%` by `n > 0` lies in `[0, n)`, wraps `n` to 0 and `-1` to `n - 1` |
| InspectDataset.Inspect | scripts/inspect_dataset.py:33-58 | the `while True` loop computes the specified session |
| InspectDataset.ForwardBack | scripts/inspect_dataset.py:49-52 | `d` then `a`, and `a` then `d`, return to the same image; the last image steps forward to the first, the first back to the last |
| InspectDataset.StaysInRange | scripts/inspect_dataset.py:34-58 | from a valid start every update leaves the index in `[0, n)` (or at the negative start until it moves), and every image shown or reported is in range |
| InspectDataset.RaisesOnlyAtStart | scripts/inspect_dataset.py:34 | the loop raises IndexError exactly when the start is out of range, before anything is shown |
| InspectDataset.KeysRead | scripts/inspect_dataset.py:48-58 | each image shown reads one key; a quit stops at the first `q`, and the copies are the `w` presses before it; when the keys run out without `q`, one more image is shown and the copies are all the `w` presses |
| InspectDataset.CopyFollowsShow | scripts/inspect_dataset.py:53-55 | each copy copies the image shown just before it from the dataset to the incorrect directory |
| InspectDataset.QuitKeepsIndex | scripts/inspect_dataset.py:56-58 | a quit ends with the image shown last and reports that same index |
| InspectDataset.SpinsIffAllMissing | scripts/inspect_dataset.py:34-40 | the viewer skips forever exactly when the start is valid and no file of the list exists |
| InspectDataset.AllMissingSpins | scripts/inspect_dataset.py:37-40 | with every file missing nothing is ever shown |

## Left out

- Loading TF graphs and Darkflow nets (`detector_util.py:23-79`) is foreign library code. The loaders are parameters, and only the dispatch is modelled.
- The module-level `ThreadPool` is replaced by a sequential, order-preserving map.
- The TF session is modelled as a per-image function `Image -> Prediction` mapped over the batch (Detector.DetectObjectsTf). Row alignment between images and outputs is therefore assumed of TensorFlow, not derived, and Detector.SingleIsBatchOfOne and Detector.BatchRows hold by construction.
- `WebcamVideoStream` (`detector_util.py:248-286`) is threaded camera I/O.
- LabelMap.ConvertLabelMapToCategories: the `logging.info` message for each item whose id is out of range (`labelmap_util.py:88-89`) is not modelled or recorded; such an item only gets no category.
- The text-format and binary protobuf parse in `load_labelmap` is a `parse` parameter. A parsed protobuf is always truthy, so only a missing label map selects the default categories.
- Video decoding (`cv2.VideoCapture`) is not modelled. The decoded frames of each video are an input.
- The rotation, rounding and scaling of `cv2.resize`, `imutils.rotate_bound` and `scale` are not modelled. They sit behind `Geometry`, so floating point is not modelled either.
- The imgaug augmenter is the `augment` parameter. The growth facts that depend on its length are stated for augmenters that keep lengths.
- `get_filtered_boxes` is `Model.filter`, and the XML writer and `im_util.save_imgs` are recorded as effects.
- `main` runs after the models are loaded. `det_vid2img.py` takes `load_tensors` and `get_filtered_boxes` from `det_img2img` (`det_vid2img.py:12`), and `det_img2img` is not part of this model. The tensors' `class_to_be_detected` entry and `Model.filter` are therefore given as parameters.
- `det_vid2img.py` never binds `create_sequence`, `np`, `xml_util` or `imutils` (its imports are lines 1-12; the names are used at lines 109, 35, 75 and 161). As written, `main` would raise NameError at line 109, and `process_frame_batch` would raise at line 35. The model assumes these names are bound to the augmenter (`augment`), numpy, the XML writer (a recorded effect) and the rotation (`Geometry`). The NameError exits are not modelled, so PipelineFacts' ValueError for a bad `rotate` assumes line 109 has passed.
- `os.mkdir`, tqdm progress bars, argument parsing and `video.release()` are not modelled.
- The OpenCV window, `imread`, `draw_boxes_on_image` and `draw_number` in the viewer (`inspect_dataset.py:30-31,42-46`) only display.
- InspectDataset.Inspect: the viewer's `get_label_map_dict` call (`inspect_dataset.py:28`) runs before the loop and raises when the label map does not parse or has an id below 1. That exit is not modelled; the session starts after it.
- Detector.DetectObjectsTf: the ValueError on an empty batch is TensorFlow's feed-shape check inside `sess.run`, not code of `detect_objects_tf`; the model assumes that check.
- Detector.DetectObjects: on a single image the TF path's `np.squeeze` is modelled as taking row 0. The source's squeeze also collapses an axis of length one, such as a one-detection result; that is not modelled.
- The rectangular-array shapes numpy demands are not modelled. A batch is a sequence of prediction rows.
- Text.ParseNat: `int()` is modelled on ASCII digit strings only. Signs, surrounding whitespace and other Unicode digits are not accepted, and numbered names never hold them.
- InspectDataset.Inspect: `cv2.waitKey` is a finite key sequence. When it runs out, the session ends as Waiting after showing the current image.
- InspectDataset.Inspect: when every file is missing, the source loops forever. The model stops after one full round of misses as Spinning, and SpinsIffAllMissing states exactly when that happens.
- InspectDataset.Inspect: `os.path.isfile` is the `isFile` parameter, fixed for the whole session. `shutil.copy` and `print` are recorded as effects.
- `pd.read_csv` is not modelled. The `filename` column is an input of SetupOf.
