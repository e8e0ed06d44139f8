/** The serving handlers of deployment/inference.py that decide something on
    their own: the label maps, the S3 URI split of `download_from_s3`, the
    content-type guards of `input_fn` / `output_fn`, the model-file search
    and checkpoint unwrapping of `model_fn`, and the per-segment aggregation
    of `predict_fn`. Downloads, file tests, the transcriber and the network
    are parameters; tensors and confidences are left out. */
module Inference {
  import opened Results
  import opened Text
  import ObjectStore

  // ---------------------------------------------------------------- labels

  /** `EMOTION_MAP`: class index to emotion name. */
  const EmotionNames: map<int, string> :=
    map[0 := "anger", 1 := "disgust", 2 := "fear", 3 := "joy", 4 := "neutral", 5 := "sadness", 6 := "surprise"]

  /** `SENTIMENT_MAP`: class index to sentiment name. */
  const SentimentNames: map<int, string> := map[0 := "negative", 1 := "neutral", 2 := "positive"]

  /** The index-to-name maps a prediction is decoded with. */
  datatype LabelMaps = LabelMaps(emotions: map<int, string>, sentiments: map<int, string>)

  /** The maps `predict_fn` decodes with. */
  const DeployedLabels: LabelMaps := LabelMaps(EmotionNames, SentimentNames)

  /** The deployed maps are defined on exactly 0..6 and 0..2 and give every
      class a different name. */
  lemma DeployedLabelDomains()
    ensures forall i :: i in EmotionNames <==> 0 <= i < 7
    ensures forall i :: i in SentimentNames <==> 0 <= i < 3
    ensures Injective(EmotionNames) && Injective(SentimentNames)
  {
  }

  // ------------------------------------------------------------- S3 paths

  datatype ServeError =
    | UnsupportedContentType(contentType: string)
    | MalformedJson
    | MissingVideoPath
    | MalformedUri
    | DownloadFailed
    | FfmpegUnavailable
    | ModelFileNotFound(tried: seq<string>)

  /** `download_from_s3`'s split: the bucket is the third `/`-separated
      field, the key is every later field joined back with `/`; fewer than
      three fields raise. */
  function SplitS3Uri(uri: string): (r: Result<(string, string), ServeError>)
    ensures r.Failure? <==> |Split(uri, '/')| < 3
    ensures r.Success? ==> '/' !in r.value.0
  {
    var parts := Split(uri, '/');
    if |parts| < 3 then Failure(MalformedUri)
    else Success((parts[2], Join(parts[3..], '/')))
  }

  /** For `s3://B/k` with a bucket free of `/`, the split gives back `B` and
      `k`, whatever `k` contains. */
  lemma {:induction false} SplitS3UriRoundTrip(bucket: string, key: string)
    requires '/' !in bucket
    ensures SplitS3Uri("s3://" + bucket + "/" + key) == Success((bucket, key))
  {
    var uri := "s3://" + bucket + "/" + key;
    assert uri == "s3:" + ['/'] + ("" + ['/'] + (bucket + ['/'] + key));
    SplitField("s3:", '/', "" + ['/'] + (bucket + ['/'] + key));
    SplitField("", '/', bucket + ['/'] + key);
    SplitField(bucket, '/', key);
    assert Split(uri, '/') == ["s3:", "", bucket] + Split(key, '/');
    assert Split(uri, '/')[3..] == Split(key, '/');
    JoinSplit(key, '/');
  }

  /** The path the web handler sends is split back into its bucket and the
      object key it was made from. */
  lemma HandlerPathRoundTrip(key: string)
    ensures SplitS3Uri(ObjectStore.VideoPath(key)) == Success((ObjectStore.Bucket, key))
  {
    SplitS3UriRoundTrip(ObjectStore.Bucket, key);
  }

  // ------------------------------------------------- request and response

  const JsonContentType: string := "application/json"

  /** The request body: unparsable JSON, or an object whose `video_path`
      may be missing. */
  datatype JsonBody = Unparsable | Parsed(videoPath: Option<string>)

  /** `input_fn`: only JSON is accepted; the `video_path` URI is split and
      the object downloaded (`download(bucket, key)` is the local path, or
      `None` when the download fails). */
  function InputFn(body: JsonBody, contentType: string,
                   download: (string, string) -> Option<string>): (r: Result<string, ServeError>)
    ensures contentType != JsonContentType ==> r == Failure(UnsupportedContentType(contentType))
    ensures contentType == JsonContentType && body.Unparsable? ==> r == Failure(MalformedJson)
    ensures contentType == JsonContentType && body == Parsed(None) ==> r == Failure(MissingVideoPath)
    ensures contentType == JsonContentType && body.Parsed? && body.videoPath.Some? ==>
      var uri := body.videoPath.value;
      && (SplitS3Uri(uri).Failure? ==> r == Failure(MalformedUri))
      && (SplitS3Uri(uri).Success? ==>
            var (bucket, key) := SplitS3Uri(uri).value;
            r == (if download(bucket, key).Some? then Success(download(bucket, key).value)
                  else Failure(DownloadFailed)))
    ensures r.Success? ==>
      && contentType == JsonContentType
      && body.Parsed? && body.videoPath.Some?
      && SplitS3Uri(body.videoPath.value).Success?
      && var (bucket, key) := SplitS3Uri(body.videoPath.value).value;
         download(bucket, key) == Some(r.value)
  {
    if contentType != JsonContentType then Failure(UnsupportedContentType(contentType))
    else match body
      case Unparsable => Failure(MalformedJson)
      case Parsed(None) => Failure(MissingVideoPath)
      case Parsed(Some(uri)) =>
        match SplitS3Uri(uri)
        case Failure(e) => Failure(e)
        case Success((bucket, key)) =>
          match download(bucket, key)
          case None => Failure(DownloadFailed)
          case Some(path) => Success(path)
  }

  /** A request made by the web handler downloads exactly the uploaded
      object from the handler's bucket. */
  lemma HandlerRequestDownloadsUpload(key: string, download: (string, string) -> Option<string>)
    requires download(ObjectStore.Bucket, key).Some?
    ensures InputFn(Parsed(Some(ObjectStore.VideoPath(key))), JsonContentType, download) ==
      Success(download(ObjectStore.Bucket, key).value)
  {
    HandlerPathRoundTrip(key);
  }

  /** `output_fn`: only JSON is produced. */
  function OutputFn<P>(prediction: P, contentType: string, dumps: P -> string): (r: Result<string, ServeError>)
    ensures r.Success? <==> contentType == JsonContentType
    ensures r.Success? ==> r.value == dumps(prediction)
    ensures r.Failure? ==> r.error == UnsupportedContentType(contentType)
  {
    if contentType == JsonContentType then Success(dumps(prediction))
    else Failure(UnsupportedContentType(contentType))
  }

  // ----------------------------------------------------- model loading

  function JoinAll(dir: string, parts: seq<string>): string
    decreases |parts|
  {
    if |parts| == 0 then dir else JoinAll(PathJoin(dir, parts[0]), parts[1..])
  }

  /** The model files tried, in priority order, relative to the model
      directory. */
  const ModelFiles: seq<seq<string>> := [
    ["final_model.pth"],
    ["final_model_fixed.pth"],
    ["model2_final", "model.pth"],
    ["model2_final", "best_model.pth"],
    ["best_model.pth"],
    ["model.pth"],
    ["model", "best_model.pth"],
    ["model", "final_model.pth"],
    ["model", "model.pth"]]

  /** A path that `os.path.join` extends with a separator: non-empty and not
      ending in `/`. */
  predicate NoTrailingSlash(path: string) {
    path != "" && path[|path| - 1] != '/'
  }

  /** Joining parts onto such a directory puts a single `/` between every
      two of them. */
  lemma {:induction false} JoinAllFlat(dir: string, parts: seq<string>)
    requires NoTrailingSlash(dir) && |parts| > 0
    requires forall k :: 0 <= k < |parts| ==> NoTrailingSlash(parts[k])
    ensures JoinAll(dir, parts) == dir + "/" + Join(parts, '/')
    decreases |parts|
  {
    var next := PathJoin(dir, parts[0]);
    assert dir[|dir| - 1..] != "/";
    assert next == dir + "/" + parts[0];
    if |parts| == 1 {
      assert parts[1..] == [];
    } else {
      assert next[|next| - 1] == parts[0][|parts[0]| - 1];
      JoinAllFlat(next, parts[1..]);
      assert Join(parts, '/') == parts[0] + "/" + Join(parts[1..], '/');
    }
  }

  /** The candidate paths, in priority order. Under a directory without a
      trailing `/` each is the directory, one `/` and the entry's parts
      joined with `/`. */
  function CandidatePaths(modelDir: string): (paths: seq<string>)
    ensures |paths| == |ModelFiles|
  {
    seq(|ModelFiles|, i requires 0 <= i < |ModelFiles| => JoinAll(modelDir, ModelFiles[i]))
  }

  /** Under a directory without a trailing `/`, each candidate is the
      directory, one `/`, and the entry's parts joined with `/`. */
  lemma CandidatePathsFlat(modelDir: string)
    requires NoTrailingSlash(modelDir)
    ensures forall i :: 0 <= i < |ModelFiles| ==>
      CandidatePaths(modelDir)[i] == modelDir + "/" + Join(ModelFiles[i], '/')
  {
    forall i | 0 <= i < |ModelFiles|
      ensures CandidatePaths(modelDir)[i] == modelDir + "/" + Join(ModelFiles[i], '/')
    {
      JoinAllFlat(modelDir, ModelFiles[i]);
    }
  }

  /** The first path that exists, scanning in order. */
  function FirstExisting(paths: seq<string>, present: string -> bool): (r: Option<nat>)
    ensures r.None? <==> forall i :: 0 <= i < |paths| ==> !present(paths[i])
    ensures r.Some? ==>
      (r.value < |paths| && present(paths[r.value]) &&
       forall j :: 0 <= j < r.value ==> !present(paths[j]))
    decreases |paths|
  {
    if |paths| == 0 then None
    else if present(paths[0]) then Some(0)
    else match FirstExisting(paths[1..], present)
      case None => None
      case Some(i) => Some(i + 1)
  }

  /** `model_fn` up to loading: a missing ffmpeg raises first; then the
      highest-priority existing model file is chosen, and none raises
      `FileNotFoundError` listing every path tried. */
  function LocateModel(modelDir: string, ffmpegInstalled: bool, present: string -> bool): (r: Result<string, ServeError>)
    ensures !ffmpegInstalled ==> r == Failure(FfmpegUnavailable)
    ensures r.Success? ==>
      exists i :: 0 <= i < |ModelFiles| && r.value == CandidatePaths(modelDir)[i] && present(r.value) &&
        forall j :: 0 <= j < i ==> !present(CandidatePaths(modelDir)[j])
    ensures ffmpegInstalled && r.Failure? ==>
      r.error == ModelFileNotFound(CandidatePaths(modelDir)) &&
      forall i :: 0 <= i < |ModelFiles| ==> !present(CandidatePaths(modelDir)[i])
  {
    if !ffmpegInstalled then Failure(FfmpegUnavailable)
    else
      var paths := CandidatePaths(modelDir);
      match FirstExisting(paths, present)
      case None => Failure(ModelFileNotFound(paths))
      case Some(i) => Success(paths[i])
  }

  /** A loaded checkpoint: a dictionary of named entries, or anything else. */
  datatype Checkpoint<W> = Dict(entries: map<string, Checkpoint<W>>) | Other(content: W)

  /** The weights taken from a checkpoint: its `state_dict` entry, else its
      `model_state_dict` entry, else the checkpoint itself. */
  function StateDict<W(==)>(c: Checkpoint<W>): (r: Checkpoint<W>)
    ensures r == c || (c.Dict? && r in c.entries.Values)
    ensures c.Dict? && "state_dict" in c.entries ==> r == c.entries["state_dict"]
    ensures c.Dict? && "state_dict" !in c.entries && "model_state_dict" in c.entries ==>
      r == c.entries["model_state_dict"]
    ensures r != c ==> c.Dict? && ("state_dict" in c.entries || "model_state_dict" in c.entries)
  {
    match c
    case Dict(entries) =>
      if "state_dict" in entries then entries["state_dict"]
      else if "model_state_dict" in entries then entries["model_state_dict"]
      else c
    case Other(_) => c
  }

  /** The ways a checkpoint gets written: the weights themselves, as
      training/train.py:178 saves `model.state_dict()`, or the weights under
      one wrapping key. */
  datatype SaveFormat = Bare | Wrapped(key: string)

  function Saved<W>(weights: Checkpoint<W>, format: SaveFormat): Checkpoint<W> {
    match format
    case Bare => weights
    case Wrapped(key) => Dict(map[key := weights])
  }

  /** Unwrapping undoes saving: bare weights (whose own names are neither
      wrapping key) and weights under either recognised key come back as
      they were saved. */
  lemma StateDictOfSaved<W>(weights: Checkpoint<W>, format: SaveFormat)
    requires format.Wrapped? ==> format.key == "state_dict" || format.key == "model_state_dict"
    requires format.Bare? && weights.Dict? ==>
      "state_dict" !in weights.entries && "model_state_dict" !in weights.entries
    ensures StateDict(Saved(weights, format)) == weights
  {
  }

  // ---------------------------------------------------------- prediction

  /** A transcribed segment; times are copied, never computed on. */
  datatype Segment = Segment(start: real, end: real, text: string)

  /** What processing one segment came to: cutting the clip failed, a later
      step (frames, audio, tokenizer) failed, or the model's top-3 class
      indices. */
  datatype SegmentOutcome =
    | ExtractFailed
    | ProcessingFailed
    | Scored(emotionIndices: seq<int>, sentimentIndices: seq<int>)

  datatype Utterance = Utterance(startTime: real, endTime: real, text: string,
                                 emotions: seq<string>, sentiments: seq<string>)

  /** Looks every index up; an index outside the map raises `KeyError`. */
  function Names(indices: seq<int>, names: map<int, string>): (r: Option<seq<string>>)
    ensures r.Some? <==> forall i :: 0 <= i < |indices| ==> indices[i] in names
    ensures r.Some? ==>
      (|r.value| == |indices| &&
       forall i :: 0 <= i < |indices| ==> r.value[i] == names[indices[i]])
    decreases |indices|
  {
    if |indices| == 0 then Some([])
    else if indices[0] !in names then None
    else match Names(indices[1..], names)
      case None => None
      case Some(rest) => Some([names[indices[0]]] + rest)
  }

  /** The utterance a segment contributes, if its processing succeeded and
      every index decoded. */
  function Utter(segment: Segment, outcome: SegmentOutcome, labels: LabelMaps): Option<Utterance> {
    match outcome
    case Scored(e, s) =>
      (match (Names(e, labels.emotions), Names(s, labels.sentiments))
       case (Some(emotions), Some(sentiments)) =>
         Some(Utterance(segment.start, segment.end, segment.text, emotions, sentiments))
       case _ => None)
    case _ => None
  }

  function Heading(u: Utterance): Segment {
    Segment(u.startTime, u.endTime, u.text)
  }

  function Headings(us: seq<Utterance>): (r: seq<Segment>)
    ensures |r| == |us|
    ensures forall i :: 0 <= i < |us| ==> r[i] == Heading(us[i])
  {
    seq(|us|, i requires 0 <= i < |us| => Heading(us[i]))
  }

  /** `xs` is `ys` with some elements left out, order kept. */
  ghost predicate SubsequenceOf<T>(xs: seq<T>, ys: seq<T>)
    decreases |ys|
  {
    if |xs| == 0 then true
    else if |ys| == 0 then false
    else (xs[0] == ys[0] && SubsequenceOf(xs[1..], ys[1..])) || SubsequenceOf(xs, ys[1..])
  }

  /** `predict_fn`'s loop with a failing segment skipped: one utterance per
      segment whose processing and decoding succeeded. */
  function Predict(segments: seq<Segment>, analyze: Segment -> SegmentOutcome, labels: LabelMaps): (r: seq<Utterance>)
    ensures |r| <= |segments|
    // segment order, with start, end and text copied unchanged
    ensures SubsequenceOf(Headings(r), segments)
    decreases |segments|
  {
    if |segments| == 0 then []
    else
      var rest := Predict(segments[1..], analyze, labels);
      match Utter(segments[0], analyze(segments[0]), labels)
      case None => rest
      case Some(u) =>
        assert Headings([u] + rest)[1..] == Headings(rest);
        [u] + rest
  }

  /** No segment whose processing and decoding succeeded is dropped. */
  lemma {:induction false} PredictKeepsSuccesses(segments: seq<Segment>, analyze: Segment -> SegmentOutcome,
                                                labels: LabelMaps)
    ensures forall i :: 0 <= i < |segments| && Utter(segments[i], analyze(segments[i]), labels).Some? ==>
      Utter(segments[i], analyze(segments[i]), labels).value in Predict(segments, analyze, labels)
    decreases |segments|
  {
    if |segments| > 0 {
      PredictKeepsSuccesses(segments[1..], analyze, labels);
      forall i | 1 <= i < |segments|
        ensures segments[i] == segments[1..][i - 1]
      {
      }
    }
  }

  /** Every label an utterance shows is a name from the maps. */
  lemma UtterLabelsFromMaps(segment: Segment, outcome: SegmentOutcome, labels: LabelMaps)
    ensures Utter(segment, outcome, labels).Some? ==>
      var u := Utter(segment, outcome, labels).value;
      && (forall l :: l in u.emotions ==> l in labels.emotions.Values)
      && (forall l :: l in u.sentiments ==> l in labels.sentiments.Values)
  {
  }

  /** Every label in the prediction is a name from the maps. */
  lemma {:induction false} PredictLabelsFromMaps(segments: seq<Segment>, analyze: Segment -> SegmentOutcome,
                                                labels: LabelMaps)
    ensures forall u :: u in Predict(segments, analyze, labels) ==>
      (forall l :: l in u.emotions ==> l in labels.emotions.Values) &&
      (forall l :: l in u.sentiments ==> l in labels.sentiments.Values)
    decreases |segments|
  {
    if |segments| > 0 {
      PredictLabelsFromMaps(segments[1..], analyze, labels);
      UtterLabelsFromMaps(segments[0], analyze(segments[0]), labels);
    }
  }

  /** What each segment came to, in order: its utterance, or `None` when it
      failed. */
  function Attempts(segments: seq<Segment>, analyze: Segment -> SegmentOutcome, labels: LabelMaps): seq<Option<Utterance>> {
    seq(|segments|, i requires 0 <= i < |segments| => Utter(segments[i], analyze(segments[i]), labels))
  }

  /** The prediction is exactly the per-segment attempts with the failures
      dropped: each utterance is its own segment's decoded outcome, and a
      failed segment contributes nothing. */
  lemma {:induction false} PredictIsFilter(segments: seq<Segment>, analyze: Segment -> SegmentOutcome,
                                           labels: LabelMaps)
    ensures Predict(segments, analyze, labels) == Present(Attempts(segments, analyze, labels))
    decreases |segments|
  {
    if |segments| > 0 {
      PredictIsFilter(segments[1..], analyze, labels);
      var attempts := Attempts(segments, analyze, labels);
      assert attempts[1..] == Attempts(segments[1..], analyze, labels);
      assert attempts[0] == Utter(segments[0], analyze(segments[0]), labels);
    }
  }

  datatype PredictError = UnboundSegmentPath

  /** `predict_fn` exactly as written. The `finally` clause reads
      `segment_path`, which is first bound when a clip is cut: if cutting
      the very first clip raises, that read raises `UnboundLocalError` and
      the whole prediction fails; once bound, it names a clip already
      removed, so later cutting failures are skipped. `bound` says whether
      the name is bound. */
  function PredictFrom(segments: seq<Segment>, analyze: Segment -> SegmentOutcome, labels: LabelMaps,
                       bound: bool): (r: Result<seq<Utterance>, PredictError>)
    ensures r.Failure? <==> !bound && |segments| > 0 && analyze(segments[0]) == ExtractFailed
    ensures r.Success? ==> r.value == Predict(segments, analyze, labels)
    decreases |segments|
  {
    if |segments| == 0 then Success([])
    else
      var outcome := analyze(segments[0]);
      if outcome == ExtractFailed && !bound then Failure(UnboundSegmentPath)
      else
        match PredictFrom(segments[1..], analyze, labels, bound || outcome != ExtractFailed)
        case Failure(e) => Failure(e)
        case Success(rest) =>
          match Utter(segments[0], outcome, labels)
          case None => Success(rest)
          case Some(u) => Success([u] + rest)
  }

  /** The prediction as written fails exactly when the first segment's clip
      cannot be cut, and otherwise agrees with the corrected loop. */
  function PredictAsWritten(segments: seq<Segment>, analyze: Segment -> SegmentOutcome,
                            labels: LabelMaps): (r: Result<seq<Utterance>, PredictError>)
    ensures r.Failure? <==> |segments| > 0 && analyze(segments[0]) == ExtractFailed
    ensures r.Success? ==> r.value == Predict(segments, analyze, labels)
  {
    PredictFrom(segments, analyze, labels, false)
  }

  /** Where the two disagree: a transcript whose first clip cannot be cut
      but whose second segment scores yields nothing at all as written,
      while the corrected loop reports the second segment. */
  lemma FirstExtractFailureAbortsAll(segments: seq<Segment>, analyze: Segment -> SegmentOutcome,
                                     labels: LabelMaps)
    requires |segments| >= 2 && analyze(segments[0]) == ExtractFailed
    requires Utter(segments[1], analyze(segments[1]), labels).Some?
    ensures PredictAsWritten(segments, analyze, labels) == Failure(UnboundSegmentPath)
    ensures Utter(segments[1], analyze(segments[1]), labels).value in Predict(segments, analyze, labels)
  {
    PredictKeepsSuccesses(segments, analyze, labels);
  }
}
