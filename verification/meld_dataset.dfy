/** The per-row logic of training/meld_dataset.py: the label encodings, the
    clip file name, `__getitem__`'s assembly of one training example, and
    `collate_fn`'s dropping of rows that failed. Files, the tokenizer, video
    capture and audio loading are parameters. */
module MeldDataset {
  import opened Results
  import opened Text
  import opened FixedLength

  /** `emotion_map`: emotion name to class index. */
  const EmotionIndex: map<string, int> :=
    map["anger" := 0, "disgust" := 1, "fear" := 2, "happiness" := 3, "sadness" := 4, "surprise" := 5, "neutral" := 6]

  /** `sentiment_map`: sentiment name to class index. */
  const SentimentIndex: map<string, int> := map["positive" := 0, "negative" := 1, "neutral" := 2]

  /** The encodings are one-to-one onto 0..6 and 0..2. */
  lemma TrainingLabelEncodings()
    ensures EmotionIndex.Values == {0, 1, 2, 3, 4, 5, 6}
    ensures SentimentIndex.Values == {0, 1, 2}
    ensures Injective(EmotionIndex) && Injective(SentimentIndex)
  {
    assert EmotionIndex.Keys == {"anger", "disgust", "fear", "happiness", "sadness", "surprise", "neutral"};
    assert SentimentIndex.Keys == {"positive", "negative", "neutral"};
  }

  /** `m[raw.lower()]`: the raw label is lower-cased before lookup; an
      unknown label raises `KeyError`. */
  function LabelOf(m: map<string, int>, raw: string): (r: Option<int>)
    ensures r.Some? <==> Lower(raw) in m
    ensures r.Some? ==> r.value == m[Lower(raw)]
  {
    var key := Lower(raw);
    if key in m then Some(m[key]) else None
  }

  /** Two spellings that differ only in letter case encode alike. */
  lemma LabelOfIgnoresCase(m: map<string, int>, a: string, b: string)
    requires Lower(a) == Lower(b)
    ensures LabelOf(m, a) == LabelOf(m, b)
  {
  }

  /** The clip file for a row: `dia<dialogue>_utt<utterance>.mp4`. */
  function ClipName(dialogueId: nat, utteranceId: nat): (name: string)
    ensures StartsWith(name, "dia") && EndsWith(name, ".mp4")
  {
    "dia" + Decimal(dialogueId) + "_utt" + Decimal(utteranceId) + ".mp4"
  }

  /** Reads the two ids back out of a clip file name. */
  function ParseClipName(name: string): Option<(nat, nat)> {
    if |name| < 7 || !StartsWith(name, "dia") || !EndsWith(name, ".mp4") then None
    else
      var middle := name[3..|name| - 4];
      var k := DigitSpan(middle);
      if k == 0 || !StartsWith(middle[k..], "_utt") then None
      else
        var rest := middle[k + 4..];
        if |rest| == 0 || !AllDigits(rest) then None
        else Some((ParseDecimal(middle[..k]), ParseDecimal(rest)))
  }

  /** Different rows never share a clip file: the name determines both ids. */
  lemma ClipNameRoundTrip(dialogueId: nat, utteranceId: nat)
    ensures ParseClipName(ClipName(dialogueId, utteranceId)) == Some((dialogueId, utteranceId))
  {
    var d, u := Decimal(dialogueId), Decimal(utteranceId);
    var name := ClipName(dialogueId, utteranceId);
    var middle := name[3..|name| - 4];
    assert middle == d + ("_utt" + u);
    DigitSpanOfDigits(d, "_utt" + u);
    assert middle[|d|..] == "_utt" + u;
    assert middle[..|d|] == d;
    assert middle[|d| + 4..] == u;
    ParseDecimalOfDecimal(dialogueId);
    ParseDecimalOfDecimal(utteranceId);
  }

  /** A row of the dataset's CSV. */
  datatype Row = Row(dialogueId: nat, utteranceId: nat, utterance: string, emotion: string, sentiment: string)

  /** One training example: the tokenized utterance, the frames, the
      spectrogram and the two class indices. */
  datatype Example<T, F, E> = Example(tokens: T, frames: seq<F>, audio: Spectrogram<E>,
                                      emotionLabel: int, sentimentLabel: int)

  function ClipPath(videoDir: string, row: Row): string {
    PathJoin(videoDir, ClipName(row.dialogueId, row.utteranceId))
  }

  /** `__getitem__`: every failure (missing clip, tokenizer error,
      unreadable video or audio, unknown label) is caught and turns into
      `None`. `tokenize` is the tokenizer applied to the utterance, or `None`
      when it raises; `loadAudio` is the normalised spectrogram of a clip, or
      `None` when loading raises. */
  function GetItem<T, F, E>(row: Row, videoDir: string, present: string -> bool,
                            tokenize: string -> Option<T>,
                            capture: string -> Capture<F>, zeroLike: F -> F,
                            loadAudio: string -> Option<Spectrogram<E>>, zero: E): (r: Option<Example<T, F, E>>)
    ensures !present(ClipPath(videoDir, row)) ==> r.None?
    ensures tokenize(row.utterance).None? ==> r.None?
    ensures LabelOf(EmotionIndex, row.emotion).None? || LabelOf(SentimentIndex, row.sentiment).None? ==> r.None?
    ensures r.Some? <==>
      && present(ClipPath(videoDir, row))
      && tokenize(row.utterance).Some?
      && ReadFrames(capture(ClipPath(videoDir, row)), zeroLike).Success?
      && loadAudio(ClipPath(videoDir, row)).Some?
      && Lower(row.emotion) in EmotionIndex && Lower(row.sentiment) in SentimentIndex
    ensures r.Some? ==>
      && r.value.tokens == tokenize(row.utterance).value
      && |r.value.frames| == FrameCount
      && r.value.frames == ReadFrames(capture(ClipPath(videoDir, row)), zeroLike).value
      && r.value.audio == FixTimeAxis(loadAudio(ClipPath(videoDir, row)).value, zero)
      && r.value.emotionLabel == EmotionIndex[Lower(row.emotion)]
      && r.value.sentimentLabel == SentimentIndex[Lower(row.sentiment)]
      && 0 <= r.value.emotionLabel < 7 && 0 <= r.value.sentimentLabel < 3
  {
    var path := ClipPath(videoDir, row);
    if !present(path) then None
    else
      var tokens := tokenize(row.utterance);
      var frames := ReadFrames(capture(path), zeroLike);
      var spec := loadAudio(path);
      var emotion := LabelOf(EmotionIndex, row.emotion);
      var sentiment := LabelOf(SentimentIndex, row.sentiment);
      if tokens.None? || frames.Failure? || spec.None? || emotion.None? || sentiment.None? then None
      else
        LabelRanges(Lower(row.emotion), Lower(row.sentiment));
        Some(Example(tokens.value, frames.value, FixTimeAxis(spec.value, zero), emotion.value, sentiment.value))
  }

  lemma LabelRanges(emotion: string, sentiment: string)
    ensures emotion in EmotionIndex ==> 0 <= EmotionIndex[emotion] < 7
    ensures sentiment in SentimentIndex ==> 0 <= SentimentIndex[sentiment] < 3
  {
    TrainingLabelEncodings();
    assert emotion in EmotionIndex ==> EmotionIndex[emotion] in EmotionIndex.Values;
    assert sentiment in SentimentIndex ==> SentimentIndex[sentiment] in SentimentIndex.Values;
  }

  datatype CollateError = EmptyBatch

  /** `collate_fn`: drop the failed rows, then stack; stacking an empty
      list fails (`default_collate` reads its first element). */
  function CollateFn<T(==)>(batch: seq<Option<T>>): (r: Result<seq<T>, CollateError>)
    ensures r.Failure? <==> forall i :: 0 <= i < |batch| ==> batch[i].None?
    ensures r.Success? ==> r.value == Present(batch)
  {
    var kept := Present(batch);
    if |kept| == 0 then
      Failure(EmptyBatch)
    else
      assert Some(kept[0]) in batch;
      Success(kept)
  }
}
