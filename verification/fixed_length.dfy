/** The fixed-length shaping shared by deployment/inference.py and
    training/meld_dataset.py: a clip is cut or zero-padded to 30 frames and a
    spectrogram's time axis to 300 steps. Frames and samples are abstract
    elements; only their number and order matter here. */
module FixedLength {
  import opened Results

  const FrameCount: nat := 30
  const TimeSteps: nat := 300

  /** Keep the first `n` elements, or append `pad` until there are `n`. */
  function PadOrTruncate<T>(s: seq<T>, n: nat, pad: T): (r: seq<T>)
    ensures |r| == n
    ensures forall i :: 0 <= i < n && i < |s| ==> r[i] == s[i]
    ensures forall i :: |s| <= i < n ==> r[i] == pad
  {
    if |s| < n then s + seq(n - |s|, _ => pad) else s[..n]
  }

  /** Shaping leaves a sequence of the target length as it is, and only
      such a sequence. */
  lemma PadOrTruncateFixes<T>(s: seq<T>, n: nat, pad: T)
    ensures PadOrTruncate(s, n, pad) == s <==> |s| == n
  {
  }

  /** Shaping twice is shaping once. */
  lemma PadOrTruncateIdempotent<T>(s: seq<T>, n: nat, pad: T)
    ensures PadOrTruncate(PadOrTruncate(s, n, pad), n, pad) == PadOrTruncate(s, n, pad)
  {
    PadOrTruncateFixes(PadOrTruncate(s, n, pad), n, pad);
  }

  /** The result is the kept prefix followed only by padding. */
  lemma PadOrTruncateSplits<T>(s: seq<T>, n: nat, pad: T)
    ensures var k := if |s| < n then |s| else n;
      PadOrTruncate(s, n, pad) == s[..k] + seq(n - k, _ => pad)
  {
  }

  /** An opened capture and the frames it can deliver, in order. */
  datatype Capture<F> = Capture(isOpen: bool, frames: seq<F>)

  datatype VideoError = VideoNotFound | NoFrames

  /** The frame loading of `VideoProcessor.process_video` and of
      `MeldDataset.__load_video_frames__`: refuse a capture that is not open
      or whose first read fails, read up to 30 frames from the start, then pad
      with frames shaped like the first one (`zeroLike`, which stands for
      `np.zeros_like`). */
  function ReadFrames<F>(cap: Capture<F>, zeroLike: F -> F): (r: Result<seq<F>, VideoError>)
    ensures r.Success? <==> cap.isOpen && |cap.frames| > 0
    ensures r.Success? ==>
      && |r.value| == FrameCount
      && (forall i :: 0 <= i < |cap.frames| && i < FrameCount ==> r.value[i] == cap.frames[i])
      && (forall i :: |cap.frames| <= i < FrameCount ==> r.value[i] == zeroLike(cap.frames[0]))
  {
    if !cap.isOpen then Failure(VideoNotFound)
    else if |cap.frames| == 0 then Failure(VideoNotFound)
    else
      var read := ReadUpTo(cap.frames, FrameCount);
      if |read| == 0 then Failure(NoFrames)
      else Success(PadOrTruncate(read, FrameCount, zeroLike(read[0])))
  }

  /** The read loop: frames are taken in order until `limit` are held or the
      capture runs out. */
  function ReadUpTo<F>(frames: seq<F>, limit: nat): (read: seq<F>)
    ensures |read| == if |frames| < limit then |frames| else limit
    ensures read == frames[..|read|]
    decreases limit
  {
    if limit == 0 || |frames| == 0 then []
    else [frames[0]] + ReadUpTo(frames[1..], limit - 1)
  }

  /** A spectrogram as channels of mel bins of time steps. */
  type Spectrogram<E> = seq<seq<seq<E>>>

  /** The last-axis shaping of `extract_features` and
      `_extract_audio_features_`: every time series is cut to its first 300
      steps or right-padded with `zero`. */
  function FixTimeAxis<E>(spec: Spectrogram<E>, zero: E): (r: Spectrogram<E>)
    ensures |r| == |spec|
    ensures forall c :: 0 <= c < |r| ==> |r[c]| == |spec[c]|
    ensures forall c, m :: 0 <= c < |r| && 0 <= m < |r[c]| ==>
      && |r[c][m]| == TimeSteps
      && (forall t :: 0 <= t < |spec[c][m]| && t < TimeSteps ==> r[c][m][t] == spec[c][m][t])
      && (forall t :: |spec[c][m]| <= t < TimeSteps ==> r[c][m][t] == zero)
  {
    seq(|spec|, c requires 0 <= c < |spec| =>
      seq(|spec[c]|, m requires 0 <= m < |spec[c]| => PadOrTruncate(spec[c][m], TimeSteps, zero)))
  }
}
