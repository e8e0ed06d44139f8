# Sentiment-analysis SaaS: a Dafny model of its decision logic

The application lets signed-in users upload videos and have them analysed by
a hosted multimodal sentiment model. Most of the code is web UI or calls to
cloud services. Underneath are small pieces of sequential logic, and this
project models them as pure functions over immutable tables (maps keyed by
user id, secret key or object key). Time, randomness and every external
service are parameters.

- **Quota ledger** (`QuotaLedger`): `checkAndUpdateQuota` decides whether a
  request is admitted. It resets an expired window, denies a request at the
  cap, and otherwise admits and optionally counts it. The window length is a
  parameter. `AsWrittenPeriod` is 30, which the code compares against raw
  milliseconds. `IntendedPeriod` is thirty days in milliseconds.
- **Inference request gate** (`SentimentInference`): the `POST` validation
  chain checks, in order, the key, the key lookup, the body key, that the
  file exists, its owner, and that it is not yet analysed. It then checks the
  quota, calls the endpoint and marks the file analysed. The endpoint is a
  function parameter. The outcome records the path that was sent to it.
- **Bearer key** (`ApiKeys`): the `Authorization` header with its first
  `"Bearer "` removed, as both API routes read it. The value is taken as it
  arrives, after the Fetch standard's `Headers` have removed leading and
  trailing whitespace (`Normalize`).
- **Upload-URL issuer** (`UploadUrl`): the file-type pattern, the object key,
  the content type, and creation of the file row. The UUID and the presigner
  are parameters.
- **Quota provisioning** (`QuotaRoute`): the row is created on first access
  with fixed defaults. Its secret key is `sa_live_` followed by the hex of 24
  random bytes.
- **Registration** (`Auth`): schema check, then a duplicate-e-mail check,
  then the insert with a hashed password. The schema and the hash are
  parameters.
- **ML pipeline helpers** (`FixedLength`, `Inference`, `MeldDataset`,
  `LabelAgreement`):
  - 30-frame and 300-step pad/truncate;
  - the S3 URI split;
  - the content-type guards;
  - the model-file search and checkpoint unwrapping;
  - the per-segment aggregation of `predict_fn`;
  - the label maps;
  - the clip file name, `__getitem__` and `collate_fn`.

Shared modules: `Results` (`Option`, `Result`, the `filter(None, …)` of a
batch), `ObjectStore` (the bucket and the `s3://` path of an upload), `Text` (JavaScript
`replace`, Python `split`/`join`/`os.path.join`/`str(int)`, ASCII lower-casing)
and `Store` (the `apiQuota` and `videoFile` tables with their uniqueness
constraints as `Store.Valid`, and the `sa_live_` form of every issued
secret as `Store.IssuedSecrets`).

The handlers are stated for any window length. The code's 30 ms and the
intended 30 days are the two instantiations. `Inference.Predict` is likewise
stated for any label maps. The code compares raw milliseconds against 30,
while its own names say a month is meant: the variable `daysSinceLastReset`
(src/lib/quota.ts:17) and the 429 message "Monthly Quota exceeded"
(src/app/api/sentiment-inference/route.ts:64). The model follows the code and
keeps the month as the corrected instance.

## Model

| member | source | states |
|---|---|---|
| QuotaLedger.Admit | src/lib/quota.ts:13-44 | An expired window always admits; when deducting it restarts with `requestsUsed = 1` and `lastResetDate = now`. A denial happens exactly inside the window at or above the cap and writes nothing. An in-window deducting admission adds exactly one. A non-deducting call never writes. Owner, key and cap never change. |
| QuotaLedger.CheckAndUpdateQuota | src/lib/quota.ts:5-45 | A missing row is `NotFound` and nothing is created. Otherwise only the caller's row changes, as `Admit` says, and the table's key set is unchanged. |
| QuotaLedger.AdmitPreservesWellFormed | src/lib/quota.ts:19-44 | `0 <= requestsUsed <= maxRequests` with a positive cap is kept by every call. With a non-negative period the window start never moves backwards. |
| QuotaLedger.InWindowAdmitsUpToCap | src/lib/quota.ts:33-44 | Within one window, the i-th deducting call is admitted iff `requestsUsed + i < maxRequests`. The final counter and the admission count are exact. |
| QuotaLedger.FreshRowAdmitsExactlyCap | src/lib/quota.ts:33-44 | From an unused row inside one window, exactly the first `maxRequests` calls are admitted and every later one is denied. |
| QuotaLedger.SpacedCallsAlwaysAdmitted | src/lib/quota.ts:17-30 | Calls at least one period apart are all admitted, whatever the cap. |
| QuotaLedger.AsWrittenWindowBypass | src/lib/quota.ts:17-19 | With the 30 ms threshold as written, a user already at the cap is admitted by every call made 30 ms after the previous one, so n such calls are n admissions. |
| QuotaLedger.IntendedWindowCapsAdmissions | src/lib/quota.ts:17-44 | With a 30-day window, calls within one window from a fresh row admit exactly the first `maxRequests`. |
| QuotaLedger.PeriodsDisagreeAtCap | src/lib/quota.ts:17-35 | A row at its cap, called between 30 ms and 30 days after its reset: the code as written admits and the 30-day window denies. |
| ApiKeys.ApiKey | src/app/api/sentiment-inference/route.ts:14-18 | No header, or an empty result, gives no key. A header without `"Bearer "` is used verbatim. Otherwise exactly the leftmost occurrence of `"Bearer "` is cut out, wherever it sits, and what remains is the key unless it is empty. |
| Text.ReplaceFirst | src/app/api/sentiment-inference/route.ts:14 | JavaScript `replace` with a string pattern and a replacement without `$`: with no occurrence the string is unchanged, and a leading occurrence is replaced by the replacement. |
| Text.ReplaceFirstLeftmost | src/app/api/sentiment-inference/route.ts:14 | With an occurrence, the result is the text before the leftmost occurrence, then the replacement, then the text after it, so the length changes by the difference of the two. |
| Text.ReplaceFirstRemoves | src/app/api/upload-url/route.ts:54 | Replacing with `""`, the form both routes use, cuts out exactly the leftmost occurrence and shortens the string by the pattern's length. A leading occurrence leaves the rest, and without an occurrence the string is unchanged. |
| Text.IndexOf | src/app/api/sentiment-inference/route.ts:14 | The leftmost occurrence: the pattern occurs there and at no earlier position. |
| ApiKeys.BarePrefixHasNoKey | src/app/api/upload-url/route.ts:12-16 | A header value that is exactly `"Bearer "` carries no key. Such a value never arrives from a client, because its trailing space is trimmed. |
| ApiKeys.TrimStart | src/app/api/sentiment-inference/route.ts:14 | The leading whitespace removed from a header value: the result is a suffix, everything dropped is space, tab, CR or LF, and the result does not start with one. |
| ApiKeys.TrimEnd | src/app/api/sentiment-inference/route.ts:14 | The trailing counterpart: the result is a prefix, everything dropped is whitespace, and the result does not end with it. |
| ApiKeys.Normalize | src/app/api/sentiment-inference/route.ts:14 | The arrived header value is the sent one without its leading and trailing space, tab, CR or LF. It sits inside the sent value with only whitespace before and after it, and neither starts nor ends with whitespace. |
| ApiKeys.NormalizeKeepsTrimmed | src/app/api/sentiment-inference/route.ts:14 | A value that neither starts nor ends with whitespace arrives unchanged. |
| ApiKeys.ClientKeyArrivesIntact | src/components/client/upload-button.tsx:75 | The client's `Bearer ${apiKey}` header, for a non-empty key not ending in whitespace, arrives unchanged and yields exactly that key. |
| ApiKeys.EmptyClientKeyArrivesBare | src/components/client/upload-button.tsx:75 | With an empty key the client sends `"Bearer "`, which arrives as `"Bearer"`. That value contains no `"Bearer "`, so `"Bearer"` itself becomes the key and is looked up, rather than refused as missing. |
| SentimentInference.EmptyClientKeyRefused | src/app/api/sentiment-inference/route.ts:14-31 | When every stored secret carries the `sa_live_` prefix, a client with an empty key gets 401 "Invalid API key", nothing is sent and nothing changes. |
| UploadUrl.EmptyClientKeyRefused | src/app/api/upload-url/route.ts:12-30 | The same for the upload route: 401 "Invalid API key" with nothing recorded. |
| ApiKeys.OnlyFirstPrefixRemoved | src/components/client/upload-button.tsx:75 | The header the client builds, `Bearer ${apiKey}`, gives back exactly the key, even when the key itself contains `"Bearer "`. |
| ApiKeys.EmbeddedPrefixRemoved | src/app/api/sentiment-inference/route.ts:14 | A `"Bearer "` that does not lead the header is still cut out, so `"Token Bearer abc"` yields `"Token abc"`. |
| ObjectStore.VideoPath | src/app/api/sentiment-inference/route.ts:79-81 | The payload path starts with `s3://sentiment-analysis-saas-ai/` and what follows is exactly the key. |
| SentimentInference.Post | src/app/api/sentiment-inference/route.ts:11-108 | Missing or empty key gives 401, and an unknown key gives 401, both before anything else. With a known key, an unparsable body gives 500 and a missing or empty body key gives 400 "Key is required". The endpoint is called only for a body with a key, and it is sent that key's path. Every response without an endpoint call leaves the database unchanged. A success marks exactly the requested file analysed. The files table changes only on success. A 429 consumes nothing and leaves the file unanalysed. |
| SentimentInference.RejectionOrder | src/app/api/sentiment-inference/route.ts:36-59 | For a caller whose key resolves and a non-empty body key: 404 iff the file is absent; 401 iff it belongs to someone else; 400 iff it is the caller's and already analysed. None of them touches the database or the quota. |
| SentimentInference.QuotaGate | src/app/api/sentiment-inference/route.ts:61-101 | Once the file checks pass and the caller has a quota row: the endpoint is sent the file's path iff the quota admits, the answer is 429 iff it denies, and an endpoint reply becomes the response. |
| SentimentInference.ChargedExactlyWhenSent | src/app/api/sentiment-inference/route.ts:61-85 | When the endpoint is called, the caller's quota row was admitted and updated by one deducting check. No other row changes. |
| SentimentInference.SuccessConsumesOneRequest | src/app/api/sentiment-inference/route.ts:61-65 | A call that reaches the endpoint counts one request: the counter goes up by one in the window, or restarts at one after it. |
| SentimentInference.EndpointFailureKeepsCharge | src/app/api/sentiment-inference/route.ts:84-107 | When the endpoint call or decoding fails after admission, the response is 500. The caller's quota row keeps the deducting update of the admission, and the file stays unanalysed. |
| SentimentInference.PostPreservesValid | src/app/api/sentiment-inference/route.ts:61-92 | The handler keeps the schema's uniqueness constraints. |
| SentimentInference.SecondRequestRejected | src/app/api/sentiment-inference/route.ts:57-92 | After a success, repeating the request answers 400 "File already analyzed", sends nothing and changes nothing. |
| UploadUrl.MatchesVideoSuffixIff | src/app/api/upload-url/route.ts:33-35 | The pattern accepts exactly the strings whose fourth-last character is `.` and whose last three, lower-cased, are `mp4`, `mov` or `avi`. It is not anchored at the start. |
| UploadUrl.MimeTypeRejected | src/app/api/upload-url/route.ts:33 | The MIME string `video/mp4` does not match. |
| UploadUrl.FileNamePasses | src/app/api/upload-url/route.ts:33 | A whole file name ending in `.MoV` matches: case-insensitive, with any prefix. |
| UploadUrl.ObjectKey | src/app/api/upload-url/route.ts:45-47 | The key starts with `inference/`, ends with the file type, and the id sits between them. |
| UploadUrl.ContentType | src/app/api/upload-url/route.ts:54 | The content type starts with `video/` and is one character shorter than `video/` plus the file type iff the file type contains a dot. |
| UploadUrl.ContentTypeDropsFirstDot | src/app/api/upload-url/route.ts:54 | Only the first dot is dropped: `.mp4` gives `video/mp4` and `clip.mp4` gives `video/clipmp4`. |
| UploadUrl.Post | src/app/api/upload-url/route.ts:9-84 | Missing or empty key gives 401, an unknown key gives 401, and a missing or non-matching file type gives 400; none of them writes. With a known key, an unparsable body gives 500. A matching file type is granted iff its object key is not yet taken, and a taken key gives 500. Every 500 comes from one of those two cases. A grant returns the generated id, the stored key and the presigned URL for that key and content type. It adds exactly one row with that key, owned by the key's user, with `analyzed = false`. |
| UploadUrl.GrantAddsOneFile | src/app/api/upload-url/route.ts:58-66 | The files table grows by one exactly on a grant, and the uniqueness constraints hold afterwards. |
| UploadUrl.ClientMimeTypeRefused | src/components/client/upload-button.tsx:73-79 | The client sends the browser MIME type as `fileType`. Every `video/<subtype>` without a dot, such as `video/mp4` or `video/quicktime`, is refused with 400 and records nothing. |
| QuotaRoute.Hex | src/app/api/quota/route.ts:30 | Hex output is twice as long as the input and uses only lower-case hex digits. |
| QuotaRoute.UnhexHex | src/app/api/quota/route.ts:30 | Hex encoding is invertible. |
| QuotaRoute.SecretKey | src/app/api/quota/route.ts:30 | A secret key has 56 characters: `sa_live_` followed by 48 lower-case hex digits. |
| QuotaRoute.SecretKeyRoundTrip | src/app/api/quota/route.ts:30 | The key determines the random bytes it was made from. |
| QuotaRoute.Get | src/app/api/quota/route.ts:6-48 | No session user gives 401 with nothing created. An existing row is returned unchanged with nothing created. A missing row is created iff its fresh secret key is unused, and a colliding key gives 500 "Failed to fetch API quota". The only write is that creation, with `requestsUsed = 0`, `maxRequests = 10000` and the fresh key, which is also what is returned. |
| QuotaRoute.GetPreservesValid | src/app/api/quota/route.ts:25-40 | Provisioning keeps the uniqueness constraints. A created row is unused, has cap 10000 and a 56-character `sa_live_` key. |
| QuotaRoute.GetIssuesPrefixedKeys | src/app/api/quota/route.ts:25-40 | Provisioning keeps every stored secret prefixed with `sa_live_`, the premise of the empty-key refusals. |
| QuotaRoute.GetIdempotent | src/app/api/quota/route.ts:14-43 | A second call for the same user returns what the first returned and changes nothing, whatever random bytes it draws. |
| Auth.FindByEmail | src/actions/auth.ts:22 | Finds a user with the e-mail iff one exists, and it is the first such user. |
| Auth.RegisterUser | src/actions/auth.ts:11-37 | A schema failure gives "Invalid data" and an existing e-mail gives "User already exists", both with the table unchanged. An accepted sign-up with a new e-mail registers iff hashing succeeds, and otherwise answers "Something went wrong". The table changes iff registration succeeds, by appending one user whose stored password is the hash with cost 12. |
| Auth.RegisterPreservesUniqueEmails | src/actions/auth.ts:22-30 | At most one user per e-mail is kept. |
| Auth.SecondRegistrationRefused | src/actions/auth.ts:22-26 | After a successful registration, registering the same e-mail again is refused and the table stays as it was. |
| FixedLength.PadOrTruncate | deployment/inference.py:110-113 | The result has exactly the target length. It holds the first elements of the input in order, then only padding. |
| FixedLength.PadOrTruncateFixes | training/meld_dataset.py:69-72 | Shaping leaves a sequence unchanged iff it already has the target length. |
| FixedLength.PadOrTruncateIdempotent | deployment/inference.py:109-113 | Shaping twice equals shaping once. |
| FixedLength.PadOrTruncateSplits | training/meld_dataset.py:69-72 | The result is the kept prefix of the input followed by a block of padding. |
| FixedLength.ReadUpTo | deployment/inference.py:92-99 | The read loop takes the first `min(n, limit)` frames in order; the limit is 30. |
| FixedLength.ReadFrames | deployment/inference.py:76-113 | A capture that is not open, or that has no frames, is refused. Otherwise the result is exactly 30 frames: the first `min(n, 30)` in order, then zero frames shaped like the first. The same logic is at training/meld_dataset.py:39-81. |
| FixedLength.FixTimeAxis | deployment/inference.py:153-157 | The channel and mel axes keep their sizes. Every time series becomes exactly 300 steps: a prefix when longer, right zero-padded when shorter. The same logic is at training/meld_dataset.py:106-110. |
| Inference.DeployedLabelDomains | deployment/inference.py:17-19 | `EMOTION_MAP` is defined on exactly 0..6 and `SENTIMENT_MAP` on exactly 0..2, both one-to-one. |
| Inference.SplitS3Uri | deployment/inference.py:196-199 | The split fails iff the URI has fewer than three `/`-fields. The bucket never contains `/`. |
| Inference.SplitS3UriRoundTrip | deployment/inference.py:198-199 | For `s3://B/k` with `B` free of `/`, the split gives `(B, k)` for any `k`. |
| Inference.HandlerPathRoundTrip | src/app/api/sentiment-inference/route.ts:79-81 | The path the web handler sends splits back into its bucket and the uploaded key. |
| Inference.InputFn | deployment/inference.py:195-212 | Any content type other than `application/json` raises. For JSON, each failure is pinned: unparsable JSON, a missing `video_path`, and a URI with fewer than three `/`-fields. A well-formed URI succeeds iff its bucket and key download, and then the result is the downloaded path. A success always comes from such a download. |
| Inference.HandlerRequestDownloadsUpload | deployment/inference.py:206-211 | A request built by the web handler downloads the object at that key in the bucket `sentiment-analysis-saas-ai`. |
| Inference.OutputFn | deployment/inference.py:215-218 | Output succeeds iff the content type is `application/json`, and then it is the serialised prediction. |
| Inference.CandidatePaths | deployment/inference.py:236-246 | One candidate per model-file entry, nine in all, in priority order. |
| Inference.CandidatePathsFlat | deployment/inference.py:236-246 | Under a directory without a trailing `/`, each candidate is the directory, one `/` and the entry's parts joined with `/` (for example `model2_final/model.pth`). |
| Inference.JoinAllFlat | deployment/inference.py:237-245 | `os.path.join` onto a directory without a trailing `/` puts exactly one `/` between every two parts that have none at their end. |
| Inference.FirstExisting | deployment/inference.py:248-252 | Chooses an existing path with no existing path before it, or none iff no path exists. |
| Inference.LocateModel | deployment/inference.py:221-256 | A missing ffmpeg raises first. Otherwise the result is the highest-priority existing candidate, or `FileNotFoundError` listing all candidates iff none exists. |
| Inference.StateDict | deployment/inference.py:264-277 | The weights are the `state_dict` entry if present, else the `model_state_dict` entry, else the checkpoint itself. |
| Inference.StateDictOfSaved | training/train.py:178 | Unwrapping undoes saving: bare weights, as training saves them, and weights under `state_dict` or `model_state_dict` come back exactly as saved. |
| Inference.Names | deployment/inference.py:468-473 | Index decoding succeeds iff every index is in the map, and then decodes each one. |
| Inference.Predict | deployment/inference.py:365-483 | With failing segments skipped: at most one utterance per segment, in segment order, with start, end and text copied. |
| Inference.PredictKeepsSuccesses | deployment/inference.py:377-477 | Every segment whose processing and decoding succeeded contributes its utterance. |
| Inference.UtterLabelsFromMaps | deployment/inference.py:464-474 | An utterance shows only names taken from the label maps. |
| Inference.PredictLabelsFromMaps | deployment/inference.py:464-483 | Every label in the prediction is a name from the maps. |
| Inference.PredictIsFilter | deployment/inference.py:377-483 | The prediction is exactly the per-segment attempts with the failed ones dropped: every utterance is its own segment's decoded outcome, in order, and a failed segment contributes nothing. |
| Inference.PredictFrom | deployment/inference.py:377-482 | The loop as written, from a state where `segment_path` may be unbound: it fails iff the name is unbound and the first clip cannot be cut; otherwise it equals the corrected `Predict`. |
| Inference.PredictAsWritten | deployment/inference.py:365-483 | `predict_fn` as written fails iff the first segment's clip cannot be cut, and otherwise equals `Predict`. |
| Inference.FirstExtractFailureAbortsAll | deployment/inference.py:377-482 | A transcript whose first clip cannot be cut but whose second segment scores: as written the whole prediction fails, while the corrected loop reports the second segment. |
| LabelAgreement.DeployedMapsMisreadTraining | deployment/inference.py:15-19 | Read against the training encoding, the deployed maps return the right name only for anger, disgust and fear. Neutral (6) reads as surprise, and no sentiment reads as itself. |
| LabelAgreement.TrainingLabelsRoundTrip | training/meld_dataset.py:23-37 | The inverse of the training encodings decodes every training label back to itself, on the same index domains as the deployed maps. |
| MeldDataset.TrainingLabelEncodings | training/meld_dataset.py:23-37 | `emotion_map` is one-to-one onto 0..6 and `sentiment_map` onto 0..2. |
| MeldDataset.LabelOf | training/meld_dataset.py:149-150 | The lookup is defined iff the lower-cased label is a key, and then gives that key's index. |
| MeldDataset.LabelOfIgnoresCase | training/meld_dataset.py:149-150 | Labels that differ only in letter case encode alike. |
| MeldDataset.LabelRanges | training/meld_dataset.py:23-37 | Encoded emotions lie in 0..6 and sentiments in 0..2. |
| MeldDataset.ClipName | training/meld_dataset.py:129 | Clip names start with `dia` and end with `.mp4`. |
| MeldDataset.ClipNameRoundTrip | training/meld_dataset.py:129-130 | A clip name determines both its dialogue id and its utterance id. |
| MeldDataset.GetItem | training/meld_dataset.py:122-165 | A missing clip, a tokenizer failure or an unknown label gives `None`. An example is produced iff the clip exists, the utterance tokenizes (lines 138-143), its video and audio load, and both lower-cased labels are known. It then holds the utterance's tokens, 30 frames, the 300-step spectrogram and labels in range. |
| Results.Present | training/meld_dataset.py:170 | Filtering drops exactly the `None` items. Every kept item came from the batch, and nothing is dropped from a batch without `None`. |
| Results.PresentAppend | training/meld_dataset.py:170 | Filtering commutes with concatenation, so surviving items keep their order. |
| MeldDataset.CollateFn | training/meld_dataset.py:169-171 | Collation fails iff every item is `None`; otherwise it stacks exactly the filtered items. |

## Findings

| source | as written | input that shows it | evidently intended | confidence | as-written member | corrected member |
|---|---|---|---|---|---|---|
| src/lib/quota.ts:17-19 | Elapsed milliseconds are compared with 30, so the window lasts 30 ms | A row with `requestsUsed = maxRequests`, called 30 ms after its last reset, is admitted and reset | A 30-day window (`daysSinceLastReset`, "Monthly Quota exceeded") | high; not executed | QuotaLedger.AsWrittenWindowBypass | QuotaLedger.IntendedWindowCapsAdmissions |
| deployment/inference.py:377-482 | The `finally` clause reads `segment_path`, which is unbound when cutting the first segment's clip raised, so `UnboundLocalError` escapes and the whole prediction fails | A transcript whose first segment cannot be cut by ffmpeg | Skip the failed segment, as the `except` clause does for every other failure | high; not executed | Inference.FirstExtractFailureAbortsAll | Inference.Predict |
| deployment/inference.py:15-19 | The decoding maps differ from the training encoding in training/meld_dataset.py:23-37 | A clip the model classifies as index 6 (neutral in training) is reported as "surprise", and index 0 (positive) as "negative" | Decode with the inverse of the training encoding, as the comment claims | medium (training/models.py, which the comment cites, is not part of this model); not executed | LabelAgreement.DeployedMapsMisreadTraining | LabelAgreement.TrainingLabelsRoundTrip |

The route model is stated for any window length. `IntendedPeriod` is the
instance that has the cap property, and `AsWrittenPeriod` the one the code
uses. `Inference.Predict` is the skipping loop and is stated for any label
maps. `LabelAgreement.TrainingLabels` is the decoding that agrees with
training, and `Inference.DeployedLabels` is the one the code uses.

## Left out

- Concurrency: the read-then-write in src/lib/quota.ts:9-43 and the
  check-then-insert in src/actions/auth.ts:22-30 are races. The model is
  sequential and does not show them.
- External services are parameters, not models: the S3 presigner, the
  SageMaker call, boto3 downloads, ffmpeg, cv2, torchaudio/librosa, whisper,
  the tokenizer, bcrypt, the zod `signupSchema`, the session provider, UUID
  and `randomBytes`, and the clock.
- Database failures other than unique-key collisions. A colliding object key
  or secret key is modelled as the 500 the insert would cause. A lost
  connection is not modelled.
- Floating point: frame resizing and `/255.0`, spectrogram normalisation,
  NaN replacement, clamps, softmax and top-k confidences. Frames and samples
  are abstract elements. Utterances carry label names but no confidences.
- JSON fields of another type than a string. A falsy one (`0`, `false`,
  `null`) gets the same 400 as a missing field. A truthy non-string one,
  such as a numeric `key` or `fileType`, makes Prisma or `.match` throw into
  the 500 branch. The model's body fields are strings or absent, so only the
  400 case has a counterpart.
- Inference.HandlerRequestDownloadsUpload: the upload is presigned for the
  bucket named by `env.AWS_INFERENCE_BUCKET`
  (src/app/api/upload-url/route.ts:52), while the analysis route names
  `sentiment-analysis-saas-ai` (src/app/api/sentiment-inference/route.ts:80).
  The lemma is about the object in the latter bucket. It is the uploaded
  video only when the environment names that bucket, which the environment
  configuration (not part of this model) decides.
- ApiKeys.ApiKey: header values arrive whitespace-trimmed, and the function
  takes the value as it arrives. The trim itself is `ApiKeys.Normalize`.
  `ClientKeyArrivesIntact` and `EmptyClientKeyArrivesBare` relate the header
  the client sends to the value that arrives.
- deployment/inference.py: not modelled are `install_ffmpeg` (its result is
  the boolean `ffmpegInstalled`), `extract_segment` (its failure is the
  `ExtractFailed` outcome), the `.mp4` to `.wav` renaming and ffmpeg run of
  `extract_features`, the `load_state_dict` fallback, the dummy-input test,
  `validate_model_weights` and `process_local_video`.
- training/meld_dataset.py: not modelled are `__len__`, `prepare_dataloaders`
  and the row reading of pandas. A row is a record whose ids are
  non-negative integers.
- MeldDataset.LabelOf: lower-cases ASCII letters only. Python's `str.lower`
  also folds other letters, but none of the map keys contains one.
- QuotaRoute.Get: requires exactly 24 random bytes, which
  `crypto.randomBytes(24)` always delivers. The new row's reset date is the
  call time, taken to be the schema default. The schema is not part of this
  model.
- Auth.RegisterUser: the success reply `{sucess: true}` (spelled so) is
  `Registered`. Generated user ids are not modelled.
