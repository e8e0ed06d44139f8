/** The `POST` handler of src/app/api/upload-url/route.ts: it checks the
    caller's key and the requested file type, derives the object key and the
    content type, presigns an upload and records the file as not yet
    analyzed. The random id and the presigner are parameters. */
module UploadUrl {
  import opened Results
  import opened Text
  import opened Store
  import opened ApiKeys

  /** The extensions the file-type pattern `\.(mp4|mov|avi)$` (case-blind)
      lists. */
  const VideoExtensions: set<string> := {"mp4", "mov", "avi"}

  /** The pattern test: some case-folding of the last four characters is
      `.mp4`, `.mov` or `.avi`; nothing is required of what comes before. */
  predicate MatchesVideoSuffix(fileType: string) {
    var lowered := Lower(fileType);
    EndsWith(lowered, ".mp4") || EndsWith(lowered, ".mov") || EndsWith(lowered, ".avi")
  }

  /** The pattern holds exactly when the fourth-last character is a dot and
      the last three, lower-cased, are one of the listed extensions. */
  lemma MatchesVideoSuffixIff(fileType: string)
    ensures MatchesVideoSuffix(fileType) <==>
      |fileType| >= 4 && fileType[|fileType| - 4] == '.' &&
      Lower(fileType[|fileType| - 3..]) in VideoExtensions
  {
    var lowered := Lower(fileType);
    var n := |fileType|;
    if n >= 4 {
      assert Lower(fileType[n - 3..]) == lowered[n - 3..] by {
        LowerSuffix(fileType, n - 3);
      }
      assert lowered[n - 4] == '.' <==> fileType[n - 4] == '.';
      LoweredTail(lowered);
    }
  }

  /** The suffix test on an already lower-cased string, split at the dot. */
  lemma LoweredTail(lowered: string)
    requires |lowered| >= 4
    ensures (EndsWith(lowered, ".mp4") || EndsWith(lowered, ".mov") || EndsWith(lowered, ".avi")) <==>
      lowered[|lowered| - 4] == '.' && lowered[|lowered| - 3..] in VideoExtensions
  {
    var n := |lowered|;
    var tail := lowered[n - 4..];
    var ext := lowered[n - 3..];
    assert ext == tail[1..];
    DotExtension(tail, ext, "mp4");
    DotExtension(tail, ext, "mov");
    DotExtension(tail, ext, "avi");
  }

  lemma LowerSuffix(s: string, k: nat)
    requires k <= |s|
    ensures Lower(s[k..]) == Lower(s)[k..]
  {
  }

  lemma DotExtension(tail: string, ext: string, e: string)
    requires |tail| == 4 && |e| == 3 && ext == tail[1..]
    ensures tail == "." + e <==> tail[0] == '.' && ext == e
  {
    if tail[0] == '.' && ext == e {
      assert tail == [tail[0]] + tail[1..];
    }
  }

  /** A MIME type such as "video/mp4" (what a browser reports as a file's
      type) has no dot before the extension and is rejected. */
  lemma MimeTypeRejected()
    ensures !MatchesVideoSuffix("video/mp4")
  {
    MatchesVideoSuffixIff("video/mp4");
    assert "video/mp4"[5] == '/';
  }

  /** A whole file name with an accepted extension, in any case, passes. */
  lemma FileNamePasses(name: string)
    ensures MatchesVideoSuffix(name + ".MoV")
  {
    MatchesVideoSuffixIff(name + ".MoV");
    var s := name + ".MoV";
    assert s[|s| - 3..] == "MoV";
    assert Lower("MoV") == "mov";
  }

  /** The object key of an upload: under `inference/`, ending in the file
      type exactly as sent. */
  function ObjectKey(id: string, fileType: string): (key: string)
    ensures StartsWith(key, "inference/") && EndsWith(key, fileType)
    ensures |key| == 10 + |id| + |fileType|
    ensures key[10..|key| - |fileType|] == id
  {
    "inference/" + id + fileType
  }

  /** The content type put on the upload: "video/" followed by the file type
      with its first dot removed. */
  function ContentType(fileType: string): (ct: string)
    ensures StartsWith(ct, "video/")
    ensures |ct| == 6 + |fileType| - (if Contains(fileType, ".") then 1 else 0)
  {
    ReplaceFirstRemoves(fileType, ".");
    "video/" + ReplaceFirst(fileType, ".", "")
  }

  /** For a file type with a single leading-part dot, the content type is
      "video/" followed by the parts around that dot: ".mp4" gives
      "video/mp4", and "clip.mp4" gives "video/clipmp4". */
  lemma ContentTypeDropsFirstDot(stem: string, extension: string)
    requires '.' !in stem
    ensures ContentType(stem + "." + extension) == "video/" + stem + extension
  {
    ReplaceFirstAfter(stem, '.', extension, "");
    assert "." == ['.'];
  }

  datatype Body = Unparsable | Json(fileType: Option<string>)

  /** The response of a successful request: the presigned URL, the generated
      id, the file type as sent, and the object key. */
  datatype Grant = Grant(url: string, fileId: string, fileType: string, key: string)

  datatype Response = Granted(grant: Grant) | Error(status: int, message: string)

  datatype Outcome = Outcome(response: Response, db: Db)

  function Post(db: Db, authorization: Option<string>, body: Body, id: string,
                presign: (string, string) -> string): (o: Outcome)
    ensures ApiKey(authorization).None? ==> o == Outcome(Error(401, "API key is required"), db)
    ensures ApiKey(authorization).Some? && ApiKey(authorization).value !in db.secrets ==>
      o == Outcome(Error(401, "Invalid API key"), db)
    ensures ApiKey(authorization).Some? && ApiKey(authorization).value in db.secrets &&
            body.Json? && (body.fileType.None? || !MatchesVideoSuffix(body.fileType.value)) ==>
      o == Outcome(Error(400, "Invalid file type"), db)
    // a body that is not JSON makes `request.json()` throw
    ensures ApiKey(authorization).Some? && ApiKey(authorization).value in db.secrets && body.Unparsable? ==>
      o == Outcome(Error(500, "Internal server error"), db)
    // a known key with a matching file type is granted unless its object
    // key is already taken, which makes the insert throw
    ensures ApiKey(authorization).Some? && ApiKey(authorization).value in db.secrets &&
            body.Json? && body.fileType.Some? && MatchesVideoSuffix(body.fileType.value) ==>
      (o.response.Granted? <==> ObjectKey(id, body.fileType.value) !in db.files)
    ensures ApiKey(authorization).Some? && ApiKey(authorization).value in db.secrets &&
            body.Json? && body.fileType.Some? && MatchesVideoSuffix(body.fileType.value) &&
            ObjectKey(id, body.fileType.value) in db.files ==>
      o == Outcome(Error(500, "Internal server error"), db)
    ensures o.response == Error(500, "Internal server error") ==>
      body.Unparsable? || (body.fileType.Some? && ObjectKey(id, body.fileType.value) in db.files)
    // no record is created unless the request is granted
    ensures !o.response.Granted? ==> o.db == db
    ensures o.response.Granted? ==>
      var g := o.response.grant;
      && ApiKey(authorization).Some? && ApiKey(authorization).value in db.secrets
      && body.Json? && body.fileType == Some(g.fileType)
      && MatchesVideoSuffix(g.fileType)
      && g.fileId == id
      && g.key == ObjectKey(id, g.fileType)
      && g.url == presign(g.key, ContentType(g.fileType))
      // exactly one record is added, owned by the key's user and not analyzed
      && g.key !in db.files
      && o.db == db.(files := db.files[g.key := VideoFile(g.key, db.secrets[ApiKey(authorization).value], false)])
  {
    match ApiKey(authorization)
    case None => Outcome(Error(401, "API key is required"), db)
    case Some(apiKey) =>
      if apiKey !in db.secrets then Outcome(Error(401, "Invalid API key"), db)
      else
        var userId := db.secrets[apiKey];
        match body
        case Unparsable => Outcome(Error(500, "Internal server error"), db)
        case Json(ft) =>
          if ft.None? || ft.value == "" || !MatchesVideoSuffix(ft.value) then
            Outcome(Error(400, "Invalid file type"), db)
          else
            var fileType := ft.value;
            var key := ObjectKey(id, fileType);
            var url := presign(key, ContentType(fileType));
            // the key column is unique: creating a second row with it throws
            if key in db.files then Outcome(Error(500, "Internal server error"), db)
            else
              Outcome(Granted(Grant(url, id, fileType, key)),
                      db.(files := db.files[key := VideoFile(key, userId, false)]))
  }

  /** A grant adds exactly one file row and keeps the schema's uniqueness
      constraints. */
  lemma GrantAddsOneFile(db: Db, authorization: Option<string>, body: Body, id: string,
                         presign: (string, string) -> string)
    requires Valid(db)
    ensures var o := Post(db, authorization, body, id, presign);
      && Valid(o.db)
      && |o.db.files| == |db.files| + (if o.response.Granted? then 1 else 0)
  {
  }

  /** A client with an empty key is refused as carrying an invalid key: its
      header arrives as `"Bearer"`, which is no issued secret. */
  lemma EmptyClientKeyRefused(db: Db, body: Body, id: string, presign: (string, string) -> string)
    requires IssuedSecrets(db)
    ensures Post(db, Some(Normalize("Bearer " + "")), body, id, presign) ==
      Outcome(Error(401, "Invalid API key"), db)
  {
    EmptyClientKeyArrivesBare();
    assert !StartsWith("Bearer", SecretPrefix);
  }

  /** The client sends the browser's MIME type as `fileType`. A video MIME
      type (`video/mp4`, `video/quicktime`, `video/x-msvideo`) has no dot,
      so every such request is refused with 400 and records nothing. */
  lemma ClientMimeTypeRefused(db: Db, authorization: Option<string>, subtype: string, id: string,
                              presign: (string, string) -> string)
    requires ApiKey(authorization).Some? && ApiKey(authorization).value in db.secrets
    requires '.' !in subtype
    ensures Post(db, authorization, Json(Some("video/" + subtype)), id, presign) ==
      Outcome(Error(400, "Invalid file type"), db)
  {
    var mime := "video/" + subtype;
    MatchesVideoSuffixIff(mime);
    assert '.' !in mime by {
      assert forall i :: 0 <= i < |mime| ==> mime[i] in "video/" || mime[i] in subtype by {
        forall i | 0 <= i < |mime| ensures mime[i] in "video/" || mime[i] in subtype {
          if i >= 6 {
            assert mime[i] == subtype[i - 6];
          }
        }
      }
    }
    if |mime| >= 4 {
      assert mime[|mime| - 4] in mime;
    }
  }
}
