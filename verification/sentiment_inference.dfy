/** The `POST` handler of src/app/api/sentiment-inference/route.ts: a
    fixed-order validation chain in front of the quota check and the call to
    the inference endpoint. The endpoint is a parameter; what it was sent is
    part of the outcome, so that "no request was made" can be stated. */
module SentimentInference {
  import opened Results
  import opened Text
  import opened Store
  import QuotaLedger
  import opened ApiKeys
  import opened ObjectStore

  /** The JSON body: unparsable (so `request.json()` throws), or an object
      whose `key` field may be missing. */
  datatype Body = Unparsable | Json(key: Option<string>)

  /** What the endpoint call produced: a decoded analysis, or a failure of the
      call or of decoding its reply. */
  datatype EndpointReply = Replied(analysis: string) | EndpointFailed

  datatype Response = Analysis(analysis: string) | Error(status: int, message: string)

  /** The response, the database afterwards, and the `video_path` sent to the
      endpoint, if it was called. */
  datatype Outcome = Outcome(response: Response, db: Db, sent: Option<string>)

  function Reject(db: Db, status: int, message: string): Outcome {
    Outcome(Error(status, message), db, None)
  }

  /** The user the caller's key resolves to, if it resolves. */
  function Caller(db: Db, authorization: Option<string>): Option<string> {
    var k := ApiKey(authorization);
    if k.Some? && k.value in db.secrets then Some(db.secrets[k.value]) else None
  }

  function Post(period: int, db: Db, authorization: Option<string>, body: Body, now: int,
                endpoint: string -> EndpointReply): (o: Outcome)
    // nothing is sent to the endpoint unless the quota check admitted the call
    ensures o.sent.Some? ==>
      && body.Json? && body.key.Some?
      && o.sent.value == VideoPath(body.key.value)
    // missing or empty key: 401 before any lookup
    ensures ApiKey(authorization).None? ==> o == Reject(db, 401, "API key is required")
    ensures ApiKey(authorization).Some? && ApiKey(authorization).value !in db.secrets ==>
      o == Reject(db, 401, "Invalid API key")
    // a body that does not parse, or whose key is missing or empty, is refused
    ensures Caller(db, authorization).Some? && body.Unparsable? ==>
      o == Reject(db, 500, "Internal server error")
    ensures Caller(db, authorization).Some? && body.Json? && (body.key.None? || body.key.value == "") ==>
      o == Reject(db, 400, "Key is required")
    // every response other than a success or a failure after admission leaves
    // the database exactly as it was
    ensures o.sent.None? ==> o.db == db
    // a success marks exactly the requested file analyzed
    ensures o.response.Analysis? ==>
      && o.sent.Some? && body.key.value in db.files
      && !db.files[body.key.value].analyzed
      && o.db.files == db.files[body.key.value := db.files[body.key.value].(analyzed := true)]
    // the files table changes only on success
    ensures !o.response.Analysis? ==> o.db.files == db.files
    // a 429 consumes nothing and leaves the file unanalyzed
    ensures o.response == Error(429, "Monthly Quota exceeded") ==>
      o.db == db && body.Json? && body.key.Some? &&
      body.key.value in db.files && !db.files[body.key.value].analyzed
  {
    match ApiKey(authorization)
    case None => Reject(db, 401, "API key is required")
    case Some(apiKey) =>
      if apiKey !in db.secrets then Reject(db, 401, "Invalid API key")
      else
        var userId := db.secrets[apiKey];
        match body
        case Unparsable => Reject(db, 500, "Internal server error")
        case Json(k) =>
          if k.None? || k.value == "" then Reject(db, 400, "Key is required")
          else
            var key := k.value;
            if key !in db.files then Reject(db, 404, "File not found")
            else
              var file := db.files[key];
              if file.userId != userId then Reject(db, 401, "Unauthorized")
              else if file.analyzed then Reject(db, 400, "File already analyzed")
              else
                match QuotaLedger.CheckAndUpdateQuota(period, db.quotas, userId, now, true)
                case Failure(_) => Reject(db, 500, "Internal server error")
                case Success((admitted, quotas)) =>
                  if !admitted then Reject(db, 429, "Monthly Quota exceeded")
                  else
                    var charged := db.(quotas := quotas);
                    var path := VideoPath(key);
                    match endpoint(path)
                    case EndpointFailed => Outcome(Error(500, "Internal server error"), charged, Some(path))
                    case Replied(analysis) =>
                      Outcome(Analysis(analysis),
                              charged.(files := charged.files[key := file.(analyzed := true)]),
                              Some(path))
  }

  /** The checks run in the order key, key lookup, body key, file, owner,
      flag: each status is produced exactly when every earlier check passed
      and this one failed, and none of them reaches the quota. */
  lemma RejectionOrder(period: int, db: Db, authorization: Option<string>, key: string, now: int,
                       endpoint: string -> EndpointReply)
    requires Caller(db, authorization).Some?
    requires key != ""
    ensures var o := Post(period, db, authorization, Json(Some(key)), now, endpoint);
      var u := Caller(db, authorization).value;
      && (key !in db.files <==> o.response == Error(404, "File not found"))
      && (key in db.files && db.files[key].userId != u <==> o.response == Error(401, "Unauthorized"))
      && (key in db.files && db.files[key].userId == u && db.files[key].analyzed <==>
            o.response == Error(400, "File already analyzed"))
      && (o.response.Error? && o.response.status in {401, 404, 400} ==> o.db == db && o.sent.None?)
  {
  }

  /** Once every check before the quota has passed, the quota decides: an
      admitted call sends the file's path to the endpoint, a denied one
      answers 429, and an endpoint reply becomes the response. */
  lemma QuotaGate(period: int, db: Db, authorization: Option<string>, key: string, now: int,
                  endpoint: string -> EndpointReply)
    requires Caller(db, authorization).Some?
    requires key != "" && key in db.files
    requires db.files[key].userId == Caller(db, authorization).value && !db.files[key].analyzed
    requires Caller(db, authorization).value in db.quotas
    ensures var o := Post(period, db, authorization, Json(Some(key)), now, endpoint);
      var u := Caller(db, authorization).value;
      var admitted := QuotaLedger.Admit(period, db.quotas[u], now, true).admitted;
      && (admitted <==> o.sent == Some(VideoPath(key)))
      && (!admitted <==> o.response == Error(429, "Monthly Quota exceeded"))
      && (admitted && endpoint(VideoPath(key)).Replied? ==>
            o.response == Analysis(endpoint(VideoPath(key)).analysis))
  {
  }

  /** The quota is charged exactly when the endpoint is called: the call
      consumed one request of the caller's row (restarting the window when it
      had expired), whatever the endpoint replied, and no other row changed. */
  lemma ChargedExactlyWhenSent(period: int, db: Db, authorization: Option<string>, body: Body, now: int,
                               endpoint: string -> EndpointReply)
    ensures var o := Post(period, db, authorization, body, now, endpoint);
      o.sent.Some? ==>
        && Caller(db, authorization).Some?
        && var u := Caller(db, authorization).value;
           && u in db.quotas
           && o.db.quotas == db.quotas[u := QuotaLedger.Admit(period, db.quotas[u], now, true).record]
           && QuotaLedger.Admit(period, db.quotas[u], now, true).admitted
  {
  }

  /** One deducting check consumes one request: inside the window the counter
      goes up by one, after it the counter restarts at one. */
  lemma SuccessConsumesOneRequest(period: int, db: Db, authorization: Option<string>, body: Body, now: int,
                                  endpoint: string -> EndpointReply)
    ensures var o := Post(period, db, authorization, body, now, endpoint);
      o.sent.Some? ==>
        && Caller(db, authorization).Some?
        && var u := Caller(db, authorization).value;
           && u in db.quotas && u in o.db.quotas
           && var q := db.quotas[u];
              o.db.quotas[u].requestsUsed == (if now - q.lastResetDate >= period then 1 else q.requestsUsed + 1)
  {
    ChargedExactlyWhenSent(period, db, authorization, body, now, endpoint);
  }

  /** A failure after admission (the endpoint call or its decoding) answers
      500, keeps the request charged and leaves the file unanalyzed. */
  lemma EndpointFailureKeepsCharge(period: int, db: Db, authorization: Option<string>, body: Body, now: int,
                                   endpoint: string -> EndpointReply)
    ensures var o := Post(period, db, authorization, body, now, endpoint);
      o.sent.Some? && endpoint(o.sent.value) == EndpointFailed ==>
        && o.response == Error(500, "Internal server error")
        && o.db.files == db.files
        && !o.db.files[body.key.value].analyzed
        && Caller(db, authorization).Some?
        && var u := Caller(db, authorization).value;
           && u in db.quotas
           && o.db.quotas == db.quotas[u := QuotaLedger.Admit(period, db.quotas[u], now, true).record]
  {
    ChargedExactlyWhenSent(period, db, authorization, body, now, endpoint);
  }

  /** The handler keeps the schema's uniqueness constraints. */
  lemma PostPreservesValid(period: int, db: Db, authorization: Option<string>, body: Body, now: int,
                           endpoint: string -> EndpointReply)
    requires Valid(db)
    ensures Valid(Post(period, db, authorization, body, now, endpoint).db)
  {
    var o := Post(period, db, authorization, body, now, endpoint);
    if o.sent.Some? {
      ChargedExactlyWhenSent(period, db, authorization, body, now, endpoint);
      assert o.db.secrets == db.secrets;
      forall v | v in o.db.quotas
        ensures o.db.quotas[v].userId == v && o.db.quotas[v].secretKey == db.quotas[v].secretKey
      {
      }
    }
  }

  /** A client with an empty key sends `"Bearer "`, which arrives as
      `"Bearer"`; no issued secret has that form, so the request is refused
      as carrying an invalid key and nothing changes. */
  lemma EmptyClientKeyRefused(period: int, db: Db, body: Body, now: int, endpoint: string -> EndpointReply)
    requires IssuedSecrets(db)
    ensures Post(period, db, Some(Normalize("Bearer " + "")), body, now, endpoint) ==
      Reject(db, 401, "Invalid API key")
  {
    EmptyClientKeyArrivesBare();
    assert !StartsWith("Bearer", SecretPrefix);
  }

  /** A file is analyzed at most once: after a success, repeating the same
      request answers 400, sends nothing and changes nothing. */
  lemma SecondRequestRejected(period: int, db: Db, authorization: Option<string>, key: string,
                              now: int, later: int, endpoint: string -> EndpointReply)
    requires Post(period, db, authorization, Json(Some(key)), now, endpoint).response.Analysis?
    ensures var db1 := Post(period, db, authorization, Json(Some(key)), now, endpoint).db;
      Post(period, db1, authorization, Json(Some(key)), later, endpoint) ==
        Reject(db1, 400, "File already analyzed")
  {
  }
}
