/** The `GET` handler of src/app/api/quota/route.ts: it returns the signed-in
    user's quota row, creating it on first access with fixed defaults and a
    fresh secret key. The session, the random bytes and the clock are
    parameters. */
module QuotaRoute {
  import opened Results
  import opened Text
  import opened Store

  type byte = x: int | 0 <= x < 256

  predicate IsLowerHex(c: char) {
    '0' <= c <= '9' || 'a' <= c <= 'f'
  }

  function HexDigit(n: nat): (c: char)
    requires n < 16
    ensures IsLowerHex(c)
  {
    if n < 10 then ('0' as int + n) as char else ('a' as int + n - 10) as char
  }

  /** Node's `Buffer.toString("hex")`: two lower-case hex digits per byte,
      high nibble first. */
  function Hex(bytes: seq<byte>): (s: string)
    ensures |s| == 2 * |bytes|
    ensures forall i :: 0 <= i < |s| ==> IsLowerHex(s[i])
  {
    if |bytes| == 0 then ""
    else [HexDigit(bytes[0] / 16), HexDigit(bytes[0] % 16)] + Hex(bytes[1..])
  }

  function NibbleValue(c: char): Option<nat> {
    if '0' <= c <= '9' then Some(c as int - '0' as int)
    else if 'a' <= c <= 'f' then Some(c as int - 'a' as int + 10)
    else None
  }

  /** Reads pairs of lower-case hex digits back into bytes. */
  function Unhex(s: string): Option<seq<byte>>
    decreases |s|
  {
    if |s| == 0 then Some([])
    else if |s| == 1 then None
    else match (NibbleValue(s[0]), NibbleValue(s[1]), Unhex(s[2..]))
      case (Some(hi), Some(lo), Some(rest)) => Some([hi * 16 + lo] + rest)
      case _ => None
  }

  /** Hex encoding loses nothing. */
  lemma {:induction false} UnhexHex(bytes: seq<byte>)
    ensures Unhex(Hex(bytes)) == Some(bytes)
  {
    if |bytes| > 0 {
      var b := bytes[0];
      var s := Hex(bytes);
      assert s[2..] == Hex(bytes[1..]);
      UnhexHex(bytes[1..]);
      var hi, lo := b / 16, b % 16;
      assert hi * 16 + lo == b;
      assert NibbleValue(HexDigit(hi)) == Some(hi);
      assert NibbleValue(HexDigit(lo)) == Some(lo);
      assert s[0] == HexDigit(hi) && s[1] == HexDigit(lo);
      assert [b] + bytes[1..] == bytes;
    }
  }

  /** The number of random bytes behind a secret key. */
  const SecretBytes: nat := 24

  /** `sa_live_` followed by the hex of the random bytes. */
  function SecretKey(random: seq<byte>): (key: string)
    requires |random| == SecretBytes
    ensures |key| == 56 && StartsWith(key, SecretPrefix)
    ensures forall i :: 8 <= i < 56 ==> IsLowerHex(key[i])
  {
    SecretPrefix + Hex(random)
  }

  function ParseSecretKey(key: string): Option<seq<byte>> {
    if StartsWith(key, SecretPrefix) then Unhex(key[8..]) else None
  }

  /** A secret key determines the random bytes it was made from, so distinct
      bytes give distinct keys. */
  lemma SecretKeyRoundTrip(random: seq<byte>)
    requires |random| == SecretBytes
    ensures ParseSecretKey(SecretKey(random)) == Some(random)
  {
    assert SecretKey(random)[8..] == Hex(random);
    UnhexHex(random);
  }

  /** The defaults of a newly created row. */
  const InitialRequestsUsed: int := 0
  const DefaultMaxRequests: int := 10000

  /** The columns the handler selects and returns. */
  datatype QuotaView = QuotaView(secretKey: string, requestsUsed: int, maxRequests: int)

  datatype Response = Quota(view: QuotaView) | Error(status: int, message: string)

  datatype Outcome = Outcome(response: Response, db: Db)

  function View(q: ApiQuota): QuotaView {
    QuotaView(q.secretKey, q.requestsUsed, q.maxRequests)
  }

  /** `sessionUser` is the session's user id, if any; `now` fills the row's
      reset date, which the schema defaults to the creation time. */
  function Get(db: Db, sessionUser: Option<string>, random: seq<byte>, now: int): (o: Outcome)
    requires |random| == SecretBytes
    // no signed-in user: 401 and nothing created
    ensures sessionUser.None? || sessionUser.value == "" ==>
      o == Outcome(Error(401, "Not authenticated"), db)
    // an existing row is returned as it is and nothing is created
    ensures sessionUser.Some? && sessionUser.value != "" && sessionUser.value in db.quotas ==>
      o == Outcome(Quota(View(db.quotas[sessionUser.value])), db)
    // a missing row is created when its fresh key is unused, and the insert
    // fails with 500 when the key collides
    ensures sessionUser.Some? && sessionUser.value != "" && sessionUser.value !in db.quotas ==>
      if SecretKey(random) in db.secrets then o == Outcome(Error(500, "Failed to fetch API quota"), db)
      else o.db != db && o.response.Quota?
    // the only change ever made is the creation of the caller's row
    ensures o.db != db ==>
      && sessionUser.Some? && sessionUser.value != "" && sessionUser.value !in db.quotas
      && var q := ApiQuota(sessionUser.value, SecretKey(random), InitialRequestsUsed, DefaultMaxRequests, now);
         && o.db == db.(quotas := db.quotas[sessionUser.value := q],
                        secrets := db.secrets[q.secretKey := sessionUser.value])
         && o.response == Quota(View(q))
    ensures o.response.Quota? ==>
      (sessionUser.Some? && sessionUser.value in o.db.quotas &&
       o.response.view == View(o.db.quotas[sessionUser.value]))
  {
    if sessionUser.None? || sessionUser.value == "" then Outcome(Error(401, "Not authenticated"), db)
    else
      var u := sessionUser.value;
      if u in db.quotas then Outcome(Quota(View(db.quotas[u])), db)
      else
        var key := SecretKey(random);
        // the secretKey column is unique: a colliding key makes the insert throw
        if key in db.secrets then Outcome(Error(500, "Failed to fetch API quota"), db)
        else
          var q := ApiQuota(u, key, InitialRequestsUsed, DefaultMaxRequests, now);
          Outcome(Quota(View(q)), db.(quotas := db.quotas[u := q], secrets := db.secrets[key := u]))
  }

  /** A created row starts unused, with the default cap and a well-formed
      key, and the database keeps the schema's uniqueness constraints. */
  lemma GetPreservesValid(db: Db, sessionUser: Option<string>, random: seq<byte>, now: int)
    requires Valid(db) && |random| == SecretBytes
    ensures var o := Get(db, sessionUser, random, now);
      && Valid(o.db)
      && (o.response.Quota? && o.db != db ==>
            o.response.view.requestsUsed == 0 && o.response.view.maxRequests == 10000 &&
            StartsWith(o.response.view.secretKey, "sa_live_") && |o.response.view.secretKey| == 56)
  {
    var o := Get(db, sessionUser, random, now);
    if o.db != db {
      var u := sessionUser.value;
      var key := SecretKey(random);
      assert key !in db.secrets;
      assert forall s :: s in db.secrets ==> db.secrets[s] != u;
    }
  }

  /** Provisioning issues only prefixed keys, so a database whose keys all
      came from this route keeps that property. */
  lemma GetIssuesPrefixedKeys(db: Db, sessionUser: Option<string>, random: seq<byte>, now: int)
    requires IssuedSecrets(db) && |random| == SecretBytes
    ensures IssuedSecrets(Get(db, sessionUser, random, now).db)
  {
  }

  /** Provisioning is idempotent: a second call for the same user, whatever
      random bytes it draws, returns what the first returned and changes
      nothing. */
  lemma GetIdempotent(db: Db, user: string, random1: seq<byte>, random2: seq<byte>, now1: int, now2: int)
    requires |random1| == SecretBytes && |random2| == SecretBytes
    requires Get(db, Some(user), random1, now1).response.Quota?
    ensures var first := Get(db, Some(user), random1, now1);
      Get(first.db, Some(user), random2, now2) == first
  {
  }
}
