/** The relational tables the web handlers read and write, as immutable maps.
    Times are milliseconds since the epoch (what `Date.getTime()` returns). */
module Store {
  import opened Text

  /** A row of the `apiQuota` table: one per user, with a unique secret key. */
  datatype ApiQuota = ApiQuota(
    userId: string,
    secretKey: string,
    requestsUsed: int,
    maxRequests: int,
    lastResetDate: int)

  /** A row of the `videoFile` table, keyed by its object-store key. */
  datatype VideoFile = VideoFile(key: string, userId: string, analyzed: bool)

  /** The database: quotas keyed by `userId`, the unique index on
      `secretKey` (secret key to user id), and video files keyed by `key`. */
  datatype Db = Db(
    quotas: map<string, ApiQuota>,
    secrets: map<string, string>,
    files: map<string, VideoFile>)

  /** The uniqueness constraints of the schema: each quota row sits under its
      own user id, the secret-key index is exactly the inverse of the rows'
      `secretKey` column, and each file sits under its own key. */
  ghost predicate Valid(db: Db) {
    && (forall u :: u in db.quotas ==>
          && db.quotas[u].userId == u
          && db.quotas[u].secretKey in db.secrets
          && db.secrets[db.quotas[u].secretKey] == u)
    && (forall s :: s in db.secrets ==>
          db.secrets[s] in db.quotas && db.quotas[db.secrets[s]].secretKey == s)
    && (forall k :: k in db.files ==> db.files[k].key == k)
  }

  /** The prefix of every secret key the quota route issues. */
  const SecretPrefix: string := "sa_live_"

  /** Every key in the secret-key index was issued by the quota route. */
  ghost predicate IssuedSecrets(db: Db) {
    forall s :: s in db.secrets ==> StartsWith(s, SecretPrefix)
  }
}
