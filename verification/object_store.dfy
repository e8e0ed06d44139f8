/** Where uploaded videos live: the bucket the analysis route names and the
    `s3://` path it sends to the inference endpoint, shared by the web side
    and the endpoint that downloads from it. */
module ObjectStore {
  import opened Text

  /** The object-store bucket the endpoint reads uploaded videos from. */
  const Bucket: string := "sentiment-analysis-saas-ai"

  /** The `video_path` sent to the endpoint for an object key. */
  function VideoPath(key: string): (p: string)
    ensures StartsWith(p, "s3://" + Bucket + "/") && EndsWith(p, key)
    ensures p[|"s3://" + Bucket + "/"|..] == key
  {
    "s3://" + Bucket + "/" + key
  }
}
