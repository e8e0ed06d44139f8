/** The bearer credential both API routes read from the `Authorization`
    header. */
module ApiKeys {
  import opened Results
  import opened Text

  /** HTTP whitespace: space, tab, line feed and carriage return. */
  predicate HttpWhitespace(c: char) {
    c == ' ' || c == '\t' || c == '\n' || c == '\r'
  }

  /** `s` without its leading whitespace: what is dropped is all whitespace
      and what is kept does not start with it. */
  function TrimStart(s: string): (r: string)
    ensures |r| <= |s| && r == s[|s| - |r|..]
    ensures forall i :: 0 <= i < |s| - |r| ==> HttpWhitespace(s[i])
    ensures r == "" || !HttpWhitespace(r[0])
    decreases |s|
  {
    if |s| > 0 && HttpWhitespace(s[0]) then TrimStart(s[1..]) else s
  }

  /** `s` without its trailing whitespace. */
  function TrimEnd(s: string): (r: string)
    ensures |r| <= |s| && r == s[..|r|]
    ensures forall i :: |r| <= i < |s| ==> HttpWhitespace(s[i])
    ensures r == "" || !HttpWhitespace(r[|r| - 1])
    decreases |s|
  {
    if |s| > 0 && HttpWhitespace(s[|s| - 1]) then TrimEnd(s[..|s| - 1]) else s
  }

  /** How a header value arrives at a handler: the Fetch standard's `Headers`
      normalise every value by removing leading and trailing HTTP
      whitespace. The handlers below take the value as it arrives. */
  function Normalize(raw: string): (v: string)
    ensures |v| <= |raw|
    ensures v == "" || (!HttpWhitespace(v[0]) && !HttpWhitespace(v[|v| - 1]))
    // what was removed is whitespace before and after the value
    ensures exists i: nat :: Surrounds(raw, v, i)
  {
    TrimmedAround(raw);
    TrimEnd(TrimStart(raw))
  }

  predicate AllWhitespace(s: string) {
    forall i :: 0 <= i < |s| ==> HttpWhitespace(s[i])
  }

  /** `v` sits at position `i` of `raw` with only whitespace before and
      after it. */
  predicate Surrounds(raw: string, v: string, i: nat) {
    && i + |v| <= |raw| && raw[i..i + |v|] == v
    && AllWhitespace(raw[..i]) && AllWhitespace(raw[i + |v|..])
  }

  /** Trimming both ends leaves a middle part with whitespace on either side. */
  lemma TrimmedAround(raw: string)
    ensures exists i: nat :: Surrounds(raw, TrimEnd(TrimStart(raw)), i)
  {
    var t := TrimStart(raw);
    var v := TrimEnd(t);
    var n := |raw| - |t|;
    assert raw[n..n + |v|] == v;
    assert raw[n + |v|..] == t[|v|..];
    assert Surrounds(raw, v, n);
  }

  /** A value that neither starts nor ends with whitespace arrives intact. */
  lemma NormalizeKeepsTrimmed(raw: string)
    requires raw == "" || (!HttpWhitespace(raw[0]) && !HttpWhitespace(raw[|raw| - 1]))
    ensures Normalize(raw) == raw
  {
  }

  /** `request.headers.get("Authorization")?.replace("Bearer ", "")`, with an
      absent header or an empty result (both falsy) as `None`. */
  function ApiKey(authorization: Option<string>): (k: Option<string>)
    ensures authorization.None? ==> k.None?
    ensures authorization.Some? && !Contains(authorization.value, "Bearer ") ==>
      k == if authorization.value == "" then None else authorization
    // wherever the prefix first occurs, exactly that occurrence is cut out
    ensures authorization.Some? && Contains(authorization.value, "Bearer ") ==>
      var i := IndexOf(authorization.value, "Bearer ");
      k == if |authorization.value| == 7 then None
           else Some(authorization.value[..i] + authorization.value[i + 7..])
    ensures authorization.Some? && StartsWith(authorization.value, "Bearer ") ==>
      k == if |authorization.value| == 7 then None else Some(authorization.value[7..])
    ensures k.Some? ==> k.value != ""
  {
    match authorization
    case None => None
    case Some(h) =>
      ReplaceFirstRemoves(h, "Bearer ");
      var key := ReplaceFirst(h, "Bearer ", "");
      if key == "" then None else Some(key)
  }

  /** A header that is exactly the prefix carries no key. No client sends
      one, though: the trailing space is normalised away on the way in (see
      `EmptyClientKeyArrivesBare`). */
  lemma BarePrefixHasNoKey()
    ensures ApiKey(Some("Bearer ")) == None
  {
    assert StartsWith("Bearer ", "Bearer ");
  }

  /** The header the client builds, `Bearer ${apiKey}`, gives back exactly
      its key. Only the first occurrence of the prefix is removed, so a key
      that itself contains "Bearer " survives intact. */
  lemma OnlyFirstPrefixRemoved(k: string)
    ensures ApiKey(Some("Bearer " + k)) == if k == "" then None else Some(k)
  {
    assert StartsWith("Bearer " + k, "Bearer ");
    assert ("Bearer " + k)[7..] == k;
  }

  /** The client's `Bearer ${apiKey}` header reaches the handler unchanged
      when the key does not end in whitespace, so the handler reads exactly
      that key. */
  lemma ClientKeyArrivesIntact(k: string)
    requires k != "" && !HttpWhitespace(k[|k| - 1])
    ensures Normalize("Bearer " + k) == "Bearer " + k
    ensures ApiKey(Some(Normalize("Bearer " + k))) == Some(k)
  {
    var h := "Bearer " + k;
    assert h[0] == 'B' && h[|h| - 1] == k[|k| - 1];
    NormalizeKeepsTrimmed(h);
    OnlyFirstPrefixRemoved(k);
  }

  /** With an empty key the client sends `"Bearer "`, which arrives as
      `"Bearer"`: it contains no `"Bearer "`, so it is used verbatim as the
      key and looked up rather than refused as missing (both routes then
      refuse it as an invalid key: `SentimentInference.EmptyClientKeyRefused`,
      `UploadUrl.EmptyClientKeyRefused`). */
  lemma EmptyClientKeyArrivesBare()
    ensures Normalize("Bearer " + "") == "Bearer"
    ensures ApiKey(Some(Normalize("Bearer " + ""))) == Some("Bearer")
  {
    assert "Bearer " + "" == "Bearer ";
    assert TrimStart("Bearer ") == "Bearer ";
    assert "Bearer "[..6] == "Bearer";
    assert TrimEnd("Bearer") == "Bearer";
    assert TrimEnd("Bearer ") == "Bearer";
    assert !Contains("Bearer", "Bearer ");
  }

  /** A prefix that does not lead the header is still removed at its first
      occurrence, so "Token Bearer abc" yields "Token abc". */
  lemma EmbeddedPrefixRemoved(before: string, after: string)
    requires 'B' !in before
    ensures ApiKey(Some(before + "Bearer " + after)) ==
      if before + after == "" then None else Some(before + after)
  {
    var h := before + "Bearer " + after;
    var n := |before|;
    assert h[n..n + 7] == "Bearer ";
    forall j: nat | j < n
      ensures !OccursAt(h, "Bearer ", j)
    {
      assert h[j..j + 7][0] == before[j];
    }
    LeftmostOccurrence(h, "Bearer ", n);
    assert h[..n] == before && h[n + 7..] == after;
  }
}
