/** Optional values and results with an error, the two shapes every handler in
    this model returns through, one-to-one maps for the label tables, and the
    filtering of absent items out of a batch. */
module Results {

  /** A value that may be absent: a missing header, a row that was not found. */
  datatype Option<+T> = None | Some(value: T)

  /** The outcome of a step that can raise: `Failure` carries what was raised. */
  datatype Result<+T, +E> = Success(value: T) | Failure(error: E)

  /** No two keys of `m` map to the same value. */
  ghost predicate Injective<K, V>(m: map<K, V>) {
    forall a, b :: a in m && b in m && a != b ==> m[a] != m[b]
  }

  /** The items of a batch that are not `None`, in order (`filter(None, …)`;
      an example is a non-empty dict, so only `None` is falsy). */
  function Present<T(==)>(batch: seq<Option<T>>): (r: seq<T>)
    ensures |r| <= |batch|
    ensures forall i :: 0 <= i < |batch| && batch[i].Some? ==> batch[i].value in r
    ensures forall j :: 0 <= j < |r| ==> Some(r[j]) in batch
    ensures (forall i :: 0 <= i < |batch| ==> batch[i].Some?) ==> |r| == |batch|
    decreases |batch|
  {
    if |batch| == 0 then []
    else
      var rest := Present(batch[1..]);
      assert forall i :: 0 < i < |batch| ==> batch[i] == batch[1..][i - 1];
      match batch[0]
      case None => rest
      case Some(x) => [x] + rest
  }

  /** Filtering commutes with concatenation, so the surviving items keep
      their relative order. */
  lemma {:induction false} PresentAppend<T>(a: seq<Option<T>>, b: seq<Option<T>>)
    ensures Present(a + b) == Present(a) + Present(b)
    decreases |a|
  {
    if |a| > 0 {
      assert (a + b)[1..] == a[1..] + b;
      PresentAppend(a[1..], b);
    } else {
      assert a + b == b;
    }
  }
}
