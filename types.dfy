/** Shared vocabulary of the image loader: optional values, byte payloads,
    cache keys, URLs and decoded images. */
module Types {

  datatype Option<+T> = None | Some(value: T)

  /** The contents of a file or of a network response. */
  type Bytes = seq<bv8>

  predicate IsAscii(s: string) {
    forall i :: 0 <= i < |s| ==> s[i] as int < 128
  }

  /** The key of both cache tiers: a URL's `absoluteString`. A URL's string
      form is always ASCII (anything else in it is already percent-encoded). */
  type Key = s: string | IsAscii(s) witness ""

  /** A URL, identified here by its string form. Foundation's `URL`
      equality also compares how a URL was split into a base and a
      relative part; that distinction is not modelled. */
  datatype Url = Url(absoluteString: Key)

  /** A decoded image. Decoding, drawing and encoding are opaque to the
      loader, so an image is only a handle. */
  datatype Image = Image(handle: nat)

  /** The value stored under `k`, if any. */
  function Lookup<K, V>(m: map<K, V>, k: K): (r: Option<V>)
    ensures r.Some? <==> k in m
    ensures r.Some? ==> r.value == m[k]
  {
    if k in m then Some(m[k]) else None
  }
}
