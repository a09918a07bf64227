/**
 The content-addressed blob store: the two ways of putting a blob, and the protocol several writers
 follow at once. SHA-256 is any function from bytes to digests.
 */
module Cas {
  import opened Base

  type Digest = seq<byte>

  datatype PutError<E> =
    | Source(error: E)
    | SizeExceeded(actual: nat)
    | SizeMismatch(expected: nat, actual: nat)
    | DigestMismatch(wanted: Digest, found: Digest)

  /** The length of a stream as the code counts it, saturating at 64 bits. */
  function Size(bytes: seq<byte>): nat { Min(|bytes|, U64_MAX) }

  /** `verify_stream_size`. */
  function CheckSize<E>(actual: nat, expected: Option<nat>, maximum: nat): Result<(), PutError<E>> {
    if actual > maximum then Err(SizeExceeded(actual))
    else if expected.Some? && actual != expected.value then Err(SizeMismatch(expected.value, actual))
    else Ok(())
  }

  predicate SizeOk(actual: nat, expected: Option<nat>, maximum: nat) {
    actual <= maximum && (expected.Some? ==> actual == expected.value)
  }

  predicate NoError<E(!new)>(stream: seq<Result<seq<byte>, E>>) {
    forall i :: 0 <= i < |stream| ==> stream[i].Ok?
  }

  /** The bytes of a stream, up to its first error. */
  function Bytes<E>(stream: seq<Result<seq<byte>, E>>): seq<byte>
    decreases |stream|
  {
    if stream == [] then [] else
      var last := stream[|stream| - 1];
      Bytes(stream[..|stream| - 1]) + if last.Ok? then last.value else []
  }

  lemma {:induction false} BytesPrefix<E>(stream: seq<Result<seq<byte>, E>>, n: nat)
    requires n <= |stream|
    ensures |Bytes(stream[..n])| <= |Bytes(stream)|
    decreases |stream|
  {
    if n == |stream| {
      assert stream[..n] == stream;
    } else {
      BytesPrefix(stream[..|stream| - 1], n);
      assert stream[..|stream| - 1][..n] == stream[..n];
    }
  }

  /** Whether a stream may be stored, given what the caller expects of it. */
  predicate Acceptable<E(!new)>(hash: seq<byte> -> Digest, stream: seq<Result<seq<byte>, E>>,
                                digest: Option<Digest>, size: Option<nat>, maximum: nat)
  {
    && NoError(stream)
    && SizeOk(Size(Bytes(stream)), size, maximum)
    && (digest.Some? ==> digest.value == hash(Bytes(stream)))
  }

  /** A stored blob counts only if it still hashes to its name. */
  predicate Verified(hash: seq<byte> -> Digest, d: Digest, blob: seq<byte>) { hash(blob) == d }

  class Store {
    const hash: seq<byte> -> Digest
    var blobs: map<Digest, seq<byte>>

    constructor (hash: seq<byte> -> Digest)
      ensures this.hash == hash && blobs == map[]
    {
      this.hash := hash;
      blobs := map[];
    }

    /** Publishes staged bytes under their digest, or checks the blob that is already there. */
    method Publish<E>(d: Digest, staged: seq<byte>, size: Option<nat>, maximum: nat)
        returns (r: Result<Digest, PutError<E>>)
      modifies this
      ensures d !in old(blobs) ==> r == Ok(d) && blobs == old(blobs)[d := staged]
      ensures d in old(blobs) ==> blobs == old(blobs)
      ensures d in old(blobs) ==> (r == Ok(d) <==>
        Verified(hash, d, old(blobs)[d]) && SizeOk(Size(old(blobs)[d]), size, maximum))
      ensures r.Ok? ==> r == Ok(d)
    {
      if d !in blobs {
        blobs := blobs[d := staged];
        return Ok(d);
      }
      var existing := hash(blobs[d]);
      if existing != d {
        return Err(DigestMismatch(d, existing));
      }
      var checked := CheckSize(Size(blobs[d]), size, maximum);
      if checked.Err? {
        return Err(checked.error);
      }
      r := Ok(d);
    }

    /**
     Stores a stream: it succeeds exactly on acceptable streams (unless the blob already there is
     damaged), returns the hash of exactly the streamed bytes, and never replaces a blob.
     */
    method PutStream<E(!new)>(digest: Option<Digest>, size: Option<nat>, maximum: nat,
                              stream: seq<Result<seq<byte>, E>>)
        returns (r: Result<Digest, PutError<E>>)
      modifies this
      ensures r.Ok? ==> Acceptable(hash, stream, digest, size, maximum) && r.value == hash(Bytes(stream))
      ensures r.Ok? ==> blobs == (if r.value in old(blobs) then old(blobs)
                                  else old(blobs)[r.value := Bytes(stream)])
      ensures r.Ok? ==> Verified(hash, r.value, blobs[r.value])
      ensures r.Err? ==> blobs == old(blobs)
      ensures NoError(stream) && SizeOk(Size(Bytes(stream)), size, maximum)
        && digest !in {None, Some(hash(Bytes(stream)))}
        ==> r == Err(DigestMismatch(digest.value, hash(Bytes(stream))))
      ensures var d := hash(Bytes(stream));
        Acceptable(hash, stream, digest, size, maximum)
        && (d in old(blobs) ==> Verified(hash, d, old(blobs)[d]) && SizeOk(Size(old(blobs)[d]), size, maximum))
        ==> r.Ok?
    {
      var staged: seq<byte> := [];
      var counted := 0;
      var i := 0;
      while i < |stream|
        invariant 0 <= i <= |stream| && blobs == old(blobs)
        invariant staged == Bytes(stream[..i]) && counted == Size(staged)
        invariant forall k :: 0 <= k < i ==> stream[k].Ok?
      {
        if stream[i].Err? {
          return Err(Source(stream[i].error));
        }
        var chunk := stream[i].value;
        counted := SatAdd(counted, |chunk|);
        BytesPrefix(stream, i + 1);
        assert stream[..i + 1][..i] == stream[..i];
        var checked := CheckSize(counted, if size.Some? && counted > size.value then size else None, maximum);
        if checked.Err? {
          return Err(checked.error);
        }
        staged := staged + chunk;
        i := i + 1;
      }
      assert stream[..|stream|] == stream;
      var checked := CheckSize(counted, size, maximum);
      if checked.Err? {
        return Err(checked.error);
      }
      var actual := hash(staged);
      if digest.Some? && digest.value != actual {
        return Err(DigestMismatch(digest.value, actual));
      }
      r := Publish(actual, staged, size, maximum);
    }

    method PutVerified(expected: Digest, bytes: seq<byte>) returns (r: Result<(), PutError<()>>)
      modifies this
      ensures r.Ok? <==> hash(bytes) == expected
                         && (expected in old(blobs) ==> Verified(hash, expected, old(blobs)[expected]))
      ensures blobs == if r.Ok? && expected !in old(blobs) then old(blobs)[expected := bytes] else old(blobs)
      ensures hash(bytes) != expected ==> r == Err(DigestMismatch(expected, hash(bytes)))
      ensures hash(bytes) == expected && r.Err? ==> r == Err(DigestMismatch(expected, hash(old(blobs)[expected])))
    {
      var actual := hash(bytes);
      if actual != expected {
        return Err(DigestMismatch(expected, actual));
      }
      if expected in blobs {
        var existing := hash(blobs[expected]);
        if existing != expected {
          return Err(DigestMismatch(expected, existing));
        }
        return Ok(());
      }
      blobs := blobs[expected := bytes];
      r := Ok(());
    }
  }
}
