/** What an applied prune leaves, file by file, said by the texts of manifests, markers and records. */
module CachePruneContents {
  import opened Base
  import opened Digests
  import opened CacheModel
  import opened CachePrune

  // Manifests.

  lemma {:induction false} ParseAllIff(texts: seq<string>)
    ensures ParseAll(texts).Some? <==> forall i :: 0 <= i < |texts| ==> ParseDigest(texts[i]).Some?
    ensures ParseAll(texts).Some? ==>
      forall x :: x in ParseAll(texts).value <==> exists i :: 0 <= i < |texts| && ParseDigest(texts[i]) == Some(x)
  {
    if texts != [] {
      var n := |texts| - 1;
      var init := texts[..n];
      ParseAllIff(init);
      assert texts == init + [texts[n]];
      assert forall i :: 0 <= i < n ==> init[i] == texts[i];
      if ParseAll(texts).Some? {
        forall x
          ensures x in ParseAll(texts).value <==> exists i :: 0 <= i < |texts| && ParseDigest(texts[i]) == Some(x)
        {
          if x in ParseAll(init).value {
            var i :| 0 <= i < |init| && ParseDigest(init[i]) == Some(x);
            assert ParseDigest(texts[i]) == Some(x);
          }
          if exists i :: 0 <= i < |texts| && ParseDigest(texts[i]) == Some(x) {
            var i :| 0 <= i < |texts| && ParseDigest(texts[i]) == Some(x);
            assert i < n ==> ParseDigest(init[i]) == Some(x);
          }
        }
      }
    }
  }

  /** The digests a manifest writes down: of its config and of each of its layers. */
  function Written(m: Manifest): seq<string> { [m.config] + m.layers }

  predicate Writes(m: Manifest, x: Digest) {
    exists i :: 0 <= i < |Written(m)| && ParseDigest(Written(m)[i]) == Some(x)
  }

  /** The manifest of a digest, read from its blob: the blob is a file with that hash, and it decodes. */
  predicate IsManifest(env: Env, c: Cache, d: Digest, m: Manifest) {
    && Hex(d) in c.blobs && c.blobs[Hex(d)].Blob? && env.sha(c.blobs[Hex(d)].bytes) == d
    && env.manifest(c.blobs[Hex(d)].bytes) == Some(m)
  }

  /** All digests it writes down can be read. */
  predicate IsReadable(m: Manifest) { forall i :: 0 <= i < |Written(m)| ==> ParseDigest(Written(m)[i]).Some? }

  ghost predicate Sound(env: Env, c: Cache, d: Digest) { exists m :: IsManifest(env, c, d, m) && IsReadable(m) }

  lemma WrittenParts(m: Manifest)
    ensures IsReadable(m) <==> ParseDigest(m.config).Some? && ParseAll(m.layers).Some?
    ensures IsReadable(m) ==>
      forall x :: Writes(m, x) <==> x == ParseDigest(m.config).value || x in ParseAll(m.layers).value
  {
    var texts := Written(m);
    ParseAllIff(m.layers);
    assert texts[0] == m.config && forall i :: 0 <= i < |m.layers| ==> texts[i + 1] == m.layers[i];
    assert forall i :: 0 < i < |texts| ==> texts[i] == m.layers[i - 1];
    if IsReadable(m) {
      forall x ensures Writes(m, x) <==> x == ParseDigest(m.config).value || x in ParseAll(m.layers).value {
        if x in ParseAll(m.layers).value {
          var i :| 0 <= i < |m.layers| && ParseDigest(m.layers[i]) == Some(x);
          assert ParseDigest(texts[i + 1]) == Some(x);
        }
        if x == ParseDigest(m.config).value {
          assert ParseDigest(texts[0]) == Some(x);
        }
        if Writes(m, x) {
          var i :| 0 <= i < |texts| && ParseDigest(texts[i]) == Some(x);
          assert i > 0 ==> ParseDigest(m.layers[i - 1]) == Some(x);
        }
      }
    }
  }

  lemma RefsAre(env: Env, c: Cache, d: Digest)
    ensures ManifestRefs(env, c, d).Ok? <==> Sound(env, c, d)
    ensures forall m :: IsManifest(env, c, d, m) && IsReadable(m) ==>
      ManifestRefs(env, c, d).Ok? && forall x :: x in ManifestRefs(env, c, d).value <==> x == d || Writes(m, x)
  {
    if Hex(d) in c.blobs && c.blobs[Hex(d)].Blob? && env.manifest(c.blobs[Hex(d)].bytes).Some? {
      var m := env.manifest(c.blobs[Hex(d)].bytes).value;
      WrittenParts(m);
      assert ManifestRefs(env, c, d).Ok? ==> IsManifest(env, c, d, m) && IsReadable(m);
    }
  }

  // Blobs.

  /** A ready rootfs has the digest, or its manifest writes the digest down. */
  ghost predicate Needed(env: Env, c: Cache, x: Digest) {
    exists n, d, m :: NeededBy(env, c, x, n, d, m)
  }

  predicate NeededBy(env: Env, c: Cache, x: Digest, n: string, d: Digest, m: Manifest) {
    n in c.roots && Ready(c, n) && ParseDigest(n) == Some(d) && IsManifest(env, c, d, m) && (x == d || Writes(m, x))
  }

  /** A prune may run exactly when every ready rootfs has a sound manifest and every listed record can be read. */
  lemma PruneOkIff(env: Env, c: Cache)
    ensures PruneOk(env, c) <==>
      && (forall n, d :: n in c.roots && Ready(c, n) && ParseDigest(n) == Some(d) ==> Sound(env, c, d))
      && forall n :: n in c.records && Listed(c, n) ==> ReadRecord(c.records[n]).Ok?
  {
    forall d ensures ManifestRefs(env, c, d).Ok? <==> Sound(env, c, d) {
      RefsAre(env, c, d);
    }
  }

  lemma ReachableIff(env: Env, c: Cache, x: Digest)
    requires PruneOk(env, c)
    ensures Reachable(env, c, x) <==> Needed(env, c, x)
  {
    if Reachable(env, c, x) {
      var d :| d in ReadyDigests(c) && Keeps(env, c, d, x);
      var n :| n in c.roots && Ready(c, n) && ParseDigest(n).value == d;
      RefsAre(env, c, d);
      var m :| IsManifest(env, c, d, m) && IsReadable(m);
      assert NeededBy(env, c, x, n, d, m);
    }
    if Needed(env, c, x) {
      var n, d, m :| NeededBy(env, c, x, n, d, m);
      assert d in ReadyDigests(c);
      RefsAre(env, c, d);
      assert Keeps(env, c, d, x);
    }
  }

  /** A blob file survives exactly when its name is a digest that is needed; anything else there is left alone. */
  lemma BlobSurvivesIff(env: Env, c: Cache, name: string)
    requires PruneOk(env, c) && name in c.blobs
    ensures name in Pruned(env, c).blobs <==>
      c.blobs[name].NotABlob? || (ParseDigest(name).Some? && Needed(env, c, ParseDigest(name).value))
    ensures name in Pruned(env, c).blobs ==> Pruned(env, c).blobs[name] == c.blobs[name]
  {
    if ParseDigest(name).Some? {
      ReachableIff(env, c, ParseDigest(name).value);
    }
  }

  /** So the manifest, the config and every layer of a ready rootfs are still there, unchanged. */
  lemma ImageSurvives(env: Env, c: Cache, n: string, d: Digest, m: Manifest, i: nat, x: Digest)
    requires PruneOk(env, c) && n in c.roots && Ready(c, n) && ParseDigest(n) == Some(d)
    requires IsManifest(env, c, d, m) && i <= |m.layers|
    requires ParseDigest(if i == 0 then m.config else m.layers[i - 1]) == Some(x)
    ensures var p := Pruned(env, c);
      && Hex(d) in p.blobs && p.blobs[Hex(d)] == c.blobs[Hex(d)]
      && (Hex(x) in c.blobs ==> Hex(x) in p.blobs && p.blobs[Hex(x)] == c.blobs[Hex(x)])
  {
    assert ParseDigest(Written(m)[i]) == Some(x);
    NeededSurvives(env, c, d, n, d, m);
    NeededSurvives(env, c, x, n, d, m);
  }

  lemma NeededSurvives(env: Env, c: Cache, x: Digest, n: string, d: Digest, m: Manifest)
    requires PruneOk(env, c) && NeededBy(env, c, x, n, d, m)
    ensures Hex(x) in c.blobs ==> Hex(x) in Pruned(env, c).blobs && Pruned(env, c).blobs[Hex(x)] == c.blobs[Hex(x)]
  {
    DigestRoundTrip(x);
    if Hex(x) in c.blobs {
      BlobSurvivesIff(env, c, Hex(x));
    }
  }

  // Root filesystems, records, index and staging.

  /** One of its two completion markers holds the digest its name gives. */
  ghost predicate MarkedComplete(name: string, root: Rootfs) {
    exists d: Digest :: ParseDigest(name) == Some(d) && (root.current == Some(Show(d)) || root.legacy == Some(Show(d)))
  }

  /** A rootfs directory survives exactly when it is complete; what is no directory is left alone. */
  lemma RootSurvivesIff(env: Env, c: Cache, name: string)
    requires name in c.roots
    ensures name in Pruned(env, c).roots <==> !c.roots[name].directory || MarkedComplete(name, c.roots[name])
    ensures name in Pruned(env, c).roots ==> Pruned(env, c).roots[name] == c.roots[name]
  {
    if ParseDigest(name).Some? {
      assert MarkedComplete(name, c.roots[name]) <==> HasMarker(c.roots[name], ParseDigest(name).value);
    }
  }

  /** A rootfs directory of the digest is complete. */
  ghost predicate HasCompleteRoot(c: Cache, d: Digest) {
    exists n :: n in c.roots && c.roots[n].directory && ParseDigest(n) == Some(d) && MarkedComplete(n, c.roots[n])
  }

  /** A record file survives exactly when it names such a digest, or is a link or no json file. */
  lemma RecordSurvivesIff(env: Env, c: Cache, name: string)
    requires PruneOk(env, c) && name in c.records
    ensures Listed(c, name) ==> c.records[name].content.Json?
    ensures name in Pruned(env, c).records <==>
      || !c.records[name].regular || !IsJsonName(name)
      || exists d :: ParseDigest(c.records[name].content.value.manifest) == Some(d) && HasCompleteRoot(c, d)
    ensures name in Pruned(env, c).records ==> Pruned(env, c).records[name] == c.records[name]
  {
    if Listed(c, name) {
      assert ReadRecord(c.records[name]).Ok?;
      ReadRecordHasManifest(c.records[name]);
      var d := ParseDigest(c.records[name].content.value.manifest).value;
      ReadyHasRoot(c, d);
    }
  }

  lemma ReadyHasRoot(c: Cache, d: Digest)
    ensures d in ReadyDigests(c) <==> HasCompleteRoot(c, d)
  {
    if d in ReadyDigests(c) {
      var n :| n in c.roots && Ready(c, n) && ParseDigest(n).value == d;
      assert ParseDigest(n) == Some(d) && MarkedComplete(n, c.roots[n]);
    }
    if HasCompleteRoot(c, d) {
      var n :| n in c.roots && c.roots[n].directory && ParseDigest(n) == Some(d) && MarkedComplete(n, c.roots[n]);
      assert Ready(c, n);
    }
  }

  /** The index entry of a digest goes exactly when an incomplete directory has that digest for its name. */
  lemma IndexSurvivesIff(env: Env, c: Cache, d: Digest)
    requires JsonName(d) in c.index
    ensures JsonName(d) in Pruned(env, c).index <==>
      !(exists n :: n in c.roots && c.roots[n].directory && ParseDigest(n) == Some(d) && !MarkedComplete(n, c.roots[n]))
  {
    forall n | n in IncompleteRoots(c) && ParseDigest(n).Some? && JsonName(ParseDigest(n).value) == JsonName(d)
      ensures ParseDigest(n) == Some(d)
    {
      JsonNameInjective(ParseDigest(n).value, d);
    }
    forall n | n in c.roots && c.roots[n].directory && ParseDigest(n) == Some(d)
      ensures Incomplete(c, n) <==> !MarkedComplete(n, c.roots[n])
    {
      assert MarkedComplete(n, c.roots[n]) <==> HasMarker(c.roots[n], d);
    }
  }

  /** The name of a staging directory: a digest, a process id of 32 bits and a sequence number of 64 bits. */
  lemma StagingGoesIff(env: Env, c: Cache, digest: string, pid: string, sequence: string)
    requires '.' !in digest && '.' !in pid && '.' !in sequence
    ensures var name := digest + "." + (pid + "." + sequence);
      name in c.staging ==>
        (name !in Pruned(env, c).staging <==>
           && c.staging[name].directory && |digest| == 64 && IsCanonicalHex(digest)
           && IsNumber(pid, 4_294_967_295) && IsNumber(sequence, 18_446_744_073_709_551_615))
  {
    var name := digest + "." + (pid + "." + sequence);
    StagingNameIff(name, digest, pid, sequence);
  }

  predicate StagingParts(digest: string, pid: string, sequence: string) {
    |digest| == 64 && IsCanonicalHex(digest) && IsNumber(pid, 0xFFFF_FFFF) && IsNumber(sequence, U64_MAX)
  }

  lemma StagingNameIff(name: string, digest: string, pid: string, sequence: string)
    requires '.' !in digest && '.' !in pid && '.' !in sequence && name == digest + "." + (pid + "." + sequence)
    ensures IsStagingName(name) <==> StagingParts(digest, pid, sequence)
  {
    var n := |digest|;
    var tail := pid + "." + sequence;
    assert name[..n] == digest && name[n] == '.' && name[n + 1..] == tail;
    TailSplits(name, n, tail, pid, sequence);
    if StagingParts(digest, pid, sequence) {
      assert name[65..65 + |pid|] == pid;
    }
    if IsStagingName(name) {
      FirstDot(name, digest);
      var j :| 64 < j < |name| && name[j] == '.' && '.' !in name[65..j]
        && IsNumber(name[65..j], 0xFFFF_FFFF) && IsNumber(name[j + 1..], U64_MAX);
      SecondDot(name, pid, sequence, j);
    }
  }

  lemma TailSplits(name: string, n: nat, tail: string, pid: string, sequence: string)
    requires n < |name| && name[n + 1..] == tail && tail == pid + "." + sequence
    ensures name[n + 1..n + 1 + |pid|] == pid && name[n + 1 + |pid|] == '.' && name[n + 2 + |pid|..] == sequence
  {
    assert tail[..|pid|] == pid && tail[|pid|] == '.' && tail[|pid| + 1..] == sequence;
    assert name[n + 1..n + 1 + |pid|] == tail[..|pid|];
    assert name[n + 2 + |pid|..] == tail[|pid| + 1..];
  }

  lemma DotWithin(s: string, lo: nat, hi: nat, k: nat)
    requires lo <= k < hi <= |s| && s[k] == '.'
    ensures '.' in s[lo..hi]
  {
    assert s[lo..hi][k - lo] == '.';
  }

  lemma LongHasDot(name: string, digest: string)
    requires 64 < |digest| <= |name| && name[..|digest|] == digest && name[64] == '.'
    ensures '.' in digest
  {
    assert digest[64] == name[64];
  }

  lemma DotIsNoHex(s: string, k: nat)
    requires k < 64 < |s| && s[k] == '.'
    ensures !IsCanonicalHex(s[..64])
  {
    assert s[..64][k] == '.';
  }

  /** The first dot of the name ends its digest. */
  lemma FirstDot(name: string, digest: string)
    requires |digest| < |name| && name[..|digest|] == digest && '.' !in digest && name[|digest|] == '.'
    requires |name| > 64 && IsCanonicalHex(name[..64]) && name[64] == '.'
    ensures |digest| == 64
  {
    if |digest| < 64 {
      DotIsNoHex(name, |digest|);
    } else if |digest| > 64 {
      LongHasDot(name, digest);
    }
  }

  lemma SecondDot(name: string, pid: string, sequence: string, j: nat)
    requires 64 < j < |name| && 65 + |pid| < |name| && name[65..65 + |pid|] == pid && name[65 + |pid|] == '.'
    requires name[66 + |pid|..] == sequence && '.' !in pid && name[j] == '.' && '.' !in name[65..j]
    ensures j == 65 + |pid|
  {
    if j < 65 + |pid| {
      DotWithin(name, 65, 65 + |pid|, j);
    } else if j > 65 + |pid| {
      DotWithin(name, 65, j, 65 + |pid|);
    }
  }

  // Conservation.

  /** A part and the rest of it add up to the whole. */
  lemma {:induction false} TotalSplits(names: set<string>, part: set<string>, size: Sizes)
    requires part <= names
    ensures Total(names, size) == Total(part, size) + Total(names - part, size)
    decreases |part|
  {
    if part == {} {
      assert names - part == names;
    } else {
      var x :| x in part;
      TotalSplits(names - {x}, part - {x}, size);
      TotalWithout(names, size, x);
      TotalWithout(part, size, x);
      assert names - {x} - (part - {x}) == names - part;
    }
  }

  /** All bytes of the files a prune looks at, as they are counted before it. */
  ghost function Bytes(c: Cache, files: Cache): nat {
    Total(files.blobs.Keys, BlobSizes(c)) + Total(files.roots.Keys, RootSizes(c))
    + Total(files.records.Keys, RecordSizes(c)) + Total(files.staging.Keys, StagingSizes(c))
  }

  /** The bytes that are left and the bytes that are reclaimed are the bytes that were there. */
  lemma PruneConserves(env: Env, c: Cache)
    ensures Bytes(c, Pruned(env, c)) <= Bytes(c, c)
    ensures Reclaimed(env, c) == Min(Bytes(c, c) - Bytes(c, Pruned(env, c)), U64_MAX)
  {
    var p := Pruned(env, c);
    TotalSplits(c.blobs.Keys, UnreachableBlobs(env, c), BlobSizes(c));
    TotalSplits(c.roots.Keys, IncompleteRoots(c), RootSizes(c));
    TotalSplits(c.records.Keys, StaleRecords(c), RecordSizes(c));
    TotalSplits(c.staging.Keys, AbandonedStaging(c), StagingSizes(c));
    assert p.blobs.Keys == c.blobs.Keys - UnreachableBlobs(env, c);
    assert p.roots.Keys == c.roots.Keys - IncompleteRoots(c);
    assert p.records.Keys == c.records.Keys - StaleRecords(c);
    assert p.staging.Keys == c.staging.Keys - AbandonedStaging(c);
  }
}
