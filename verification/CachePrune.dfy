/** Garbage collection of the image cache: what prune removes, what it keeps, and when a lookup can tell. */
module CachePrune {
  import opened Base
  import opened Text
  import opened Digests
  import opened Images
  import opened CacheModel

  /** The digests of the ready root filesystems. */
  function ReadyDigests(c: Cache): set<Digest> {
    set n | n in c.roots && Ready(c, n) :: ParseDigest(n).value
  }

  // Reachability.

  /** Texts that all parse, and the digests they name. */
  function ParseAll(texts: seq<string>): (r: Option<set<Digest>>) {
    if texts == [] then Some({})
    else
      var n := |texts| - 1;
      var rest, last := ParseAll(texts[..n]), ParseDigest(texts[n]);
      if rest.None? || last.None? then None else Some(rest.value + {last.value})
  }

  /** The blobs one manifest keeps alive. */
  function ManifestRefs(env: Env, c: Cache, d: Digest): Result<set<Digest>, CacheError> {
    if Hex(d) !in c.blobs then Err(MissingManifest(d))
    else if c.blobs[Hex(d)].NotABlob? then Err(InvalidManifest(d))
    else
      var bytes := c.blobs[Hex(d)].bytes;
      if env.sha(bytes) != d then Err(InvalidManifest(d))
      else
        match env.manifest(bytes)
        case None => Err(JsonError)
        case Some(m) =>
          var config, layers := ParseDigest(m.config), ParseAll(m.layers);
          if config.None? || layers.None? then Err(InvalidDigest)
          else Ok({d, config.value} + layers.value)
  }

  /** Some ready rootfs keeps the blob alive. */
  predicate Reachable(env: Env, c: Cache, x: Digest) {
    exists d :: d in ReadyDigests(c) && Keeps(env, c, d, x)
  }

  predicate Keeps(env: Env, c: Cache, d: Digest, x: Digest) {
    var refs := ManifestRefs(env, c, d);
    refs.Ok? && x in refs.value
  }

  /** Prune runs when every ready rootfs has a sound manifest and every listed record is valid. */
  predicate PruneOk(env: Env, c: Cache) {
    && (forall d :: d in ReadyDigests(c) ==> ManifestRefs(env, c, d).Ok?)
    && RecordsReadable(c)
  }

  // What is removed.

  predicate Unreachable(env: Env, c: Cache, name: string) {
    && name in c.blobs && c.blobs[name].Blob?
    && !(ParseDigest(name).Some? && Reachable(env, c, ParseDigest(name).value))
  }

  predicate Incomplete(c: Cache, name: string) {
    name in c.roots && c.roots[name].directory && !Ready(c, name)
  }

  /** A record that names no ready rootfs. */
  predicate StaleFile(file: RecordFile, ready: set<Digest>) {
    && ReadRecord(file).Ok?
    && var d := ParseDigest(ReadRecord(file).value.manifest);
       d.None? || d.value !in ready
  }

  predicate Stale(c: Cache, name: string) { Listed(c, name) && StaleFile(c.records[name], ReadyDigests(c)) }

  predicate IsNumber(s: string, max: nat) {
    var digits := if |s| > 1 && s[0] == '+' then s[1..] else s;
    digits != [] && (forall i :: 0 <= i < |digits| ==> IsDigit(digits[i])) && Decimal(digits) <= max
  }

  function Decimal(s: string): nat
    requires forall i :: 0 <= i < |s| ==> IsDigit(s[i])
  {
    if s == [] then 0
    else
      var last := s[|s| - 1];
      assert IsDigit(last);
      10 * Decimal(s[..|s| - 1]) + (last as int - '0' as int)
  }

  /** `is_rootfs_staging_name`: a lower-case digest, a process id and a sequence number. */
  predicate IsStagingName(name: string) {
    && |name| > 66 && IsCanonicalHex(name[..64]) && name[64] == '.'
    && exists j :: 64 < j < |name| && name[j] == '.' && '.' !in name[65..j]
         && IsNumber(name[65..j], 0xFFFF_FFFF) && IsNumber(name[j + 1..], U64_MAX)
  }

  predicate Abandoned(c: Cache, name: string) { name in c.staging && c.staging[name].directory && IsStagingName(name) }

  function UnreachableBlobs(env: Env, c: Cache): set<string> { set n | n in c.blobs && Unreachable(env, c, n) }

  function IncompleteRoots(c: Cache): set<string> { set n | n in c.roots && Incomplete(c, n) }

  function StaleRecords(c: Cache): set<string> { set n | n in c.records && Stale(c, n) }

  function AbandonedStaging(c: Cache): set<string> { set n | n in c.staging && Abandoned(c, n) }

  /** The index entries that go with the incomplete root filesystems. */
  function IncompleteIndex(c: Cache): set<string> {
    set n | n in IncompleteRoots(c) && ParseDigest(n).Some? :: JsonName(ParseDigest(n).value)
  }

  /** The cache after an applied prune. */
  function Pruned(env: Env, c: Cache): Cache {
    c.(blobs := c.blobs - UnreachableBlobs(env, c),
       roots := c.roots - IncompleteRoots(c),
       index := c.index - IncompleteIndex(c),
       records := c.records - StaleRecords(c),
       staging := c.staging - AbandonedStaging(c))
  }

  /** The bytes a prune reclaims, as far as 64 bits count. */
  ghost function Reclaimed(env: Env, c: Cache): nat {
    Min(Total(UnreachableBlobs(env, c), BlobSizes(c)) + Total(IncompleteRoots(c), RootSizes(c))
        + Total(StaleRecords(c), RecordSizes(c)) + Total(AbandonedStaging(c), StagingSizes(c)), U64_MAX)
  }

  // What stays.

  lemma ReadyStays(env: Env, c: Cache)
    ensures forall n :: Ready(Pruned(env, c), n) <==> Ready(c, n)
    ensures ReadyDigests(Pruned(env, c)) == ReadyDigests(c)
  {
    var p := Pruned(env, c);
    assert forall n :: n in p.roots <==> n in c.roots && !Incomplete(c, n);
    assert forall n :: n in p.roots ==> p.roots[n] == c.roots[n];
  }

  /** Completeness at a digest's own path does not change, even where a link stands in for the directory. */
  lemma CompleteStays(env: Env, c: Cache, d: Digest)
    ensures Complete(Pruned(env, c), d) <==> Complete(c, d)
  {
    DigestRoundTrip(d);
    var p := Pruned(env, c);
    assert Hex(d) in p.roots <==> Hex(d) in c.roots && !Incomplete(c, Hex(d));
  }

  /** Every blob a ready rootfs needs is still there, unchanged. */
  lemma ReachableStays(env: Env, c: Cache, x: Digest, name: string)
    requires Reachable(env, c, x) && ParseDigest(name) == Some(x)
    ensures name in c.blobs <==> name in Pruned(env, c).blobs
    ensures name in c.blobs ==> Pruned(env, c).blobs[name] == c.blobs[name]
  {
    assert !Unreachable(env, c, name);
  }

  lemma RefsStay(env: Env, c: Cache, d: Digest)
    requires d in ReadyDigests(c) && ManifestRefs(env, c, d).Ok?
    ensures ManifestRefs(env, Pruned(env, c), d) == ManifestRefs(env, c, d)
  {
    DigestRoundTrip(d);
    assert Keeps(env, c, d, d);
    ReachableStays(env, c, d, Hex(d));
  }

  lemma ReachableSame(env: Env, c: Cache, x: Digest)
    requires PruneOk(env, c)
    ensures Reachable(env, Pruned(env, c), x) <==> Reachable(env, c, x)
  {
    var p := Pruned(env, c);
    ReadyStays(env, c);
    forall d | d in ReadyDigests(c) ensures Keeps(env, p, d, x) <==> Keeps(env, c, d, x) {
      RefsStay(env, c, d);
    }
  }

  /** The manifest, config and layers of every ready rootfs survive a prune. */
  lemma PruneKeepsImages(env: Env, c: Cache, d: Digest, x: Digest)
    requires PruneOk(env, c) && d in ReadyDigests(c) && x in ManifestRefs(env, c, d).value
    ensures var p := Pruned(env, c);
      && d in ReadyDigests(p) && ManifestRefs(env, p, d) == ManifestRefs(env, c, d)
      && (Hex(x) in c.blobs ==> Hex(x) in p.blobs && p.blobs[Hex(x)] == c.blobs[Hex(x)])
  {
    ReadyStays(env, c);
    RefsStay(env, c, d);
    assert Keeps(env, c, d, x);
    DigestRoundTrip(x);
    ReachableStays(env, c, x, Hex(x));
  }

  // A second prune.

  lemma NoStaleLeft(env: Env, c: Cache, n: string)
    ensures !Stale(Pruned(env, c), n)
  {
    var p := Pruned(env, c);
    ReadyStays(env, c);
    assert n in p.records ==> n in c.records && p.records[n] == c.records[n] && !Stale(c, n);
  }

  lemma NoUnreachableLeft(env: Env, c: Cache, n: string)
    requires PruneOk(env, c)
    ensures !Unreachable(env, Pruned(env, c), n)
  {
    var p := Pruned(env, c);
    assert n in p.blobs ==> n in c.blobs && p.blobs[n] == c.blobs[n] && !Unreachable(env, c, n);
    if ParseDigest(n).Some? {
      ReachableSame(env, c, ParseDigest(n).value);
    }
  }

  lemma PrunedIsOk(env: Env, c: Cache)
    requires PruneOk(env, c)
    ensures PruneOk(env, Pruned(env, c))
  {
    var p := Pruned(env, c);
    ReadyStays(env, c);
    forall d | d in ReadyDigests(p) ensures ManifestRefs(env, p, d).Ok? {
      RefsStay(env, c, d);
    }
    assert forall n :: n in p.records ==> n in c.records && p.records[n] == c.records[n];
    assert forall n :: Listed(p, n) ==> Listed(c, n);
  }

  /** After a prune there is nothing left to prune: a second one succeeds, finds nothing and changes nothing. */
  lemma PruneFixpoint(env: Env, c: Cache)
    requires PruneOk(env, c)
    ensures var p := Pruned(env, c);
      && PruneOk(env, p)
      && UnreachableBlobs(env, p) == {} && IncompleteRoots(p) == {}
      && StaleRecords(p) == {} && AbandonedStaging(p) == {}
      && Pruned(env, p) == p
  {
    var p := Pruned(env, c);
    PrunedIsOk(env, c);
    ReadyStays(env, c);
    forall n ensures !Unreachable(env, p, n) && !Stale(p, n) {
      NoUnreachableLeft(env, c, n);
      NoStaleLeft(env, c, n);
    }
    NothingToRemove(p, c, env);
  }

  lemma NothingToRemove(p: Cache, c: Cache, env: Env)
    requires p == Pruned(env, c) && forall n :: Ready(p, n) <==> Ready(c, n)
    requires forall n :: !Unreachable(env, p, n) && !Stale(p, n)
    ensures UnreachableBlobs(env, p) == {} && IncompleteRoots(p) == {}
    ensures StaleRecords(p) == {} && AbandonedStaging(p) == {} && Pruned(env, p) == p
  {
    assert forall n :: n in p.roots ==> !Incomplete(p, n);
    assert IncompleteRoots(p) == {};
    assert forall n :: n in p.staging ==> !Abandoned(p, n);
    assert p.blobs - {} == p.blobs && p.roots - {} == p.roots && p.records - {} == p.records;
    assert IncompleteIndex(p) == {} && p.index - {} == p.index && p.staging - {} == p.staging;
  }

  // Lookups.

  /**
   The lookups an applied prune changes: the record found there is dropped, though it was filed under
   another reference or platform, or its rootfs is a link to a complete tree that the pin accepts.
   */
  predicate Disturbed(env: Env, c: Cache, reference: string, platform: Platform) {
    var name := RecordName(env, reference, platform);
    && Stale(c, name)
    && var r := ReadRecord(c.records[name]).value;
       || r.reference != reference || r.platform != platform
       || (PinAccepts(reference, r.source) == Ok(true) && LinkedRoot(c, r))
  }

  /** The record's rootfs path is complete, but not a directory of its own. */
  predicate LinkedRoot(c: Cache, r: ImageRecord) {
    var d := ParseDigest(r.manifest);
    d.Some? && Complete(c, d.value) && !c.roots[Hex(d.value)].directory
  }

  lemma StaleIsNotReady(c: Cache, name: string)
    requires Stale(c, name)
    ensures var r := ReadRecord(c.records[name]).value;
      ParseDigest(r.manifest).Some? && (Complete(c, ManifestOf(r)) <==> LinkedRoot(c, r))
  {
    ReadRecordHasManifest(c.records[name]);
    var d := ParseDigest(ReadRecord(c.records[name]).value.manifest).value;
    DigestRoundTrip(d);
    assert !Ready(c, Hex(d));
  }

  /** A dropped record answered "not cached" unless it is one of the disturbed ones. */
  lemma StaleAnswer(env: Env, c: Cache, reference: string, platform: Platform)
    requires Stale(c, RecordName(env, reference, platform))
    ensures Resolve(env, c, reference, platform) == Ok(None) <==> !Disturbed(env, c, reference, platform)
  {
    var file := c.records[RecordName(env, reference, platform)];
    StaleIsNotReady(c, RecordName(env, reference, platform));
    PinIsChecked(file);
  }

  lemma KeptAnswer(env: Env, c: Cache, file: RecordFile, reference: string, platform: Platform)
    ensures ResolveFile(Pruned(env, c), file, reference, platform) == ResolveFile(c, file, reference, platform)
  {
    LookupDependsOn(Pruned(env, c), c, file, reference, platform);
    if ReadRecord(file).Ok? {
      ReadRecordHasManifest(file);
      CompleteStays(env, c, ManifestOf(ReadRecord(file).value));
    }
  }

  /** An applied prune changes the answer of a lookup exactly for the disturbed ones. */
  lemma PruneKeepsLookups(env: Env, c: Cache, reference: string, platform: Platform)
    ensures Resolve(env, Pruned(env, c), reference, platform) == Resolve(env, c, reference, platform)
      <==> !Disturbed(env, c, reference, platform)
  {
    var name := RecordName(env, reference, platform);
    var p := Pruned(env, c);
    if Stale(c, name) {
      assert name !in p.records;
      StaleAnswer(env, c, reference, platform);
    } else if name in c.records {
      assert p.records[name] == c.records[name];
      KeptAnswer(env, c, c.records[name], reference, platform);
    }
  }

  /** In particular every lookup that found an image in a directory of its own still finds it. */
  lemma PruneKeepsHits(env: Env, c: Cache, reference: string, platform: Platform)
    requires Resolve(env, c, reference, platform).Ok? && Resolve(env, c, reference, platform).value.Some?
    requires var rootfs := Resolve(env, c, reference, platform).value.value.rootfs;
      rootfs in c.roots && c.roots[rootfs].directory
    ensures Resolve(env, Pruned(env, c), reference, platform) == Resolve(env, c, reference, platform)
  {
    PruneKeepsLookups(env, c, reference, platform);
  }

  // Two caches where a prune is noticed.

  /** A record of an OCI layout, valid as it stands. */
  function SampleRecord(d: Digest): ImageRecord {
    ImageRecord(SCHEMA, OCI + "x", None, Show(d), Platform("linux", "amd64", None))
  }

  lemma SampleIsValid(d: Digest)
    ensures ValidateRecord(SampleRecord(d)).None? && ParseDigest(SampleRecord(d).manifest) == Some(d)
    ensures ParseImage(OCI + "x") == Ok(OciLayout("x"))
  {
    DigestRoundTrip(d);
    OciPrefix("x");
  }

  function OneRecord(name: string, r: ImageRecord, roots: map<string, Rootfs>): Cache {
    Cache(map[name := RecordFile(true, Json(r), 0)], roots, map[], map[], map[], NoDefault)
  }

  /** A record filed under another reference was refused; after the prune the lookup finds nothing. */
  lemma MisfiledRecordIsForgotten(env: Env, d: Digest, reference: string)
    requires reference != OCI + "x"
    ensures var r := SampleRecord(d);
      var c := OneRecord(RecordName(env, reference, r.platform), r, map[]);
      && PruneOk(env, c) && Resolve(env, c, reference, r.platform) == Err(InvalidRecord)
      && Resolve(env, Pruned(env, c), reference, r.platform) == Ok(None)
  {
    var r := SampleRecord(d);
    SampleIsValid(d);
    var name := RecordName(env, reference, r.platform);
    var c := OneRecord(name, r, map[]);
    assert ReadyDigests(c) == {};
    assert Stale(c, name);
  }

  /** A rootfs reached through a link was found; the prune drops its record, and the lookup finds nothing. */
  lemma LinkedRootIsForgotten(env: Env, d: Digest, usage: Usage)
    ensures var r := SampleRecord(d);
      var roots := map[Hex(d) := Rootfs(false, Some(Show(d)), None, usage, 0)];
      var c := OneRecord(RecordName(env, r.reference, r.platform), r, roots);
      && PruneOk(env, c)
      && Resolve(env, c, r.reference, r.platform).Ok? && Resolve(env, c, r.reference, r.platform).value.Some?
      && Resolve(env, Pruned(env, c), r.reference, r.platform) == Ok(None)
  {
    var r := SampleRecord(d);
    SampleIsValid(d);
    var name := RecordName(env, r.reference, r.platform);
    var c := OneRecord(name, r, map[Hex(d) := Rootfs(false, Some(Show(d)), None, usage, 0)]);
    assert ReadyDigests(c) == {};
    assert Stale(c, name);
  }
}
