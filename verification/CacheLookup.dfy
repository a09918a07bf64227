/** What a lookup finds and what a removal takes, said by the files of the cache and the texts in them. */
module CacheLookup {
  import opened Base
  import opened Text
  import opened Digests
  import opened Images
  import opened CacheModel
  import opened CacheRemove

  // Records.

  /** A record that is read as it is: every field can be read and is in its canonical form. */
  predicate WellKept(r: ImageRecord) {
    && r.schema == 1 && CanonicalReference(r.reference) == Ok(r.reference)
    && ParseDigest(r.manifest).Some? && (r.source.Some? ==> ParseDigest(r.source.value).Some?)
    && r.platform.os != "" && r.platform.architecture != ""
  }

  lemma ReadIff(file: RecordFile, r: ImageRecord)
    ensures ReadRecord(file) == Ok(r) <==> file.content == Json(r) && WellKept(r)
  {
  }

  /** A reference pinned to a digest is met only by a record that was pulled from that digest. */
  predicate PinMet(reference: string, source: Option<string>) {
    var i := ParseImage(reference);
    i.Ok? && i.value.Registry? && i.value.reference.selector.Digest? ==>
      && source.Some? && ParseDigest(source.value).Some?
      && ParseDigest(source.value) == ParseDigest(i.value.reference.selector.digest)
  }

  /** The rootfs of a digest is in place: one of its markers holds the digest. */
  predicate RootInPlace(c: Cache, d: Digest) {
    Hex(d) in c.roots && (c.roots[Hex(d)].current == Some(Show(d)) || c.roots[Hex(d)].legacy == Some(Show(d)))
  }

  /** The reference that counts as the default image, unless its file cannot be read. */
  predicate IsDefault(c: Cache, reference: string) {
    match c.default
    case NoDefault => reference == "docker.io/library/python:3.12"
    case Default(schema, text) => schema == 1 && CanonicalReference(text) == Ok(reference)
    case BadDefault(_) => false
  }

  predicate DefaultReadable(c: Cache) {
    match c.default
    case NoDefault => true
    case Default(schema, text) => schema == 1 && CanonicalReference(text).Ok?
    case BadDefault(_) => false
  }

  /** A lookup finds an image exactly when its record, pin, rootfs and default file are in order. */
  lemma FoundIff(env: Env, c: Cache, reference: string, platform: Platform, r: ImageRecord)
    requires var name := RecordName(env, reference, platform);
      name in c.records && c.records[name].content == Json(r)
    ensures var found := Resolve(env, c, reference, platform);
      found.Ok? && found.value.Some? <==>
        && WellKept(r) && r.reference == reference && r.platform == platform && PinMet(reference, r.source)
        && RootInPlace(c, ParseDigest(r.manifest).value) && DefaultReadable(c)
  {
    var file := c.records[RecordName(env, reference, platform)];
    ReadIff(file, r);
    if WellKept(r) && r.reference == reference {
      PinIff(reference, r.source);
    }
  }

  lemma PinIff(reference: string, source: Option<string>)
    requires CanonicalReference(reference) == Ok(reference) && (source.Some? ==> ParseDigest(source.value).Some?)
    ensures PinAccepts(reference, source) == Ok(PinMet(reference, source))
  {
    if PinnedDigest(ParseImage(reference).value).Some? {
      PinnedParses(reference);
    }
  }

  /** What it finds: the record's manifest and its rootfs, for this reference and platform. */
  lemma FoundIs(env: Env, c: Cache, reference: string, platform: Platform, image: CachedImage)
    requires Resolve(env, c, reference, platform) == Ok(Some(image))
    ensures var name := RecordName(env, reference, platform);
      && name in c.records && c.records[name].content.Json?
      && var r := c.records[name].content.value;
         && image.reference == reference && image.platform == platform && image.manifest == r.manifest
         && ParseDigest(r.manifest).Some? && image.rootfs == Hex(ParseDigest(r.manifest).value)
         && (image.isDefault <==> IsDefault(c, reference)) && PinMet(reference, r.source)
  {
    var r := c.records[RecordName(env, reference, platform)].content.value;
    FoundIff(env, c, reference, platform, r);
    ReadIff(c.records[RecordName(env, reference, platform)], r);
  }

  /** A record that cannot be read is an error, not a miss. */
  lemma BadRecordIsError(env: Env, c: Cache, reference: string, platform: Platform)
    requires RecordName(env, reference, platform) in c.records
    ensures var content := c.records[RecordName(env, reference, platform)].content;
      && (content == Garbage ==> Resolve(env, c, reference, platform) == Err(JsonError))
      && (content == RecordContent.Unreadable ==> Resolve(env, c, reference, platform) == Err(IoError))
      && (content.Json? && !WellKept(content.value) ==> Resolve(env, c, reference, platform).Err?)
      && (content.Json? && WellKept(content.value)
          && (content.value.reference != reference || content.value.platform != platform) ==>
            Resolve(env, c, reference, platform) == Err(InvalidRecord))
  {
    var file := c.records[RecordName(env, reference, platform)];
    if file.content.Json? {
      ReadIff(file, file.content.value);
    }
  }

  /** Without a record of its own a reference is not cached. */
  lemma NoRecordNoImage(env: Env, c: Cache, reference: string, platform: Platform)
    requires RecordName(env, reference, platform) !in c.records
    ensures Resolve(env, c, reference, platform) == Ok(None)
  {
  }

  /** An image that was pulled is found under its canonical reference, once its rootfs is in place. */
  lemma PulledIsFound(env: Env, c: Cache, text: string, source: Digest, manifest: Digest, platform: Platform, size: nat)
    requires ParseImage(text).Ok? && !Images.Unreadable(ParseImage(text).value)
    requires platform.os != "" && platform.architecture != "" && RootInPlace(c, manifest) && DefaultReadable(c)
    requires var reference := CanonicalReference(text).value;
      PinMet(reference, Some(Show(source)))
    ensures var reference := CanonicalReference(text).value;
      var file := RecordFile(true, Json(NewRecord(reference, source, manifest, platform)), size);
      var after := c.(records := c.records[RecordName(env, reference, platform) := file]);
      && Resolve(env, after, reference, platform).Ok? && Resolve(env, after, reference, platform).value.Some?
      && Resolve(env, after, reference, platform).value.value.rootfs == Hex(manifest)
  {
    var reference := CanonicalReference(text).value;
    var r := NewRecord(reference, source, manifest, platform);
    var name := RecordName(env, reference, platform);
    var after := c.(records := c.records[name := RecordFile(true, Json(r), size)]);
    CanonicalIsStable(text);
    DigestRoundTrip(source);
    DigestRoundTrip(manifest);
    FoundIff(env, after, reference, platform, r);
    FoundIs(env, after, reference, platform, Resolve(env, after, reference, platform).value.value);
  }

  // Record names.

  lemma NulDiffers(a: string, b: string, c: string, d: string)
    requires |a| < |c| && '\0' !in c
    ensures a + (['\0'] + b) != c + (['\0'] + d)
  {
    var s, t := a + (['\0'] + b), c + (['\0'] + d);
    assert s[|a|] == '\0' && t[|a|] == c[|a|];
  }

  lemma NulSplits(a: string, b: string, c: string, d: string)
    requires '\0' !in a && '\0' !in c && a + (['\0'] + b) == c + (['\0'] + d)
    ensures a == c && b == d
  {
    var s, t := a + (['\0'] + b), c + (['\0'] + d);
    if |a| < |c| {
      NulDiffers(a, b, c, d);
    } else if |c| < |a| {
      NulDiffers(c, d, a, b);
    }
    assert s[..|a|] == a && t[..|c|] == c && s[|a| + 1..] == b && t[|c| + 1..] == d;
  }

  function VariantText(p: Platform): string { if p.variant.Some? then p.variant.value else "" }

  predicate NoNul(reference: string, p: Platform) {
    '\0' !in reference && '\0' !in p.os && '\0' !in p.architecture
  }

  lemma KeyParts(reference: string, p: Platform)
    ensures RecordKey(reference, p)
         == reference + (['\0'] + (p.os + (['\0'] + (p.architecture + (['\0'] + VariantText(p))))))
  {
  }

  /** Different references or platforms are filed under different keys; no variant counts as an empty one. */
  lemma KeysAreDistinct(r: string, p: Platform, r': string, p': Platform)
    requires NoNul(r, p) && NoNul(r', p') && RecordKey(r, p) == RecordKey(r', p')
    ensures r == r' && p.os == p'.os && p.architecture == p'.architecture && VariantText(p) == VariantText(p')
  {
    KeyParts(r, p);
    KeyParts(r', p');
    var arch, arch' := p.architecture + (['\0'] + VariantText(p)), p'.architecture + (['\0'] + VariantText(p'));
    NulSplits(r, p.os + (['\0'] + arch), r', p'.os + (['\0'] + arch'));
    NulSplits(p.os, arch, p'.os, arch');
    NulSplits(p.architecture, VariantText(p), p'.architecture, VariantText(p'));
  }

  // Removal.

  /** The text of a target has the form of a digest: the algorithm in front, or 64 hexadecimal digits. */
  predicate LooksLikeDigest(text: string) {
    "sha256:" <= text || (|text| == 64 && forall i :: 0 <= i < 64 ==> IsHexDigit(text[i]))
  }

  /** A digest is understood in both its forms. */
  lemma DigestTarget(d: Digest)
    ensures ParseTarget(Show(d)) == Ok(ByDigest(d)) && ParseTarget(Hex(d)) == Ok(ByDigest(d))
  {
    DigestRoundTrip(d);
    HexRoundTrip(d);
    HexIsCanonicalIff(Hex(d));
  }

  /** Any other text is a reference, in its canonical form. */
  lemma ReferenceTarget(text: string)
    requires !LooksLikeDigest(text)
    ensures CanonicalReference(text).Ok? ==> ParseTarget(text) == Ok(ByReference(CanonicalReference(text).value))
    ensures CanonicalReference(text).Err? ==> ParseTarget(text) == Err(InvalidTarget)
  {
  }

  /** What a removal by reference takes from the records: those filed with that reference, on any platform. */
  lemma TakenByReference(env: Env, c: Cache, order: seq<string>, text: string, name: string)
    requires !LooksLikeDigest(text) && CanonicalReference(text).Ok? && name in c.records && RecordsReadable(c)
    ensures ParseTarget(text).Ok?
    ensures Listed(c, name) ==> c.records[name].content.Json?
    ensures name !in Removed(env, c, order, ParseTarget(text).value).records <==>
      Listed(c, name) && c.records[name].content.value.reference == CanonicalReference(text).value
  {
    ReferenceTarget(text);
    if Listed(c, name) {
      assert ReadRecord(c.records[name]).Ok?;
    }
  }

  /** What a removal by digest takes: the records that name it, and the first directory of that digest. */
  lemma TakenByDigest(env: Env, c: Cache, order: seq<string>, d: Digest, name: string)
    requires name in c.records && RecordsReadable(c)
    ensures Listed(c, name) ==> c.records[name].content.Json?
    ensures name !in Removed(env, c, order, ByDigest(d)).records <==>
      Listed(c, name) && ParseDigest(c.records[name].content.value.manifest) == Some(d)
  {
    if Listed(c, name) {
      assert ReadRecord(c.records[name]).Ok?;
    }
  }

  /** The directory's digest, by its name or else by the hash of its path. */
  predicate HasDigest(env: Env, name: string, d: Digest) {
    if ParseDigest(name).Some? then ParseDigest(name) == Some(d) else env.sha(env.rootPath(name)) == d
  }

  /** A directory is the first of the listing with its digest. */
  predicate IsFirst(env: Env, c: Cache, order: seq<string>, i: nat, d: Digest)
    requires i < |order|
  {
    && order[i] in c.roots && c.roots[order[i]].directory && HasDigest(env, order[i], d)
    && forall j :: 0 <= j < i && order[j] in c.roots && c.roots[order[j]].directory ==> !HasDigest(env, order[j], d)
  }

  lemma {:induction false} FirstRootIs(env: Env, c: Cache, order: seq<string>, i: nat, d: Digest)
    requires i < |order| && IsFirst(env, c, order, i, d)
    ensures FirstRoot(env, c, order, d) == Some(order[i])
  {
    if i > 0 {
      assert !(order[0] in c.roots && c.roots[order[0]].directory && EntryDigest(env, order[0]) == d);
      assert forall j :: 0 <= j < |order[1..]| ==> order[1..][j] == order[j + 1];
      FirstRootIs(env, c, order[1..], i - 1, d);
    }
  }

  /** The first directory of the digest goes, and with it its index entry; nothing else of the roots does. */
  lemma RootTakenByDigest(env: Env, c: Cache, order: seq<string>, d: Digest, i: nat)
    requires i < |order| && IsFirst(env, c, order, i, d)
    ensures var after := Removed(env, c, order, ByDigest(d));
      && order[i] !in after.roots && JsonName(d) !in after.index
      && (forall n :: n in c.roots && n != order[i] ==> n in after.roots && after.roots[n] == c.roots[n])
      && (forall n :: n in c.index && n != JsonName(d) ==> n in after.index && after.index[n] == c.index[n])
  {
    FirstRootIs(env, c, order, i, d);
    assert RootGoes(env, c, order, ByDigest(d), order[i]);
    assert forall n :: n in RemovedRoots(env, c, order, ByDigest(d)) <==> n == order[i];
    assert JsonName(d) in RemovedIndex(env, c, order, ByDigest(d));
  }

  /** The references a removal reports are those of the records it takes. */
  lemma ReportedReferences(c: Cache, target: Target, s: string)
    requires RecordsReadable(c)
    ensures s in RemovedReferences(c, target) <==>
      exists n :: n in RemovedRecords(c, target) && c.records[n].content.Json?
                  && c.records[n].content.value.reference == s
  {
  }
}
