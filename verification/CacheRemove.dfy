/** Removing an image by reference or by digest: which records and root filesystems go, and who notices. */
module CacheRemove {
  import opened Base
  import opened Text
  import opened Digests
  import opened Images
  import opened CacheModel

  datatype Target = ByDigest(digest: Digest) | ByReference(reference: string)

  /** `parse_target`. */
  function ParseTarget(text: string): Result<Target, CacheError> {
    if PREFIX <= text || (|text| == 64 && forall i :: 0 <= i < 64 ==> IsHexDigit(text[i])) then
      match ParseDigest(text)
      case Some(d) => Ok(ByDigest(d))
      case None => Err(InvalidDigest)
    else
      match CanonicalReference(text)
      case Ok(s) => Ok(ByReference(s))
      case Err(_) => Err(InvalidTarget)
  }

  // What goes.

  predicate Matches(c: Cache, target: Target, name: string) {
    && Listed(c, name) && ReadRecord(c.records[name]).Ok?
    && match target
       case ByDigest(d) => Names(c, name, d)
       case ByReference(s) => ReadRecord(c.records[name]).value.reference == s
  }

  function RemovedRecords(c: Cache, target: Target): set<string> {
    set n | n in c.records && Matches(c, target, n)
  }

  /** Some record that is kept names the digest. */
  predicate StillNamed(c: Cache, target: Target, d: Digest) {
    exists n :: n in c.records && !Matches(c, target, n) && Names(c, n, d)
  }

  /** The digests whose rootfs may go: the target itself, or those of the removed records. */
  predicate Affected(c: Cache, target: Target, d: Digest) {
    match target
    case ByDigest(t) => d == t
    case ByReference(_) => exists n :: n in c.records && Matches(c, target, n) && Names(c, n, d)
  }

  predicate Dropped(c: Cache, target: Target, d: Digest) {
    Affected(c, target, d) && (target.ByDigest? || !StillNamed(c, target, d))
  }

  /** The order in which the rootfs directory is listed. */
  ghost predicate Lists(order: seq<string>, names: set<string>) {
    && (forall n :: n in order <==> n in names)
    && forall i, j :: 0 <= i < j < |order| ==> order[i] != order[j]
  }

  /** The first directory of the listing with a digest. */
  function FirstRoot(env: Env, c: Cache, order: seq<string>, d: Digest): (r: Option<string>)
    ensures r.Some? ==>
      r.value in order && r.value in c.roots && c.roots[r.value].directory && EntryDigest(env, r.value) == d
    ensures r.None? ==> forall n :: n in order && n in c.roots && c.roots[n].directory ==> EntryDigest(env, n) != d
  {
    if order == [] then None
    else if order[0] in c.roots && c.roots[order[0]].directory && EntryDigest(env, order[0]) == d then Some(order[0])
    else
      assert order == [order[0]] + order[1..];
      FirstRoot(env, c, order[1..], d)
  }

  predicate RootGoes(env: Env, c: Cache, order: seq<string>, target: Target, name: string) {
    && name in c.roots
    && FirstRoot(env, c, order, EntryDigest(env, name)) == Some(name)
    && Dropped(c, target, EntryDigest(env, name))
  }

  function RemovedRoots(env: Env, c: Cache, order: seq<string>, target: Target): set<string> {
    set n | n in c.roots && RootGoes(env, c, order, target, n)
  }

  function RemovedIndex(env: Env, c: Cache, order: seq<string>, target: Target): set<string> {
    set n | n in RemovedRoots(env, c, order, target) :: JsonName(EntryDigest(env, n))
  }

  /** The target names nothing that is cached. */
  predicate NotFound(env: Env, c: Cache, order: seq<string>, target: Target) {
    RemovedRecords(c, target) == {} && (target.ByDigest? ==> FirstRoot(env, c, order, target.digest).None?)
  }

  /** The cache after an applied removal. */
  function Removed(env: Env, c: Cache, order: seq<string>, target: Target): Cache {
    c.(records := c.records - RemovedRecords(c, target),
       roots := c.roots - RemovedRoots(env, c, order, target),
       index := c.index - RemovedIndex(env, c, order, target))
  }

  // The report.

  datatype RemoveReport = RemoveReport(references: set<string>, roots: set<string>, reclaimed: nat, applied: bool)

  function RemovedReferences(c: Cache, target: Target): set<string> {
    set n | n in RemovedRecords(c, target) && c.records[n].content.Json? :: c.records[n].content.value.reference
  }

  /** The report of a removal: the same for a preview and an applied run, but for the flag. */
  ghost function ReportOf(env: Env, c: Cache, order: seq<string>, target: Target, apply: bool): RemoveReport {
    var roots := RemovedRoots(env, c, order, target);
    RemoveReport(RemovedReferences(c, target), roots, Min(Total(roots, RootSizes(c)), U64_MAX), apply)
  }

  // Who notices.

  /**
   A root filesystem goes exactly when it is the first of its digest, the digest is affected, and no kept
   record names it.
   */
  lemma RootGoesIff(env: Env, c: Cache, order: seq<string>, s: string, d: Digest)
    requires Lists(order, c.roots.Keys) && FirstRoot(env, c, order, d).Some?
    ensures
      var target := ByReference(s);
      var after := Removed(env, c, order, target);
      FirstRoot(env, c, order, d).value in RemovedRoots(env, c, order, target)
      <==>
      && (exists n :: n in RemovedRecords(c, target) && Names(c, n, d))
      && !(exists n :: n in after.records && Names(after, n, d))
  {
    var target := ByReference(s);
    var after := Removed(env, c, order, target);
    assert forall n :: n in after.records <==> n in c.records && !Matches(c, target, n);
    assert forall n :: n in after.records ==> after.records[n] == c.records[n];
    forall n | n in after.records ensures Names(after, n, d) <==> Names(c, n, d) { }
  }

  /** A kept, listed record keeps its rootfs: completeness of what it names does not change. */
  lemma KeptRecordKeepsRoot(env: Env, c: Cache, order: seq<string>, target: Target, name: string, d: Digest)
    requires !Matches(c, target, name) && Names(c, name, d)
    ensures Complete(Removed(env, c, order, target), d) <==> Complete(c, d)
  {
    DigestRoundTrip(d);
    assert target.ByReference? ==> StillNamed(c, target, d);
    assert !Dropped(c, target, d);
    assert Hex(d) !in RemovedRoots(env, c, order, target);
  }

  /** A lookup whose record is removed finds nothing afterwards. */
  lemma RemovedIsGone(env: Env, c: Cache, order: seq<string>, target: Target, reference: string, platform: Platform)
    requires RecordName(env, reference, platform) in RemovedRecords(c, target)
    ensures Resolve(env, Removed(env, c, order, target), reference, platform) == Ok(None)
  {
  }

  /** A lookup whose record is kept, or that has no record, answers as before. */
  lemma OthersAreKept(env: Env, c: Cache, order: seq<string>, target: Target, reference: string, platform: Platform)
    requires var name := RecordName(env, reference, platform);
      name in c.records ==> c.records[name].regular && name !in RemovedRecords(c, target)
    ensures Resolve(env, Removed(env, c, order, target), reference, platform) == Resolve(env, c, reference, platform)
  {
    var name := RecordName(env, reference, platform);
    if name in c.records {
      var file, after := c.records[name], Removed(env, c, order, target);
      LookupDependsOn(after, c, file, reference, platform);
      if ReadRecord(file).Ok? {
        ReadRecordHasManifest(file);
        KeptRecordKeepsRoot(env, c, order, target, name, ManifestOf(ReadRecord(file).value));
      }
    }
  }

  /** A record reached through a link is not counted, so its lookup is lost exactly when its rootfs goes. */
  lemma LinkedRecord(env: Env, c: Cache, order: seq<string>, target: Target, reference: string, platform: Platform)
    requires var name := RecordName(env, reference, platform);
      name in c.records && !c.records[name].regular
    ensures var file := c.records[RecordName(env, reference, platform)];
      Resolve(env, Removed(env, c, order, target), reference, platform) == Resolve(env, c, reference, platform)
      <==> !LosesRoot(env, c, order, target, reference, platform, file)
  {
    var name := RecordName(env, reference, platform);
    var file, after := c.records[name], Removed(env, c, order, target);
    assert !Listed(c, name);
    assert after.records[name] == file;
    LookupDependsOn(after, c, file, reference, platform);
    ReadRecordHasManifest(file);
  }

  /** The lookup gets as far as the rootfs of its record, which is complete and goes. */
  predicate LosesRoot(env: Env, c: Cache, order: seq<string>, target: Target,
                      reference: string, platform: Platform, file: RecordFile)
  {
    && ReadRecord(file).Ok?
    && var r := ReadRecord(file).value;
       && Reaches(r, reference, platform) && ParseDigest(r.manifest).Some? && Complete(c, ManifestOf(r))
       && Hex(ManifestOf(r)) in RemovedRoots(env, c, order, target)
  }

  /**
   What the removal of another reference can do to a lookup: take a misfiled record, or the rootfs of a
   linked one.
   */
  predicate OtherDisturbed(env: Env, c: Cache, order: seq<string>, removed: string, reference: string,
                           platform: Platform)
  {
    var name := RecordName(env, reference, platform);
    || name in RemovedRecords(c, ByReference(removed))
    || (name in c.records && !c.records[name].regular
        && LosesRoot(env, c, order, ByReference(removed), reference, platform, c.records[name]))
  }

  /** A misfiled record that goes was refused before, and is a miss afterwards. */
  lemma MisfiledGoes(env: Env, c: Cache, order: seq<string>, removed: string, reference: string, platform: Platform)
    requires reference != removed && RecordName(env, reference, platform) in RemovedRecords(c, ByReference(removed))
    ensures Resolve(env, c, reference, platform) == Err(InvalidRecord)
    ensures Resolve(env, Removed(env, c, order, ByReference(removed)), reference, platform) == Ok(None)
  {
    RemovedIsGone(env, c, order, ByReference(removed), reference, platform);
  }

  /** Removing one reference changes the lookup of another exactly where that is disturbed. */
  lemma OtherReferences(env: Env, c: Cache, order: seq<string>, removed: string, reference: string, platform: Platform)
    requires reference != removed
    ensures Resolve(env, Removed(env, c, order, ByReference(removed)), reference, platform)
         == Resolve(env, c, reference, platform)
      <==> !OtherDisturbed(env, c, order, removed, reference, platform)
  {
    var name := RecordName(env, reference, platform);
    if name in RemovedRecords(c, ByReference(removed)) {
      MisfiledGoes(env, c, order, removed, reference, platform);
    } else if name in c.records && !c.records[name].regular {
      LinkedRecord(env, c, order, ByReference(removed), reference, platform);
    } else {
      OthersAreKept(env, c, order, ByReference(removed), reference, platform);
    }
  }
}
