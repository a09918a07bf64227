/**
 The image cache on disk: records, root filesystems, their size index, blobs and staging directories,
 and how a reference is resolved against them.
 */
module CacheModel {
  import opened Base
  import opened Digests
  import opened Images

  datatype Platform = Platform(os: string, architecture: string, variant: Option<string>)

  datatype ImageRecord = ImageRecord(
    schema: nat, reference: string, source: Option<string>, manifest: string, platform: Platform)

  /** What reading a record file gives. A symbolic link is not regular but may be readable. */
  datatype RecordContent = Json(value: ImageRecord) | Garbage | Unreadable

  datatype RecordFile = RecordFile(regular: bool, content: RecordContent, size: nat)

  datatype Usage = Usage(logical: nat, physical: nat, entries: nat)

  /** An entry of the rootfs directory: its two completion markers, a fresh scan of its tree, its plain size. */
  datatype Rootfs = Rootfs(directory: bool, current: Option<string>, legacy: Option<string>, usage: Usage, size: nat)

  datatype Metadata = Metadata(schema: nat, manifest: string, usage: Usage)

  datatype IndexFile = Indexed(value: Metadata) | BadJson | NotAFile

  datatype BlobFile = Blob(bytes: seq<byte>) | NotABlob

  datatype Staging = Staging(directory: bool, size: nat)

  datatype DefaultFile = NoDefault | Default(schema: nat, reference: string) | BadDefault(error: CacheError)

  datatype CacheError =
    | TargetNotFound | InvalidTarget | InvalidDigest | InvalidRecord | UnsupportedSchema
    | MissingManifest(digest: Digest) | InvalidManifest(digest: Digest) | JsonError | IoError | InvalidManagedPath

  datatype Cache = Cache(
    records: map<string, RecordFile>,
    roots: map<string, Rootfs>,
    index: map<string, IndexFile>,
    blobs: map<string, BlobFile>,
    staging: map<string, Staging>,
    default: DefaultFile)

  datatype Manifest = Manifest(config: string, layers: seq<string>)

  /** The hash, the text encoding, the manifest decoder and the text of a rootfs entry's full path. */
  datatype Env = Env(
    sha: seq<byte> -> Digest,
    utf8: string -> seq<byte>,
    manifest: seq<byte> -> Option<Manifest>,
    rootPath: string -> seq<byte>)

  const SCHEMA: nat := 1
  const BUILTIN_DEFAULT := "docker.io/library/python:3.12"

  // Names.

  function RecordKey(reference: string, platform: Platform): string {
    reference + ['\0'] + platform.os + ['\0'] + platform.architecture + ['\0']
    + if platform.variant.Some? then platform.variant.value else ""
  }

  function JsonName(d: Digest): (name: string)
    ensures IsJsonName(name)
  {
    Hex(d) + ".json"
  }

  /** A file name with the extension `json`. */
  predicate IsJsonName(name: string) { |name| > 5 && name[|name| - 5..] == ".json" }

  function RecordName(env: Env, reference: string, platform: Platform): string {
    JsonName(env.sha(env.utf8(RecordKey(reference, platform))))
  }

  // Records.

  function ValidateRecord(r: ImageRecord): Option<CacheError> {
    if r.schema != SCHEMA then Some(UnsupportedSchema)
    else
      match CanonicalReference(r.reference)
      case Err(_) => Some(InvalidTarget)
      case Ok(canonical) =>
        if canonical != r.reference then Some(InvalidRecord)
        else if ParseDigest(r.manifest).None? then Some(InvalidDigest)
        else if r.source.Some? && ParseDigest(r.source.value).None? then Some(InvalidDigest)
        else if r.platform.os == [] || r.platform.architecture == [] then Some(InvalidRecord)
        else None
  }

  /** The record a pull writes. */
  function NewRecord(reference: string, source: Digest, manifest: Digest, platform: Platform): ImageRecord {
    ImageRecord(SCHEMA, reference, Some(Show(source)), Show(manifest), platform)
  }

  /** A record written under a reference canonicalized once is accepted when read, exactly when that is readable. */
  lemma WrittenRecordIsValid(text: string, source: Digest, manifest: Digest, platform: Platform)
    requires ParseImage(text).Ok? && platform.os != [] && platform.architecture != []
    ensures ValidateRecord(NewRecord(CanonicalReference(text).value, source, manifest, platform)).None?
      <==> !Images.Unreadable(ParseImage(text).value)
  {
    CanonicalIsStable(text);
    DigestRoundTrip(source);
    DigestRoundTrip(manifest);
  }

  /**
   A pull canonicalizes its reference when it starts and again when it writes the record. So it writes no record
   for an unreadable reference, and the record it writes is named by the canonical reference and is accepted.
   */
  lemma PulledRecordIsValid(text: string, source: Digest, manifest: Digest, platform: Platform)
    requires ParseImage(text).Ok? && platform.os != [] && platform.architecture != []
    ensures var canonical := CanonicalReference(text).value;
      match CanonicalReference(canonical)
      case Err(_) => Images.Unreadable(ParseImage(text).value)
      case Ok(written) =>
        && written == canonical && !Images.Unreadable(ParseImage(text).value)
        && ValidateRecord(NewRecord(written, source, manifest, platform)).None?
  {
    WrittenRecordIsValid(text, source, manifest, platform);
    CanonicalIsStable(text);
    CanonicalTwice(text);
  }

  /** Reading one record file, as a lookup does. */
  function ReadRecord(file: RecordFile): Result<ImageRecord, CacheError> {
    match file.content
    case Unreadable => Err(IoError)
    case Garbage => Err(JsonError)
    case Json(r) =>
      match ValidateRecord(r)
      case Some(e) => Err(e)
      case None => Ok(r)
  }

  function ManifestOf(r: ImageRecord): Digest
    requires ParseDigest(r.manifest).Some?
  {
    ParseDigest(r.manifest).value
  }

  lemma ReadRecordHasManifest(file: RecordFile)
    ensures ReadRecord(file).Ok? ==> ParseDigest(ReadRecord(file).value.manifest).Some?
  {
  }

  /** The record files a listing of the record directory takes up. */
  predicate Listed(c: Cache, name: string) {
    name in c.records && c.records[name].regular && IsJsonName(name)
  }

  /** Listing succeeds when every listed file holds a valid record. */
  predicate RecordsReadable(c: Cache) {
    forall n :: n in c.records && Listed(c, n) ==> ReadRecord(c.records[n]).Ok?
  }

  /** A listed record that can be read, and the digest it names. */
  predicate Names(c: Cache, name: string, d: Digest) {
    && Listed(c, name) && ReadRecord(c.records[name]).Ok?
    && ParseDigest(ReadRecord(c.records[name]).value.manifest) == Some(d)
  }

  // Root filesystems.

  predicate HasMarker(root: Rootfs, d: Digest) { root.current == Some(Show(d)) || root.legacy == Some(Show(d)) }

  /** `is_complete_rootfs` at the digest's own path. */
  predicate Complete(c: Cache, d: Digest) {
    Hex(d) in c.roots && HasMarker(c.roots[Hex(d)], d)
  }

  /** A directory of the rootfs directory whose name is a digest. */
  predicate Valid(c: Cache, name: string) {
    name in c.roots && c.roots[name].directory && ParseDigest(name).Some?
  }

  predicate Ready(c: Cache, name: string) {
    Valid(c, name) && HasMarker(c.roots[name], ParseDigest(name).value)
  }

  /** The digest a listing gives to a directory: by its name, else by the hash of its path. */
  function EntryDigest(env: Env, name: string): Digest {
    match ParseDigest(name)
    case Some(d) => d
    case None => env.sha(env.rootPath(name))
  }

  // The size index.

  datatype IndexState = Missing | Mangled | Current(value: Metadata)

  function IndexOf(c: Cache, d: Digest): IndexState {
    if JsonName(d) !in c.index then Missing
    else
      match c.index[JsonName(d)]
      case Indexed(m) => if m.schema != SCHEMA || m.manifest != Show(d) then Mangled else Current(m)
      case _ => Mangled
  }

  lemma JsonNameInjective(a: Digest, b: Digest)
    requires JsonName(a) == JsonName(b)
    ensures a == b
  {
    assert JsonName(a)[..64] == Hex(a) && JsonName(b)[..64] == Hex(b);
    HexInjective(a, b);
  }

  // Sizes.

  /** The size of a rootfs entry: from its index entry if that is current, else from a walk. */
  function RootSize(c: Cache, name: string): nat {
    if ParseDigest(name).Some? && IndexOf(c, ParseDigest(name).value).Current?
    then IndexOf(c, ParseDigest(name).value).value.usage.logical
    else if name in c.roots then c.roots[name].size else 0
  }

  function BlobSize(c: Cache, name: string): nat {
    if name in c.blobs && c.blobs[name].Blob? then |c.blobs[name].bytes| else 0
  }

  function RecordSize(c: Cache, name: string): nat { if name in c.records then c.records[name].size else 0 }

  function StagingSize(c: Cache, name: string): nat { if name in c.staging then c.staging[name].size else 0 }

  type Sizes = string -> nat

  function RootSizes(c: Cache): Sizes { n => RootSize(c, n) }

  function BlobSizes(c: Cache): Sizes { n => BlobSize(c, n) }

  function RecordSizes(c: Cache): Sizes { n => RecordSize(c, n) }

  function StagingSizes(c: Cache): Sizes { n => StagingSize(c, n) }

  ghost function Total(names: set<string>, size: Sizes): nat {
    if names == {} then 0
    else
      var n :| n in names;
      size(n) + Total(names - {n}, size)
  }

  /** The total does not depend on the order of addition. */
  lemma {:induction false} TotalWithout(names: set<string>, size: Sizes, x: string)
    requires x in names
    ensures Total(names, size) == size(x) + Total(names - {x}, size)
    decreases names
  {
    var n :| n in names && Total(names, size) == size(n) + Total(names - {n}, size);
    if n != x {
      TotalWithout(names - {n}, size, x);
      TotalWithout(names - {x}, size, n);
      assert names - {n} - {x} == names - {x} - {n};
    }
  }

  // The default image and resolution.

  function DefaultReference(c: Cache): Result<string, CacheError> {
    match c.default
    case NoDefault => Ok(BUILTIN_DEFAULT)
    case BadDefault(e) => Err(e)
    case Default(schema, reference) =>
      if schema != SCHEMA then Err(UnsupportedSchema)
      else
        match CanonicalReference(reference)
        case Ok(s) => Ok(s)
        case Err(_) => Err(InvalidTarget)
  }

  datatype CachedImage = CachedImage(
    reference: string, manifest: string, platform: Platform, rootfs: string, isDefault: bool)

  /** Whether a reference pinned to a digest accepts the manifest a record was pulled from. */
  function PinAccepts(reference: string, source: Option<string>): Result<bool, CacheError> {
    match ParseImage(reference)
    case Err(_) => Err(InvalidTarget)
    case Ok(i) =>
      match PinnedDigest(i)
      case None => Ok(true)
      case Some(text) =>
        match ParseDigest(text)
        case None => Err(InvalidDigest)
        case Some(expected) =>
          if source.None? then Ok(false)
          else if ParseDigest(source.value).None? then Err(InvalidDigest)
          else Ok(ParseDigest(source.value).value == expected)
  }

  function ResolveRecord(c: Cache, r: ImageRecord): Result<Option<CachedImage>, CacheError>
    requires ParseDigest(r.manifest).Some?
  {
    if !Complete(c, ManifestOf(r)) then Ok(None)
    else
      match DefaultReference(c)
      case Err(e) => Err(e)
      case Ok(d) => Ok(Some(CachedImage(r.reference, r.manifest, r.platform, Hex(ManifestOf(r)), r.reference == d)))
  }

  function ResolveFile(c: Cache, file: RecordFile, reference: string, platform: Platform)
    : Result<Option<CachedImage>, CacheError>
  {
    match ReadRecord(file)
    case Err(e) => Err(e)
    case Ok(r) =>
      if r.reference != reference || r.platform != platform then Err(InvalidRecord)
      else
        match PinAccepts(reference, r.source)
        case Err(e) => Err(e)
        case Ok(accepts) => if accepts then ReadRecordHasManifest(file); ResolveRecord(c, r) else Ok(None)
  }

  /** `resolve_reference_unlocked`. */
  function Resolve(env: Env, c: Cache, reference: string, platform: Platform): Result<Option<CachedImage>, CacheError> {
    var name := RecordName(env, reference, platform);
    if name !in c.records then Ok(None) else ResolveFile(c, c.records[name], reference, platform)
  }

  /** Once a record is read under its own reference, checking the pin cannot fail. */
  lemma PinIsChecked(file: RecordFile)
    ensures ReadRecord(file).Ok? ==> PinAccepts(ReadRecord(file).value.reference, ReadRecord(file).value.source).Ok?
  {
    if ReadRecord(file).Ok? {
      var r := ReadRecord(file).value;
      if PinnedDigest(ParseImage(r.reference).value).Some? {
        PinnedParses(r.reference);
      }
    }
  }

  /** The lookup gets as far as the rootfs of the record. */
  predicate Reaches(r: ImageRecord, reference: string, platform: Platform) {
    r.reference == reference && r.platform == platform && PinAccepts(reference, r.source) == Ok(true)
  }

  /** What a lookup of a record file depends on: whether the rootfs it reaches is complete. */
  predicate SeesDifference(a: Cache, b: Cache, file: RecordFile, reference: string, platform: Platform) {
    && ReadRecord(file).Ok?
    && var r := ReadRecord(file).value;
       Reaches(r, reference, platform) && ParseDigest(r.manifest).Some?
       && Complete(a, ManifestOf(r)) != Complete(b, ManifestOf(r))
  }

  lemma LookupDependsOn(a: Cache, b: Cache, file: RecordFile, reference: string, platform: Platform)
    requires a.default == b.default
    ensures ResolveFile(a, file, reference, platform) == ResolveFile(b, file, reference, platform)
      <==> !SeesDifference(a, b, file, reference, platform)
  {
    ReadRecordHasManifest(file);
    PinIsChecked(file);
  }
}
