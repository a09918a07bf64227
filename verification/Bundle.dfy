/**
 Box bundles: the archive an export writes, and what an import makes of an archive. Importing an
 exported Ready Box whose name is free succeeds and restores the Box.
 */
module Bundle {
  import opened Base
  import opened Text
  import opened Boxes
  import opened DiskFile
  import opened SparseMap
  import opened GnuSparse
  import opened Archive

  type Path = seq<byte>

  // "manifest.json", "metadata.json" and "root.ext4".
  const MANIFEST_PATH: Path := [109, 97, 110, 105, 102, 101, 115, 116, 46, 106, 115, 111, 110]
  const METADATA_PATH: Path := [109, 101, 116, 97, 100, 97, 116, 97, 46, 106, 115, 111, 110]
  const DISK_PATH: Path := [114, 111, 111, 116, 46, 101, 120, 116, 52]

  const REGULAR: byte := 48
  const SPARSE: byte := 83

  const MAX_MANIFEST: nat := 64 * 1024
  const MAX_METADATA: nat := 1024 * 1024

  // Tar entries.

  /** Header fields the bundle does not look at: mode and owner; time and checksum; the rest. */
  datatype Misc = Misc(owner: seq<byte>, stamp: seq<byte>, rest: seq<byte>) {
    predicate Valid() { |owner| == 24 && |stamp| == 20 && |rest| == 229 }
  }

  predicate ValidPath(path: Path) { |path| <= 100 && forall i :: 0 <= i < |path| ==> path[i] != 0 }

  function InfoOf(misc: Misc, path: Path, kind: byte): (info: Info)
    requires misc.Valid() && ValidPath(path)
    ensures info.Valid()
  {
    Info(path + Zeros(100 - |path|) + misc.owner, misc.stamp + [kind] + misc.rest)
  }

  /** The path field up to its first zero byte. */
  function PathField(b: seq<byte>): Path {
    if b == [] || b[0] == 0 then [] else [b[0]] + PathField(b[1..])
  }

  lemma {:induction false} PathFieldRead(path: Path, n: nat)
    requires forall i :: 0 <= i < |path| ==> path[i] != 0
    ensures PathField(path + Zeros(n)) == path
  {
    if path == [] {
      assert path + Zeros(n) == Zeros(n);
    } else {
      PathFieldRead(path[1..], n);
      assert (path + Zeros(n))[1..] == path[1..] + Zeros(n);
      assert [path[0]] + path[1..] == path;
    }
  }

  function EncodeRegular(misc: Misc, path: Path, content: seq<byte>): seq<byte>
    requires misc.Valid() && ValidPath(path)
  {
    Header(InfoOf(misc, path, REGULAR), |content|, [], false, 0) + content + Zeros(Padding(|content|))
  }

  /** An entry as the archive reader presents it. */
  datatype Item = Item(path: Path, sparse: bool, content: seq<byte>)

  datatype Next = End | Broken | Found(item: Item, rest: seq<byte>)

  /** The archive iterator: an all-zero block, or no block, ends the archive. */
  function NextItem(b: seq<byte>): Next {
    if |b| < BLOCK || AllZero(b[..BLOCK]) then End
    else if b[156] == SPARSE then
      match Decode(b)
      case Err(_) => Broken
      case Ok((file, rest)) => Found(Item(PathField(b[..100]), true, file), rest)
    else
      var size := ReadNumber(b[124..136]);
      if b[156] != REGULAR || |b| < BLOCK + size + Padding(size) then Broken
      else Found(Item(PathField(b[..100]), false, b[BLOCK..BLOCK + size]), b[BLOCK + size + Padding(size)..])
  }

  lemma LeadSlices(misc: Misc, path: Path, kind: byte, rest: seq<byte>)
    requires misc.Valid() && ValidPath(path)
    ensures var info := InfoOf(misc, path, kind);
            info.lead[..100] == path + Zeros(100 - |path|) && info.mid[20] == kind
  {
  }

  /** Where a header keeps its path, its kind and its size. */
  lemma HeaderFields(info: Info, stored: nat, es: seq<Extent>, more: bool, logical: nat, rest: seq<byte>)
    requires info.Valid() && |es| <= INLINE_SLOTS
    ensures var b := Header(info, stored, es, more, logical) + rest;
            && |b| >= BLOCK && b[..100] == info.lead[..100] && b[156] == info.mid[20]
            && b[124..136] == Number(stored) && b[BLOCK..] == rest && b[124] != 0
  {
    var n, s, f, r, z := Number(stored), Slots(es, INLINE_SLOTS), Flag(more), Number(logical), Zeros(17);
    FieldSlices(info.lead, n, info.mid, s, f, r, z, rest);
  }

  lemma FieldSlices(lead: seq<byte>, a: seq<byte>, mid: seq<byte>, s: seq<byte>, f: byte,
                    r: seq<byte>, z: seq<byte>, rest: seq<byte>)
    requires |lead| == 124 && |a| == 12 && |mid| == 250 && |s| == 96 && |r| == 12 && |z| == 17
    ensures var b := lead + a + mid + s + [f] + r + z + rest;
            && |b| >= BLOCK && b[..100] == lead[..100] && b[156] == mid[20]
            && b[124..136] == a && b[BLOCK..] == rest && b[124] == a[0]
  {
  }

  lemma RegularRead(misc: Misc, path: Path, content: seq<byte>, rest: seq<byte>)
    requires misc.Valid() && ValidPath(path) && |content| <= U64_MAX
    ensures NextItem(EncodeRegular(misc, path, content) + rest) == Found(Item(path, false, content), rest)
  {
    var info, pad := InfoOf(misc, path, REGULAR), Zeros(Padding(|content|));
    var h := Header(info, |content|, [], false, 0);
    EntryParts(h, content, pad, rest);
    HeaderFields(info, |content|, [], false, 0, content + pad + rest);
    LeadSlices(misc, path, REGULAR, rest);
    PathFieldRead(path, 100 - |path|);
    NumberRoundTrip(|content|);
    NextRegular(h + (content + pad + rest), path, content, pad, rest);
  }

  lemma EntryParts(h: seq<byte>, content: seq<byte>, pad: seq<byte>, rest: seq<byte>)
    ensures h + content + pad + rest == h + (content + pad + rest)
  {
  }

  lemma NextRegular(b: seq<byte>, path: Path, content: seq<byte>, pad: seq<byte>, rest: seq<byte>)
    requires |b| >= BLOCK && b[124] != 0 && b[156] == REGULAR && PathField(b[..100]) == path
    requires ReadNumber(b[124..136]) == |content| && |pad| == Padding(|content|)
    requires b[BLOCK..] == content + pad + rest
    ensures NextItem(b) == Found(Item(path, false, content), rest)
  {
    NonZeroBlock(b);
    RegularTail(b, content, pad, rest);
  }

  lemma NonZeroBlock(b: seq<byte>)
    requires |b| >= BLOCK && b[124] != 0
    ensures !AllZero(b[..BLOCK])
  {
    assert b[..BLOCK][124] == b[124];
  }

  lemma RegularTail(b: seq<byte>, content: seq<byte>, pad: seq<byte>, rest: seq<byte>)
    requires |b| >= BLOCK && b[BLOCK..] == content + pad + rest
    ensures |b| >= BLOCK + |content| + |pad|
    ensures b[BLOCK..BLOCK + |content|] == content && b[BLOCK + |content| + |pad|..] == rest
  {
    var tail := b[BLOCK..];
    assert tail[..|content|] == content && tail[|content| + |pad|..] == rest;
    assert b[BLOCK..BLOCK + |content|] == tail[..|content|];
    assert b[BLOCK + |content| + |pad|..] == tail[|content| + |pad|..];
  }

  /** A sparse entry is read back as the whole disk exactly if the data of its extents is aligned. */
  lemma SparseRead(misc: Misc, path: Path, m: Map, disk: seq<byte>, rest: seq<byte>)
    requires misc.Valid() && ValidPath(path) && GoodMap(m, disk)
    ensures NextItem(Encode(InfoOf(misc, path, SPARSE), m, disk) + rest)
         == if Aligned(m.extents, 0) then Found(Item(path, true, disk), rest) else Broken
  {
    var info := InfoOf(misc, path, SPARSE);
    EntryRoundTrip(info, m, disk, rest);
    SparseStart(misc, path, m, disk, rest);
    NextSparse(Encode(info, m, disk) + rest, path, ReadBack(m, disk, rest));
  }

  lemma SparseStart(misc: Misc, path: Path, m: Map, disk: seq<byte>, rest: seq<byte>)
    requires misc.Valid() && ValidPath(path) && Chained(m.extents, 0, |disk|)
    ensures var b := Encode(InfoOf(misc, path, SPARSE), m, disk) + rest;
            |b| >= BLOCK && PathField(b[..100]) == path && b[156] == SPARSE && b[124] != 0
  {
    EncodeStart(InfoOf(misc, path, SPARSE), m, disk, rest);
    LeadSlices(misc, path, SPARSE, rest);
    PathFieldRead(path, 100 - |path|);
  }

  lemma NextSparse(b: seq<byte>, path: Path, read: Result<(seq<byte>, seq<byte>), ReadError>)
    requires |b| >= BLOCK && b[124] != 0 && b[156] == SPARSE
    requires Decode(b) == read && PathField(b[..100]) == path
    ensures NextItem(b) == if read.Ok? then Found(Item(path, true, read.value.0), read.value.1) else Broken
  {
    NonZeroBlock(b);
  }

  lemma EncodeStart(info: Info, m: Map, disk: seq<byte>, rest: seq<byte>)
    requires info.Valid() && Chained(m.extents, 0, |disk|)
    ensures var b := Encode(info, m, disk) + rest;
            |b| >= BLOCK && b[..100] == info.lead[..100] && b[156] == info.mid[20] && b[124] != 0
  {
    var es, more := m.extents, |m.extents| > INLINE_SLOTS;
    var tail := Chain(Overflow(es)) + (Gather(es, 0, disk) + Zeros(Padding(m.storedSize)) + rest);
    EncodeParts(Header(info, m.storedSize, Inline(es), more, m.logicalSize), Chain(Overflow(es)),
                Gather(es, 0, disk), Zeros(Padding(m.storedSize)), rest);
    HeaderFields(info, m.storedSize, Inline(es), more, m.logicalSize, tail);
  }

  /** A map that fits the disk: what `find_sparse_map` returns for it. */
  predicate GoodMap(m: Map, disk: seq<byte>) {
    && Chained(m.extents, 0, |disk|) && Covers(m.extents, disk, 0, |disk|)
    && m.storedSize == Sum(m.extents) && m.logicalSize == |disk| <= U64_MAX
    && Fits(m.extents) && m.storedSize <= U64_MAX
  }

  lemma {:induction false} OrderedIsChained(es: seq<Extent>, from: nat, to: nat)
    requires Ordered(es, from, to)
    ensures from <= to && Chained(es + [Extent(to, 0)], from, to)
    ensures Sum(es) <= to - from
    ensures forall i :: 0 <= i < |es| ==> es[i].offset <= to && es[i].length <= to
  {
    var closed := es + [Extent(to, 0)];
    if es == [] {
      assert closed[1..] == [];
    } else {
      OrderedIsChained(es[1..], es[0].offset + es[0].length, to);
      assert closed[1..] == es[1..] + [Extent(to, 0)];
      assert forall i :: 0 < i < |es| ==> es[i] == es[1..][i - 1];
    }
  }

  /** The map of an honest kernel is good for the disk it was made of. */
  lemma MapIsGood(m: Map, image: Image, supported: bool)
    requires image.Valid() && supported && |image.bytes| <= U64_MAX
    requires WellFormed(m) && m.logicalSize == |image.bytes|
    requires HolesOutside(Kernel(image, supported), Body(m), m.logicalSize)
    ensures GoodMap(m, image.bytes)
  {
    KernelIsHonest(image, supported);
    var end := Extent(m.logicalSize, 0);
    OrderedIsChained(Body(m), 0, m.logicalSize);
    assert m.extents == Body(m) + [end];
    SumSnoc(Body(m), end);
    InsideSnoc(Body(m), end);
  }

  /** The map of a file allocated in blocks is one the archive reader accepts. */
  lemma MapIsReadable(m: Map, image: Image, supported: bool)
    requires image.Valid() && WellFormed(m) && m.logicalSize == |image.bytes|
    requires BlockSeeker(Kernel(image, supported), m.logicalSize) ==> OnGrid(Body(m), m.logicalSize)
    ensures BlockAllocated(image) ==> Aligned(m.extents, 0)
  {
    if BlockAllocated(image) {
      KernelSeeksBlocks(image, supported);
      GridIsAligned(m);
    }
  }

  /** A map that no reader accepts: a second piece of data after a single byte. */
  lemma MisalignedMap()
    ensures var m := Map(3, 2, [Extent(0, 1), Extent(2, 1), Extent(3, 0)]);
      WellFormed(m) && GoodMap(m, [1, 0, 1]) && !Aligned(m.extents, 0)
  {
    var end := Extent(3, 0);
    var es := [Extent(0, 1), Extent(2, 1)];
    var m := Map(3, 2, es + [end]);
    assert es[1..] == [Extent(2, 1)] && es[1..][1..] == [];
    assert m.extents == [Extent(0, 1), Extent(2, 1), Extent(3, 0)];
    OrderedIsChained(es, 0, 3);
    SumSnoc(es, end);
    assert m.extents[0].offset <= 0 < m.extents[0].offset + m.extents[0].length;
    assert m.extents[1].offset <= 2 < m.extents[1].offset + m.extents[1].length;
    assert es[0].length % BLOCK != 0;
    AlignedIff(es, 0, 3, 0);
  }

  // The bundle.

  datatype Manifest = Manifest(
    schema: nat,
    metadataPath: Path,
    metadataSize: nat,
    metadataSha: string,
    diskPath: Path,
    diskSize: nat,
    diskSha: string)

  const BUNDLE_SCHEMA: nat := 1

  /** JSON and SHA-256, about which only what is stated here is used. */
  datatype Env = Env(
    manifestJson: Manifest -> seq<byte>,
    parseManifest: seq<byte> -> Option<Manifest>,
    metadataJson: Metadata -> seq<byte>,
    parseMetadata: seq<byte> -> Option<Metadata>,
    sha: seq<byte> -> string)

  predicate ValidDigest(s: string) {
    && |s| == 71 && s[..7] == "sha256:"
    && forall i :: 7 <= i < 71 ==> IsHexDigit(s[i])
  }

  function ManifestOf(env: Env, meta: Metadata, disk: seq<byte>): Manifest {
    Manifest(BUNDLE_SCHEMA, METADATA_PATH, |env.metadataJson(meta)|, env.sha(env.metadataJson(meta)),
             DISK_PATH, |disk|, env.sha(disk))
  }

  /** The texts of this Box's manifest and metadata read back, the manifest is as short as an import
      reads it, and the two hashes look like hashes. */
  predicate Encodes(env: Env, meta: Metadata, disk: seq<byte>) {
    var manifest, text := ManifestOf(env, meta, disk), env.metadataJson(meta);
    && env.parseManifest(env.manifestJson(manifest)) == Some(manifest)
    && |env.manifestJson(manifest)| <= MAX_MANIFEST
    && env.parseMetadata(text) == Some(meta) && 0 < |text|
    && ValidDigest(env.sha(text)) && ValidDigest(env.sha(disk))
  }

  /** How a disk is stored: plain, or sparse by a map. */
  datatype DiskForm = Plain | Sparse(m: Map) {
    /** The map is good for the disk. */
    predicate Fits(disk: seq<byte>) { Sparse? ==> GoodMap(m, disk) }

    /** The archive reader accepts the entry. */
    predicate Readable() { Sparse? ==> Aligned(m.extents, 0) }
  }

  function DiskEntry(misc: Misc, disk: seq<byte>, form: DiskForm): seq<byte>
    requires misc.Valid() && form.Fits(disk)
  {
    match form
    case Plain => EncodeRegular(misc, DISK_PATH, disk)
    case Sparse(m) => Encode(InfoOf(misc, DISK_PATH, SPARSE), m, disk)
  }

  function BundleBytes(env: Env, misc: Misc, meta: Metadata, disk: seq<byte>, form: DiskForm): seq<byte>
    requires misc.Valid() && form.Fits(disk)
  {
    EncodeRegular(misc, MANIFEST_PATH, env.manifestJson(ManifestOf(env, meta, disk)))
    + BundleTail(env, misc, meta, DiskEntry(misc, disk, form))
  }

  /** What follows the manifest. */
  function BundleTail(env: Env, misc: Misc, meta: Metadata, entry: seq<byte>): seq<byte>
    requires misc.Valid()
  {
    EncodeRegular(misc, METADATA_PATH, env.metadataJson(meta)) + (entry + Zeros(2 * BLOCK))
  }

  datatype BundleError =
    | NotReady | MetadataTooLarge | DiskTooLarge | WriteFailed | MapFailed
    | Missing | WrongEntry | BadManifest | BadMetadata | SizeDiffers | DigestDiffers | ExtraEntries
    | NameConflict

  datatype Exported = Exported(bytes: seq<byte>, size: nat, digest: string)

  method AppendRegular(writer: SparseArchiveWriter, misc: Misc, path: Path, content: seq<byte>)
      returns (ok: bool)
    requires writer.Valid() && misc.Valid() && ValidPath(path)
    modifies writer, writer.output
    ensures writer.Valid()
    ensures ok ==> writer.hashed == old(writer.hashed) + EncodeRegular(misc, path, content)
    ensures |old(writer.hashed)| + 2 * BLOCK + |content| <= U64_MAX ==> ok
  {
    var header := MakeHeader(InfoOf(misc, path, REGULAR), Map(0, |content|, []), false);
    var parts := [header, content, Zeros(Padding(|content|))];
    JoinThree(parts[0], parts[1], parts[2]);
    ok := WriteParts(writer, parts);
  }

  lemma JoinThree(a: seq<byte>, b: seq<byte>, c: seq<byte>)
    ensures Joined([a, b, c]) == a + b + c
  {
    JoinTwo(a, b);
    JoinedSnoc([a, b], c);
    assert [a, b] + [c] == [a, b, c];
  }

  lemma JoinTwo(a: seq<byte>, b: seq<byte>)
    ensures Joined([a, b]) == a + b
  {
    JoinedSnoc([], a);
    assert [] + [a] == [a];
    assert Joined([a]) == a;
    JoinedSnoc([a], b);
    assert [a] + [b] == [a, b];
  }

  /** No disk entry is longer than this: a map has at most one extent for each byte. */
  function DiskBound(size: nat): nat { BLOCK * (size + 3) + size }

  lemma {:induction false} ChainBound(es: seq<Extent>)
    ensures |Chain(es)| <= BLOCK * |es|
    decreases |es|
  {
    if |es| > CHAIN_SLOTS {
      ChainBound(es[CHAIN_SLOTS..]);
    }
  }

  lemma {:induction false} ExtentBound(es: seq<Extent>, from: nat, to: nat)
    requires Ordered(es, from, to)
    ensures |es| <= to - from
  {
    if es != [] {
      ExtentBound(es[1..], es[0].offset + es[0].length, to);
    }
  }

  lemma SparseBound(info: Info, m: Map, disk: seq<byte>)
    requires info.Valid() && WellFormed(m) && m.logicalSize == |disk| && Chained(m.extents, 0, |disk|)
    ensures |Encode(info, m, disk)| <= DiskBound(|disk|)
  {
    ExtentBound(Body(m), 0, |disk|);
    OrderedIsChained(Body(m), 0, |disk|);
    assert m.extents == Body(m) + [Extent(|disk|, 0)];
    SumSnoc(Body(m), Extent(|disk|, 0));
    GatherLength(m.extents, 0, disk);
    ChainBound(Overflow(m.extents));
  }

  method AppendDisk(writer: SparseArchiveWriter, misc: Misc, image: Image, supported: bool)
      returns (r: Result<(), BundleError>, ghost form: DiskForm)
    requires writer.Valid() && misc.Valid() && image.Valid() && |image.bytes| <= U64_MAX
    modifies writer, writer.output
    ensures writer.Valid() && form.Fits(image.bytes)
    ensures r.Ok? ==> writer.hashed == old(writer.hashed) + DiskEntry(misc, image.bytes, form)
    ensures |DiskEntry(misc, image.bytes, form)| <= DiskBound(|image.bytes|)
    ensures BlockAllocated(image) ==> form.Readable()
    ensures |old(writer.hashed)| + DiskBound(|image.bytes|) <= U64_MAX ==> r.Ok?
  {
    form := Plain;
    KernelIsHonest(image, supported);
    var found := FindSparseMap(Kernel(image, supported), |image.bytes|);
    if found.Err? {
      return Err(MapFailed), form;
    }
    var ok: bool;
    match found.value {
      case None => ok := AppendRegular(writer, misc, DISK_PATH, image.bytes);
      case Some(m) =>
        MapIsGood(m, image, supported);
        MapIsReadable(m, image, supported);
        SparseBound(InfoOf(misc, DISK_PATH, SPARSE), m, image.bytes);
        form := Sparse(m);
        ok := AppendSparseMapped(writer, InfoOf(misc, DISK_PATH, SPARSE), m, image.bytes);
    }
    r := if ok then Ok(()) else Err(WriteFailed);
  }

  /** A Ready Box within the limits, whose manifest is as short as an import reads it. */
  predicate Exportable(env: Env, meta: Metadata, disk: seq<byte>) {
    && meta.state == Ready && |env.metadataJson(meta)| <= MAX_METADATA && |disk| <= MAX_ROOT_DISK
    && |env.manifestJson(ManifestOf(env, meta, disk))| <= MAX_MANIFEST
  }

  /** Exports a leased Box; what it writes is a bundle of exactly this metadata and disk. */
  method ExportBundle(env: Env, misc: Misc, meta: Metadata, image: Image, supported: bool)
      returns (r: Result<Exported, BundleError>, ghost form: DiskForm)
    requires misc.Valid() && image.Valid()
    ensures form.Fits(image.bytes) && (BlockAllocated(image) ==> form.Readable())
    ensures r.Ok? ==>
      && meta.state == Ready && |env.metadataJson(meta)| <= MAX_METADATA && |image.bytes| <= MAX_ROOT_DISK
      && r.value.bytes == BundleBytes(env, misc, meta, image.bytes, form)
      && r.value.size == |r.value.bytes| && r.value.digest == env.sha(r.value.bytes)
    ensures meta.state != Ready ==> r == Err(NotReady)
    ensures meta.state == Ready && |env.metadataJson(meta)| > MAX_METADATA ==> r == Err(MetadataTooLarge)
    ensures meta.state == Ready && |env.metadataJson(meta)| <= MAX_METADATA && |image.bytes| > MAX_ROOT_DISK ==>
      r == Err(DiskTooLarge)
    ensures Exportable(env, meta, image.bytes) ==> r.Ok?
  {
    form := Plain;
    if meta.state != Ready {
      return Err(NotReady), form;
    }
    var metadataBytes := env.metadataJson(meta);
    if |metadataBytes| > MAX_METADATA {
      return Err(MetadataTooLarge), form;
    }
    if |image.bytes| > MAX_ROOT_DISK {
      return Err(DiskTooLarge), form;
    }
    r, form := WriteBundle(env, misc, meta, image, supported);
  }

  method WriteBundle(env: Env, misc: Misc, meta: Metadata, image: Image, supported: bool)
      returns (r: Result<Exported, BundleError>, ghost form: DiskForm)
    requires misc.Valid() && image.Valid() && |image.bytes| <= U64_MAX
    ensures form.Fits(image.bytes) && (BlockAllocated(image) ==> form.Readable())
    ensures r.Ok? ==>
      && r.value.bytes == BundleBytes(env, misc, meta, image.bytes, form)
      && r.value.size == |r.value.bytes| && r.value.digest == env.sha(r.value.bytes)
    ensures Exportable(env, meta, image.bytes) ==> r.Ok?
  {
    var manifest, metadata := env.manifestJson(ManifestOf(env, meta, image.bytes)), env.metadataJson(meta);
    var output := new File();
    var writer := new SparseArchiveWriter(output);
    var written;
    written, form := WriteEntries(writer, misc, manifest, metadata, image, supported);
    if written.Err? {
      return Err(written.error), form;
    }
    BundleParts(EncodeRegular(misc, MANIFEST_PATH, manifest), EncodeRegular(misc, METADATA_PATH, metadata),
                DiskEntry(misc, image.bytes, form), Zeros(2 * BLOCK));
    var size, digest := writer.Finish(env.sha);
    r := Ok(Exported(output.bytes, size, digest));
  }

  /** The two texts an archive begins with. */
  function Texts(misc: Misc, manifest: seq<byte>, metadata: seq<byte>): (b: seq<byte>)
    requires misc.Valid()
    ensures |b| <= |manifest| + |metadata| + 4 * BLOCK
  {
    EncodeRegular(misc, MANIFEST_PATH, manifest) + EncodeRegular(misc, METADATA_PATH, metadata)
  }

  /** The two texts, the disk and the end of the archive, in order. */
  method WriteEntries(writer: SparseArchiveWriter, misc: Misc, manifest: seq<byte>, metadata: seq<byte>,
                      image: Image, supported: bool)
      returns (r: Result<(), BundleError>, ghost form: DiskForm)
    requires writer.Valid() && writer.hashed == [] && misc.Valid() && image.Valid() && |image.bytes| <= U64_MAX
    modifies writer, writer.output
    ensures writer.Valid() && form.Fits(image.bytes) && (BlockAllocated(image) ==> form.Readable())
    ensures r.Ok? ==>
      writer.hashed == Texts(misc, manifest, metadata) + DiskEntry(misc, image.bytes, form) + Zeros(2 * BLOCK)
    ensures |manifest| <= MAX_MANIFEST && |metadata| <= MAX_METADATA && |image.bytes| <= MAX_ROOT_DISK ==> r.Ok?
  {
    form := Plain;
    var ok := WriteTexts(writer, misc, manifest, metadata);
    if !ok {
      return Err(WriteFailed), form;
    }
    r, form := AppendDisk(writer, misc, image, supported);
    if r.Ok? {
      ok := writer.Write(Zeros(2 * BLOCK));
      r := if ok then r else Err(WriteFailed);
    }
  }

  lemma NothingBefore(a: seq<byte>, b: seq<byte>)
    ensures [] + a + b == a + b
  {
  }

  method WriteTexts(writer: SparseArchiveWriter, misc: Misc, manifest: seq<byte>, metadata: seq<byte>)
      returns (ok: bool)
    requires writer.Valid() && writer.hashed == [] && misc.Valid()
    modifies writer, writer.output
    ensures writer.Valid()
    ensures ok ==> writer.hashed == Texts(misc, manifest, metadata)
    ensures |manifest| + |metadata| + 4 * BLOCK <= U64_MAX ==> ok
  {
    ok := AppendRegular(writer, misc, MANIFEST_PATH, manifest);
    if ok {
      RegularBound(misc, MANIFEST_PATH, manifest);
      ok := AppendRegular(writer, misc, METADATA_PATH, metadata);
      NothingBefore(EncodeRegular(misc, MANIFEST_PATH, manifest), EncodeRegular(misc, METADATA_PATH, metadata));
    }
  }

  lemma RegularBound(misc: Misc, path: Path, content: seq<byte>)
    requires misc.Valid() && ValidPath(path)
    ensures |EncodeRegular(misc, path, content)| <= |content| + 2 * BLOCK
  {
  }

  /** A new Box: its metadata, and the bytes of its disk. */
  datatype Imported = Imported(meta: Metadata, disk: seq<byte>)

  predicate ValidManifest(m: Manifest) {
    && m.schema == BUNDLE_SCHEMA && m.metadataPath == METADATA_PATH && m.diskPath == DISK_PATH
    && 0 < m.metadataSize <= MAX_METADATA && 0 < m.diskSize <= MAX_ROOT_DISK
    && ValidDigest(m.metadataSha) && ValidDigest(m.diskSha)
  }

  predicate ImportableMetadata(m: Metadata) {
    Supported(m) && m.state == Ready && ValidFields(m) && m.virtualSize <= MAX_ROOT_DISK
  }

  /** `next_entry`: the next item of the archive, if it is the expected one. */
  function Expect(b: seq<byte>, path: Path, allowSparse: bool): Result<(seq<byte>, seq<byte>), BundleError> {
    match NextItem(b)
    case End => Err(Missing)
    case Broken => Err(WrongEntry)
    case Found(item, rest) =>
      if item.path != path || (item.sparse && !allowSparse) then Err(WrongEntry) else Ok((item.content, rest))
  }

  /** Reads the three entries of a bundle; `names` are the names of the readable Boxes. */
  function Import(env: Env, b: seq<byte>, names: seq<Option<string>>): Result<Imported, BundleError> {
    match Expect(b, MANIFEST_PATH, false)
    case Err(e) => Err(e)
    case Ok((text, rest)) =>
      if |text| > MAX_MANIFEST then Err(BadManifest) else
        match env.parseManifest(text)
        case None => Err(BadManifest)
        case Some(manifest) =>
          if !ValidManifest(manifest) then Err(BadManifest) else ImportBody(env, rest, manifest, names)
  }

  function ImportBody(env: Env, b: seq<byte>, manifest: Manifest, names: seq<Option<string>>)
    : Result<Imported, BundleError>
  {
    match Expect(b, METADATA_PATH, false)
    case Err(e) => Err(e)
    case Ok((text, rest)) =>
      if |text| != manifest.metadataSize || |text| > MAX_METADATA then Err(SizeDiffers)
      else if env.sha(text) != manifest.metadataSha then Err(DigestDiffers)
      else
        match env.parseMetadata(text)
        case None => Err(BadMetadata)
        case Some(meta) =>
          if !ImportableMetadata(meta) || meta.virtualSize != manifest.diskSize then Err(BadMetadata)
          else ImportDisk(env, rest, manifest, meta, names)
  }

  function ImportDisk(env: Env, b: seq<byte>, manifest: Manifest, meta: Metadata, names: seq<Option<string>>)
    : Result<Imported, BundleError>
  {
    match Expect(b, DISK_PATH, true)
    case Err(e) => Err(e)
    case Ok((disk, rest)) =>
      if |disk| != manifest.diskSize then Err(SizeDiffers)
      else if env.sha(disk) != manifest.diskSha then Err(DigestDiffers)
      else if NextItem(rest) != End then Err(ExtraEntries)
      else if exists i :: 0 <= i < |names| && SameName(names[i], meta.name) then Err(NameConflict)
      else
        var state := if meta.schema < SCHEMA_VERSION then Dirty else Ready;
        Ok(Imported(meta.(schema := SCHEMA_VERSION, state := state), disk))
  }

  lemma DiskEntryRead(misc: Misc, disk: seq<byte>, form: DiskForm, rest: seq<byte>)
    requires misc.Valid() && |disk| <= U64_MAX && form.Fits(disk)
    ensures Expect(DiskEntry(misc, disk, form) + rest, DISK_PATH, true)
         == if form.Readable() then Ok((disk, rest)) else Err(WrongEntry)
  {
    match form
    case Plain => RegularRead(misc, DISK_PATH, disk, rest);
    case Sparse(m) => SparseRead(misc, DISK_PATH, m, disk, rest);
  }

  lemma EndRead()
    ensures NextItem(Zeros(2 * BLOCK)) == End
  {
  }

  /** What importing an exported Box gives: a refusal of its disk entry or of its name, or the Box. */
  function Restored(meta: Metadata, disk: seq<byte>, form: DiskForm, names: seq<Option<string>>)
    : Result<Imported, BundleError>
  {
    if !form.Readable() then Err(WrongEntry)
    else if exists i :: 0 <= i < |names| && SameName(names[i], meta.name) then Err(NameConflict)
    else if meta.schema == SCHEMA_VERSION then Ok(Imported(meta, disk))
    else Ok(Imported(meta.(schema := SCHEMA_VERSION, state := Dirty), disk))
  }

  /**
   Importing an exported Ready Box restores it exactly if its disk entry can be read and its name is free:
   the same disk, and the same metadata, name, labels, tags and generation included. A bundle of an older
   schema gives a current Box that is Dirty.
   */
  lemma BundleRoundTrip(env: Env, misc: Misc, meta: Metadata, disk: seq<byte>, form: DiskForm,
                        names: seq<Option<string>>)
    requires Encodes(env, meta, disk) && misc.Valid() && form.Fits(disk)
    requires Supported(meta) && meta.state == Ready && ValidFields(meta)
    requires meta.virtualSize == |disk| <= MAX_ROOT_DISK && |env.metadataJson(meta)| <= MAX_METADATA
    ensures Import(env, BundleBytes(env, misc, meta, disk, form), names) == Restored(meta, disk, form, names)
  {
    var manifest := ManifestOf(env, meta, disk);
    ManifestIsValid(env, meta, disk);
    HeadRoundTrip(env, misc, manifest, names, BundleTail(env, misc, meta, DiskEntry(misc, disk, form)));
    BodyRoundTrip(env, misc, meta, disk, form, names, manifest);
  }

  /** The part of the round trip up to the manifest. */
  lemma HeadRoundTrip(env: Env, misc: Misc, manifest: Manifest, names: seq<Option<string>>, tail: seq<byte>)
    requires misc.Valid() && |env.manifestJson(manifest)| <= MAX_MANIFEST && ValidManifest(manifest)
    requires env.parseManifest(env.manifestJson(manifest)) == Some(manifest)
    ensures Import(env, EncodeRegular(misc, MANIFEST_PATH, env.manifestJson(manifest)) + tail, names)
         == ImportBody(env, tail, manifest, names)
  {
    var text := env.manifestJson(manifest);
    ExpectRegular(misc, MANIFEST_PATH, text, tail);
    ImportStart(env, EncodeRegular(misc, MANIFEST_PATH, text) + tail, text, tail, manifest, names);
  }

  /** The part of the round trip after the manifest. */
  lemma BodyRoundTrip(env: Env, misc: Misc, meta: Metadata, disk: seq<byte>, form: DiskForm,
                      names: seq<Option<string>>, manifest: Manifest)
    requires Encodes(env, meta, disk) && misc.Valid() && form.Fits(disk)
    requires Supported(meta) && meta.state == Ready && ValidFields(meta)
    requires meta.virtualSize == |disk| <= MAX_ROOT_DISK && |env.metadataJson(meta)| <= MAX_METADATA
    requires manifest == ManifestOf(env, meta, disk)
    ensures ImportBody(env, BundleTail(env, misc, meta, DiskEntry(misc, disk, form)), manifest, names)
         == Restored(meta, disk, form, names)
  {
    var text, entry := env.metadataJson(meta), DiskEntry(misc, disk, form);
    var tail := entry + Zeros(2 * BLOCK);
    ExpectRegular(misc, METADATA_PATH, text, tail);
    DiskEntryRead(misc, disk, form, Zeros(2 * BLOCK));
    EndRead();
    ImportSteps(env, BundleTail(env, misc, meta, entry), tail, manifest, meta, disk, form, names, text);
  }

  lemma ManifestIsValid(env: Env, meta: Metadata, disk: seq<byte>)
    requires Encodes(env, meta, disk) && 0 < |disk| <= MAX_ROOT_DISK && |env.metadataJson(meta)| <= MAX_METADATA
    ensures ValidManifest(ManifestOf(env, meta, disk))
  {
  }

  lemma ExpectRegular(misc: Misc, path: Path, content: seq<byte>, rest: seq<byte>)
    requires misc.Valid() && ValidPath(path) && |content| <= U64_MAX
    ensures Expect(EncodeRegular(misc, path, content) + rest, path, false) == Ok((content, rest))
  {
    RegularRead(misc, path, content, rest);
  }

  lemma ImportStart(env: Env, b: seq<byte>, text: seq<byte>, rest: seq<byte>, manifest: Manifest,
                    names: seq<Option<string>>)
    requires Expect(b, MANIFEST_PATH, false) == Ok((text, rest)) && |text| <= MAX_MANIFEST
    requires env.parseManifest(text) == Some(manifest) && ValidManifest(manifest)
    ensures Import(env, b, names) == ImportBody(env, rest, manifest, names)
  {
  }

  lemma BundleParts(a: seq<byte>, b: seq<byte>, c: seq<byte>, d: seq<byte>)
    ensures a + b + c + d == a + (b + (c + d))
  {
  }

  lemma ImportSteps(env: Env, tail1: seq<byte>, tail2: seq<byte>, manifest: Manifest, meta: Metadata,
                    disk: seq<byte>, form: DiskForm, names: seq<Option<string>>, text: seq<byte>)
    requires Expect(tail1, METADATA_PATH, false) == Ok((text, tail2))
    requires |text| == manifest.metadataSize <= MAX_METADATA && env.sha(text) == manifest.metadataSha
    requires env.parseMetadata(text) == Some(meta) && ImportableMetadata(meta)
    requires meta.virtualSize == manifest.diskSize == |disk| && env.sha(disk) == manifest.diskSha
    requires Expect(tail2, DISK_PATH, true)
          == if form.Readable() then Ok((disk, Zeros(2 * BLOCK))) else Err(WrongEntry)
    requires NextItem(Zeros(2 * BLOCK)) == End
    ensures ImportBody(env, tail1, manifest, names) == Restored(meta, disk, form, names)
  {
  }

  /** The manifest an archive begins with. */
  function LeadingManifest(env: Env, b: seq<byte>): Option<Manifest> {
    match Expect(b, MANIFEST_PATH, false)
    case Err(_) => None
    case Ok((text, _)) => env.parseManifest(text)
  }

  /** The text of the metadata entry, which follows the manifest. */
  function MetadataText(b: seq<byte>): Option<seq<byte>> {
    match Expect(b, MANIFEST_PATH, false)
    case Err(_) => None
    case Ok((_, rest)) =>
      match Expect(rest, METADATA_PATH, false)
      case Err(_) => None
      case Ok((text, _)) => Some(text)
  }

  /** The algorithm and 64 hexadecimal digits. */
  predicate IsSha(s: string) {
    && |s| == 71 && s[..7] == "sha256:"
    && forall i :: 7 <= i < 71 ==> '0' <= s[i] <= '9' || 'a' <= s[i] <= 'f' || 'A' <= s[i] <= 'F'
  }

  /** The text is the one the manifest seals, and it stands for metadata that can be imported. */
  predicate Sealed(env: Env, manifest: Manifest, text: seq<byte>) {
    && |text| == manifest.metadataSize && env.sha(text) == manifest.metadataSha
    && env.parseMetadata(text).Some? && ImportableMetadata(env.parseMetadata(text).value)
  }

  /**
   What an import accepts is sealed by its manifest: the metadata is that of the second entry, migrated,
   the disk has the size and hash it states, and the name is free.
   */
  lemma ImportIsVerified(env: Env, b: seq<byte>, names: seq<Option<string>>)
    requires Import(env, b, names).Ok?
    ensures var x, manifest, text := Import(env, b, names).value, LeadingManifest(env, b), MetadataText(b);
            && manifest.Some? && ValidManifest(manifest.value)
            && IsSha(manifest.value.metadataSha) && IsSha(manifest.value.diskSha)
            && text.Some? && Sealed(env, manifest.value, text.value)
            && x.meta == Migrated(env.parseMetadata(text.value).value)
            && env.sha(x.disk) == manifest.value.diskSha
            && |x.disk| == x.meta.virtualSize == manifest.value.diskSize
            && x.meta.schema == SCHEMA_VERSION && x.meta.state != NeedsRepair && ValidFields(x.meta)
            && forall i :: 0 <= i < |names| ==> !SameName(names[i], x.meta.name)
  {
  }

  // A bundle that meets every assumption of the round trip.

  function SampleHash(b: seq<byte>): string { PREFIX + seq(64, i => '0') }

  const PREFIX := "sha256:"

  const SAMPLE := Metadata(SCHEMA_VERSION, Ready, "d", "p", 1, 0, None, map[], {})

  const SAMPLE_MANIFEST := Manifest(BUNDLE_SCHEMA, METADATA_PATH, 1, SampleHash([]), DISK_PATH, 1, SampleHash([]))

  function SampleEnv(): Env {
    Env((m: Manifest) => [1], (b: seq<byte>) => Some(SAMPLE_MANIFEST), (m: Metadata) => [1],
        (b: seq<byte>) => Some(SAMPLE), SampleHash)
  }

  lemma SampleIsValid()
    ensures ValidFields(SAMPLE) && Encodes(SampleEnv(), SAMPLE, [7])
  {
    TrimNone("d");
    TrimNone("p");
    assert ManifestOf(SampleEnv(), SAMPLE, [7]) == SAMPLE_MANIFEST;
    assert SampleHash([])[..7] == PREFIX;
  }

  /** The assumptions of the round trip are met: this Box is exported and imported. */
  lemma SampleRoundTrip(misc: Misc)
    requires misc.Valid()
    ensures Import(SampleEnv(), BundleBytes(SampleEnv(), misc, SAMPLE, [7], Plain), []) == Ok(Imported(SAMPLE, [7]))
  {
    SampleIsValid();
    BundleRoundTrip(SampleEnv(), misc, SAMPLE, [7], Plain, []);
  }
}
