/**
 The operations of the Box and checkpoint store on real disk objects.

 `Step` describes the store by values, as if every Box and checkpoint held its own bytes. The class
 keeps disks on the heap, copies them as the store does and lets a guest write to them in place; it
 is proved to refine `Step`, which is the statement that no two entries ever share a disk.
 */
module BoxStore {
  import opened Base
  import opened Boxes
  import opened DiskFile

  datatype CheckpointMeta = CheckpointMeta(
    sourceBox: BoxId,
    sourceGeneration: nat,
    manifestDigest: string,
    platform: string,
    virtualSize: nat,
    name: Option<string>,
    labels: map<string, string>,
    tags: set<string>)

  datatype Entry = Entry(meta: Metadata, bytes: seq<byte>)

  datatype Saved = Saved(meta: CheckpointMeta, bytes: seq<byte>)

  datatype View = View(boxes: map<BoxId, Entry>, checkpoints: map<CheckpointId, Saved>)

  datatype StoreError =
    | NotFound | Repair | Invalid | SizeDiffers | Conflict | WrongState | SourceNotReady | Exists

  datatype CreateRequest = CreateRequest(
    manifestDigest: string,
    platform: string,
    virtualSize: nat,
    name: Option<string>,
    labels: map<string, string>,
    tags: set<string>)

  datatype UpdateRequest = UpdateRequest(
    name: Option<string>,
    clearName: bool,
    setLabels: map<string, string>,
    removeLabels: set<string>,
    addTags: set<string>,
    removeTags: set<string>)

  datatype ForkRequest = ForkRequest(
    name: Option<string>,
    labels: Option<map<string, string>>,
    tags: Option<set<string>>)

  datatype SaveRequest = SaveRequest(name: Option<string>, labels: map<string, string>, tags: set<string>)

  datatype Op =
    | Create(id: BoxId, request: CreateRequest, source: seq<byte>)
    | Clone(id: BoxId, from: BoxId)
    | Reset(box: BoxId, source: seq<byte>)
    | Delete(box: BoxId)
    | UpdateBox(box: BoxId, update: UpdateRequest)
    | Transition(box: BoxId, expected: BoxState, next: BoxState)
    | GuestWrite(box: BoxId, at: nat, data: seq<byte>)
    | Checkpoint(checkpoint: CheckpointId, box: BoxId, save: SaveRequest)
    | Fork(id: BoxId, checkpoint: CheckpointId, fork: ForkRequest)
    | DeleteCheckpoint(checkpoint: CheckpointId)

  // What each operation checks and builds.

  /** `try_acquire`: the Box exists and does not need repair. */
  function Acquire(v: View, b: BoxId): Result<Entry, StoreError> {
    if b !in v.boxes then Err(NotFound)
    else if v.boxes[b].meta.state == NeedsRepair then Err(Repair)
    else Ok(v.boxes[b])
  }

  predicate NameTaken(v: View, name: Option<string>, except: Option<BoxId>) {
    exists b :: b in v.boxes && Some(b) != except && SameName(v.boxes[b].meta.name, name)
  }

  function NewMeta(r: CreateRequest): Metadata {
    Metadata(SCHEMA_VERSION, Ready, r.manifestDigest, r.platform, r.virtualSize, 0, r.name, r.labels, r.tags)
  }

  /** `create`, up to the copy of the disk. */
  function CreateChecks(v: View, id: BoxId, r: CreateRequest, size: nat): Result<Metadata, StoreError> {
    if !ValidFields(NewMeta(r)) then Err(Invalid)
    else if size != r.virtualSize then Err(SizeDiffers)
    else if NameTaken(v, r.name, None) then Err(Conflict)
    else if id in v.boxes then Err(Exists)
    else Ok(NewMeta(r))
  }

  function CloneRequest(m: Metadata): CreateRequest {
    CreateRequest(m.manifestDigest, m.platform, m.virtualSize, None, m.labels, m.tags)
  }

  function ForkedRequest(m: CheckpointMeta, f: ForkRequest): CreateRequest {
    CreateRequest(m.manifestDigest, m.platform, m.virtualSize, f.name,
                  if f.labels.Some? then f.labels.value else m.labels,
                  if f.tags.Some? then f.tags.value else m.tags)
  }

  predicate ValidFork(f: ForkRequest) {
    && ValidName(f.name)
    && (f.labels.Some? ==> ValidLabels(f.labels.value)) && (f.tags.Some? ==> ValidTags(f.tags.value))
  }

  predicate ValidUpdate(u: UpdateRequest) {
    && !(u.name.Some? && u.clearName)
    && ValidName(u.name) && ValidLabels(u.setLabels)
    && (forall k :: k in u.removeLabels ==> ValidIdentifier(k, MAX_LABEL_KEY, true) && k !in u.setLabels)
    && ValidTags(u.addTags) && ValidTags(u.removeTags) && u.addTags !! u.removeTags
  }

  function Updated(m: Metadata, u: UpdateRequest): Metadata {
    m.(name := if u.clearName then None else if u.name.Some? then u.name else m.name,
       labels := (m.labels - u.removeLabels) + u.setLabels,
       tags := (m.tags - u.removeTags) + u.addTags)
  }

  function ResetMeta(m: Metadata): Metadata {
    m.(generation := SatAdd(m.generation, 1), state := Ready)
  }

  function SavedMeta(b: BoxId, m: Metadata, s: SaveRequest): CheckpointMeta {
    CheckpointMeta(b, m.generation, m.manifestDigest, m.platform, m.virtualSize, s.name, s.labels, s.tags)
  }

  predicate ValidSave(s: SaveRequest) { ValidName(s.name) && ValidLabels(s.labels) && ValidTags(s.tags) }

  /** The transitions the store offers. */
  predicate Offered(expected: BoxState, next: BoxState) {
    (expected == Ready && next == Dirty) || (expected == Dirty && next != Dirty)
  }

  // The store by values.

  function PutBox(v: View, b: BoxId, e: Entry): View { v.(boxes := v.boxes[b := e]) }

  function CreateFrom(v: View, id: BoxId, r: CreateRequest, bytes: seq<byte>): Result<View, StoreError> {
    match CreateChecks(v, id, r, |bytes|)
    case Err(e) => Err(e)
    case Ok(meta) => Ok(PutBox(v, id, Entry(meta, bytes)))
  }

  function CloneStep(v: View, id: BoxId, from: BoxId): Result<View, StoreError> {
    match Acquire(v, from)
    case Err(e) => Err(e)
    case Ok(source) => CreateFrom(v, id, CloneRequest(source.meta), source.bytes)
  }

  function ResetStep(v: View, b: BoxId, source: seq<byte>): Result<View, StoreError> {
    match Acquire(v, b)
    case Err(e) => Err(e)
    case Ok(box) =>
      if |source| != box.meta.virtualSize then Err(SizeDiffers)
      else Ok(PutBox(v, b, Entry(ResetMeta(box.meta), source)))
  }

  function DeleteStep(v: View, b: BoxId): Result<View, StoreError> {
    match Acquire(v, b)
    case Err(e) => Err(e)
    case Ok(_) => Ok(v.(boxes := v.boxes - {b}))
  }

  function UpdateStep(v: View, b: BoxId, u: UpdateRequest): Result<View, StoreError> {
    if !ValidUpdate(u) then Err(Invalid)
    else if NameTaken(v, u.name, Some(b)) then Err(Conflict)
    else
      match Acquire(v, b)
      case Err(e) => Err(e)
      case Ok(box) => Ok(PutBox(v, b, Entry(Updated(box.meta, u), box.bytes)))
  }

  function TransitionStep(v: View, b: BoxId, expected: BoxState, next: BoxState): Result<View, StoreError> {
    if b !in v.boxes then Err(NotFound)
    else
      var box := v.boxes[b];
      if box.meta.state != expected || !Offered(expected, next) then Err(WrongState)
      else Ok(PutBox(v, b, Entry(box.meta.(state := next), box.bytes)))
  }

  function WriteStep(v: View, b: BoxId, at: nat, data: seq<byte>): Result<View, StoreError> {
    if b !in v.boxes then Err(NotFound)
    else
      var box := v.boxes[b];
      if box.meta.state != Dirty then Err(WrongState)
      else if at + |data| > |box.bytes| then Err(SizeDiffers)
      else Ok(PutBox(v, b, Entry(box.meta, Written(box.bytes, at, data))))
  }

  function SaveBox(v: View, c: CheckpointId, s: Saved): View { v.(checkpoints := v.checkpoints[c := s]) }

  function CheckpointStep(v: View, c: CheckpointId, b: BoxId, save: SaveRequest): Result<View, StoreError> {
    if !ValidSave(save) then Err(Invalid)
    else
      match Acquire(v, b)
      case Err(e) => Err(e)
      case Ok(box) =>
        if box.meta.state != Ready then Err(SourceNotReady)
        else if c in v.checkpoints then Err(Exists)
        else Ok(SaveBox(v, c, Saved(SavedMeta(b, box.meta, save), box.bytes)))
  }

  function ForkStep(v: View, id: BoxId, c: CheckpointId, fork: ForkRequest): Result<View, StoreError> {
    if !ValidFork(fork) then Err(Invalid)
    else if c !in v.checkpoints then Err(NotFound)
    else CreateFrom(v, id, ForkedRequest(v.checkpoints[c].meta, fork), v.checkpoints[c].bytes)
  }

  function DropStep(v: View, c: CheckpointId): Result<View, StoreError> {
    if c !in v.checkpoints then Err(NotFound) else Ok(v.(checkpoints := v.checkpoints - {c}))
  }

  function Step(v: View, op: Op): Result<View, StoreError> {
    match op
    case Create(id, request, source) => CreateFrom(v, id, request, source)
    case Clone(id, from) => CloneStep(v, id, from)
    case Reset(b, source) => ResetStep(v, b, source)
    case Delete(b) => DeleteStep(v, b)
    case UpdateBox(b, u) => UpdateStep(v, b, u)
    case Transition(b, expected, next) => TransitionStep(v, b, expected, next)
    case GuestWrite(b, at, data) => WriteStep(v, b, at, data)
    case Checkpoint(c, b, save) => CheckpointStep(v, c, b, save)
    case Fork(id, c, fork) => ForkStep(v, id, c, fork)
    case DeleteCheckpoint(c) => DropStep(v, c)
  }

  /** A failed operation changes nothing. */
  function Outcome(v: View, r: Result<View, StoreError>): View { if r.Ok? then r.value else v }

  function After(v: View, op: Op): View { Outcome(v, Step(v, op)) }

  // What follows for whole runs.

  function Run(v: View, ops: seq<Op>): View
    decreases |ops|
  {
    if ops == [] then v else Run(After(v, ops[0]), ops[1..])
  }

  /** Nothing but its deletion touches a checkpoint. */
  lemma {:induction false} CheckpointsAreImmutable(v: View, ops: seq<Op>, c: CheckpointId)
    requires c in v.checkpoints && forall i :: 0 <= i < |ops| ==> ops[i] != DeleteCheckpoint(c)
    ensures c in Run(v, ops).checkpoints && Run(v, ops).checkpoints[c] == v.checkpoints[c]
    decreases |ops|
  {
    if ops != [] {
      assert ops[0] != DeleteCheckpoint(c);
      CheckpointsAreImmutable(After(v, ops[0]), ops[1..], c);
    }
  }

  /** The operations that are about an existing Box. */
  predicate About(op: Op, b: BoxId) {
    match op
    case Reset(x, _) => x == b
    case Delete(x) => x == b
    case UpdateBox(x, _) => x == b
    case Transition(x, _, _) => x == b
    case GuestWrite(x, _, _) => x == b
    case _ => false
  }

  /** A Box changes only through operations on that Box; its clones and forks do not reach it. */
  lemma {:induction false} BoxesAreIndependent(v: View, ops: seq<Op>, b: BoxId)
    requires b in v.boxes && forall i :: 0 <= i < |ops| ==> !About(ops[i], b)
    ensures b in Run(v, ops).boxes && Run(v, ops).boxes[b] == v.boxes[b]
    decreases |ops|
  {
    if ops != [] {
      assert !About(ops[0], b);
      BoxesAreIndependent(After(v, ops[0]), ops[1..], b);
    }
  }

  /** A guest write changes the bytes of its Box inside the written range, and nothing else. */
  lemma GuestWriteChangesOneDisk(v: View, b: BoxId, at: nat, data: seq<byte>)
    requires Step(v, GuestWrite(b, at, data)).Ok?
    ensures var w := After(v, GuestWrite(b, at, data));
            && w.checkpoints == v.checkpoints && w.boxes.Keys == v.boxes.Keys
            && (forall x :: x in v.boxes && x != b ==> w.boxes[x] == v.boxes[x])
            && w.boxes[b].meta == v.boxes[b].meta && |w.boxes[b].bytes| == |v.boxes[b].bytes|
            && w.boxes[b].bytes[at..at + |data|] == data
            && w.boxes[b].bytes[..at] == v.boxes[b].bytes[..at]
            && w.boxes[b].bytes[at + |data|..] == v.boxes[b].bytes[at + |data|..]
  {
  }

  /**
   A fork made at any later time starts with the bytes its checkpoint captured, whatever happened to
   the source Box in between.
   */
  lemma ForkRestoresCheckpoint(v: View, c: CheckpointId, b: BoxId, save: SaveRequest, saved: View,
                               ops: seq<Op>, id: BoxId, fork: ForkRequest, forked: View)
    requires Step(v, Checkpoint(c, b, save)) == Ok(saved)
    requires forall i :: 0 <= i < |ops| ==> ops[i] != DeleteCheckpoint(c)
    requires Step(Run(saved, ops), Fork(id, c, fork)) == Ok(forked)
    ensures b in v.boxes && id in forked.boxes && forked.boxes[id].bytes == v.boxes[b].bytes
    ensures forked.boxes[id].meta.state == Ready && forked.boxes[id].meta.generation == 0
    ensures forked.boxes[id].meta.virtualSize == v.boxes[b].meta.virtualSize
    ensures forked.boxes[id].meta.name == fork.name
  {
    CheckpointEffect(v, c, b, save, saved);
    CheckpointsAreImmutable(saved, ops, c);
    ForkEffect(Run(saved, ops), id, c, fork, forked);
  }

  lemma CheckpointEffect(v: View, c: CheckpointId, b: BoxId, save: SaveRequest, w: View)
    requires Step(v, Checkpoint(c, b, save)) == Ok(w)
    ensures b in v.boxes && c in w.checkpoints && w.checkpoints[c].bytes == v.boxes[b].bytes
    ensures w.checkpoints[c].meta.virtualSize == v.boxes[b].meta.virtualSize
  {
  }

  lemma ForkEffect(v: View, id: BoxId, c: CheckpointId, fork: ForkRequest, w: View)
    requires Step(v, Fork(id, c, fork)) == Ok(w)
    ensures c in v.checkpoints && id in w.boxes && w.boxes[id].bytes == v.checkpoints[c].bytes
    ensures w.boxes[id].meta.state == Ready && w.boxes[id].meta.generation == 0
    ensures w.boxes[id].meta.virtualSize == v.checkpoints[c].meta.virtualSize && w.boxes[id].meta.name == fork.name
  {
  }

  /** The disk of every Box and checkpoint keeps the size its metadata states. */
  predicate Sized(v: View) {
    && (forall b :: b in v.boxes ==> |v.boxes[b].bytes| == v.boxes[b].meta.virtualSize)
    && (forall c :: c in v.checkpoints ==> |v.checkpoints[c].bytes| == v.checkpoints[c].meta.virtualSize)
  }

  predicate UniqueNames(v: View) {
    forall b, b' :: b in v.boxes && b' in v.boxes && b != b' ==>
      !SameName(v.boxes[b].meta.name, v.boxes[b'].meta.name)
  }

  lemma {:induction false} RunKeepsOrder(v: View, ops: seq<Op>)
    requires Sized(v) && UniqueNames(v)
    ensures Sized(Run(v, ops)) && UniqueNames(Run(v, ops))
    decreases |ops|
  {
    if ops != [] {
      StepKeepsSizes(v, ops[0]);
      StepKeepsNames(v, ops[0]);
      RunKeepsOrder(After(v, ops[0]), ops[1..]);
    }
  }

  lemma StepKeepsSizes(v: View, op: Op)
    requires Sized(v)
    ensures Sized(After(v, op))
  {
  }

  lemma StepKeepsNames(v: View, op: Op)
    requires UniqueNames(v)
    ensures UniqueNames(After(v, op))
  {
    match op
    case Create(id, request, source) => CreateKeepsNames(v, id, request, source);
    case Clone(id, from) =>
      if from in v.boxes {
        CreateKeepsNames(v, id, CloneRequest(v.boxes[from].meta), v.boxes[from].bytes);
      }
    case Fork(id, c, fork) =>
      if c in v.checkpoints {
        CreateKeepsNames(v, id, ForkedRequest(v.checkpoints[c].meta, fork), v.checkpoints[c].bytes);
      }
    case UpdateBox(b, u) => UpdateKeepsNames(v, b, u);
    case _ =>
  }

  lemma CreateKeepsNames(v: View, id: BoxId, r: CreateRequest, bytes: seq<byte>)
    requires UniqueNames(v)
    ensures UniqueNames(Outcome(v, CreateFrom(v, id, r, bytes)))
  {
  }

  lemma UpdateKeepsNames(v: View, b: BoxId, u: UpdateRequest)
    requires UniqueNames(v)
    ensures UniqueNames(Outcome(v, UpdateStep(v, b, u)))
  {
  }

  // The store on the heap.

  class Disk {
    var image: Image

    constructor (image: Image)
      ensures this.image == image
    {
      this.image := image;
    }
  }

  /** `copy_disk`: a native clone where the filesystem has one, a sparse copy otherwise. */
  method CopyDisk(source: Disk, cow: bool, seeks: bool) returns (copy: Disk)
    requires source.image.Valid()
    ensures fresh(copy) && copy.image.Valid() && copy.image.bytes == source.image.bytes
  {
    if cow {
      copy := new Disk(source.image);
    } else {
      var file := SparseCopy(source.image, seeks);
      copy := new Disk(Image(file.bytes, seq(|file.bytes|, i => true)));
    }
  }

  /** A disk image from outside the store. */
  method NewDisk(bytes: seq<byte>) returns (disk: Disk)
    ensures fresh(disk) && disk.image.Valid() && disk.image.bytes == bytes
  {
    disk := new Disk(Image(bytes, seq(|bytes|, i => true)));
  }

  datatype Slot = Slot(meta: Metadata, disk: Disk)

  datatype SavedSlot = SavedSlot(meta: CheckpointMeta, disk: Disk)

  class Store {
    var boxes: map<BoxId, Slot>
    var checkpoints: map<CheckpointId, SavedSlot>

    ghost function BoxDisks(): set<Disk>
      reads `boxes
    {
      set b | b in boxes :: boxes[b].disk
    }

    ghost function SavedDisks(): set<Disk>
      reads `checkpoints
    {
      set c | c in checkpoints :: checkpoints[c].disk
    }

    ghost function Disks(): set<Disk>
      reads this
    {
      BoxDisks() + SavedDisks()
    }

    ghost predicate OwnBoxDisks()
      reads `boxes, BoxDisks()
    {
      && (forall b :: b in boxes ==> boxes[b].disk.image.Valid())
      && (forall b, b' :: b in boxes && b' in boxes && b != b' ==> boxes[b].disk != boxes[b'].disk)
    }

    ghost predicate OwnSavedDisks()
      reads `checkpoints, SavedDisks()
    {
      && (forall c :: c in checkpoints ==> checkpoints[c].disk.image.Valid())
      && (forall c, c' :: c in checkpoints && c' in checkpoints && c != c' ==>
            checkpoints[c].disk != checkpoints[c'].disk)
    }

    /** Every entry has a disk of its own. */
    ghost predicate Valid()
      reads this, Disks()
    {
      OwnBoxDisks() && OwnSavedDisks() && BoxDisks() !! SavedDisks()
    }

    function BoxEntries(): map<BoxId, Entry>
      reads `boxes, BoxDisks()
    {
      map b | b in boxes :: Entry(boxes[b].meta, boxes[b].disk.image.bytes)
    }

    function SavedEntries(): map<CheckpointId, Saved>
      reads `checkpoints, SavedDisks()
    {
      map c | c in checkpoints :: Saved(checkpoints[c].meta, checkpoints[c].disk.image.bytes)
    }

    function Contents(): View
      reads this, Disks()
    {
      View(BoxEntries(), SavedEntries())
    }

    constructor ()
      ensures Valid() && Contents() == View(map[], map[])
    {
      boxes, checkpoints := map[], map[];
    }

    /** Sets what a Box is, on its own disk or on a disk nothing uses. */
    method Put(id: BoxId, meta: Metadata, disk: Disk)
      requires Valid() && disk.image.Valid()
      requires disk !in Disks() || (id in boxes && boxes[id].disk == disk)
      modifies `boxes
      ensures Valid() && Contents() == PutBox(old(Contents()), id, Entry(meta, disk.image.bytes))
      ensures boxes == old(boxes)[id := Slot(meta, disk)] && Disks() <= old(Disks()) + {disk}
    {
      boxes := boxes[id := Slot(meta, disk)];
      assert BoxDisks() <= old(BoxDisks()) + {disk};
      assert BoxEntries() == old(BoxEntries())[id := Entry(meta, disk.image.bytes)];
    }

    /** `create`: all checks come before the copy. */
    method Create(id: BoxId, request: CreateRequest, source: Disk, cow: bool, seeks: bool)
        returns (r: Result<Metadata, StoreError>)
      requires Valid() && source.image.Valid()
      modifies `boxes
      ensures Valid() && fresh(Disks() - old(Disks()))
      ensures Contents() == Outcome(old(Contents()), CreateFrom(old(Contents()), id, request, source.image.bytes))
      ensures r.Ok? == CreateFrom(old(Contents()), id, request, source.image.bytes).Ok?
      ensures r.Err? ==> CreateFrom(old(Contents()), id, request, source.image.bytes) == Err(r.error)
      ensures r.Ok? ==> id in boxes && r.value == boxes[id].meta
    {
      var meta := CreateChecks(Contents(), id, request, |source.image.bytes|);
      if meta.Err? {
        return meta;
      }
      var disk := CopyDisk(source, cow, seeks);
      assert Valid() && disk !in Disks();
      Put(id, meta.value, disk);
      r := meta;
    }

    /** `try_acquire`, as far as one process can see. */
    function Lease(b: BoxId): (r: Result<Slot, StoreError>)
      reads this
      ensures r.Ok? ==> b in boxes && r.value == boxes[b]
    {
      if b !in boxes then Err(NotFound)
      else if boxes[b].meta.state == NeedsRepair then Err(Repair)
      else Ok(boxes[b])
    }

    method CloneBox(id: BoxId, from: BoxId, cow: bool, seeks: bool) returns (r: Result<Metadata, StoreError>)
      requires Valid()
      modifies `boxes
      ensures Valid() && fresh(Disks() - old(Disks()))
      ensures Contents() == Outcome(old(Contents()), CloneStep(old(Contents()), id, from))
      ensures r.Ok? == CloneStep(old(Contents()), id, from).Ok?
      ensures r.Err? ==> CloneStep(old(Contents()), id, from) == Err(r.error)
      ensures r.Ok? ==> id in boxes && r.value == boxes[id].meta
    {
      var lease := Lease(from);
      if lease.Err? {
        return Err(lease.error);
      }
      r := Create(id, CloneRequest(lease.value.meta), lease.value.disk, cow, seeks);
    }

    /** `reset`: the replacement is copied first and then takes the place of the disk. */
    method ResetBox(b: BoxId, source: Disk, cow: bool, seeks: bool) returns (r: Result<Metadata, StoreError>)
      requires Valid() && source.image.Valid()
      modifies `boxes
      ensures Valid() && fresh(Disks() - old(Disks()))
      ensures Contents() == Outcome(old(Contents()), ResetStep(old(Contents()), b, source.image.bytes))
      ensures r.Ok? == ResetStep(old(Contents()), b, source.image.bytes).Ok?
      ensures r.Err? ==> ResetStep(old(Contents()), b, source.image.bytes) == Err(r.error)
      ensures r.Ok? ==> b in boxes && r.value == boxes[b].meta
    {
      var lease := Lease(b);
      if lease.Err? {
        return Err(lease.error);
      }
      if |source.image.bytes| != lease.value.meta.virtualSize {
        return Err(SizeDiffers);
      }
      var replacement := CopyDisk(source, cow, seeks);
      var meta := ResetMeta(lease.value.meta);
      Put(b, meta, replacement);
      r := Ok(meta);
    }

    method DeleteBox(b: BoxId) returns (r: Result<Metadata, StoreError>)
      requires Valid()
      modifies `boxes
      ensures Valid() && fresh(Disks() - old(Disks()))
      ensures Contents() == Outcome(old(Contents()), DeleteStep(old(Contents()), b))
      ensures r.Ok? == DeleteStep(old(Contents()), b).Ok?
      ensures r.Err? ==> DeleteStep(old(Contents()), b) == Err(r.error)
      ensures r.Ok? ==> b in old(boxes) && r.value == old(boxes)[b].meta
    {
      var lease := Lease(b);
      if lease.Err? {
        return Err(lease.error);
      }
      boxes := boxes - {b};
      assert BoxDisks() <= old(BoxDisks());
      assert BoxEntries() == old(BoxEntries()) - {b};
      r := Ok(lease.value.meta);
    }

    method Update(b: BoxId, u: UpdateRequest) returns (r: Result<Metadata, StoreError>)
      requires Valid()
      modifies `boxes
      ensures Valid() && fresh(Disks() - old(Disks()))
      ensures Contents() == Outcome(old(Contents()), UpdateStep(old(Contents()), b, u))
      ensures r.Ok? == UpdateStep(old(Contents()), b, u).Ok?
      ensures r.Err? ==> UpdateStep(old(Contents()), b, u) == Err(r.error)
      ensures r.Ok? ==> b in boxes && r.value == boxes[b].meta
    {
      if !ValidUpdate(u) {
        return Err(Invalid);
      }
      if NameTaken(Contents(), u.name, Some(b)) {
        return Err(Conflict);
      }
      var lease := Lease(b);
      if lease.Err? {
        return Err(lease.error);
      }
      var meta := Updated(lease.value.meta, u);
      Put(b, meta, lease.value.disk);
      r := Ok(meta);
    }

    method SetState(b: BoxId, expected: BoxState, next: BoxState) returns (r: Result<Metadata, StoreError>)
      requires Valid()
      modifies `boxes
      ensures Valid() && fresh(Disks() - old(Disks()))
      ensures Contents() == Outcome(old(Contents()), TransitionStep(old(Contents()), b, expected, next))
      ensures r.Ok? == TransitionStep(old(Contents()), b, expected, next).Ok?
      ensures r.Err? ==> TransitionStep(old(Contents()), b, expected, next) == Err(r.error)
      ensures r.Ok? ==> b in boxes && r.value == boxes[b].meta
    {
      if b !in boxes {
        return Err(NotFound);
      }
      var slot := boxes[b];
      if slot.meta.state != expected || !Offered(expected, next) {
        return Err(WrongState);
      }
      var meta := slot.meta.(state := next);
      Put(b, meta, slot.disk);
      r := Ok(meta);
    }

    /** A guest writes in place; the frame of this method is the one disk. */
    method Write(b: BoxId, at: nat, data: seq<byte>) returns (r: Result<(), StoreError>)
      requires Valid()
      modifies if b in boxes then {boxes[b].disk} else {}
      ensures Valid()
      ensures Contents() == Outcome(old(Contents()), WriteStep(old(Contents()), b, at, data))
      ensures r.Ok? == WriteStep(old(Contents()), b, at, data).Ok?
      ensures r.Err? ==> WriteStep(old(Contents()), b, at, data) == Err(r.error)
    {
      if b !in boxes {
        return Err(NotFound);
      }
      var slot := boxes[b];
      if slot.meta.state != Dirty {
        return Err(WrongState);
      }
      var image := slot.disk.image;
      if at + |data| > |image.bytes| {
        return Err(SizeDiffers);
      }
      slot.disk.image := WrittenImage(image, at, data);
      assert SavedEntries() == old(SavedEntries());
      assert BoxEntries() == old(BoxEntries())[b := Entry(slot.meta, slot.disk.image.bytes)];
      r := Ok(());
    }

    method Save(c: CheckpointId, meta: CheckpointMeta, disk: Disk)
      requires Valid() && disk.image.Valid() && disk !in Disks() && c !in checkpoints
      modifies `checkpoints
      ensures Valid()
      ensures Contents() == SaveBox(old(Contents()), c, Saved(meta, disk.image.bytes))
      ensures checkpoints == old(checkpoints)[c := SavedSlot(meta, disk)] && Disks() <= old(Disks()) + {disk}
    {
      checkpoints := checkpoints[c := SavedSlot(meta, disk)];
      assert SavedDisks() <= old(SavedDisks()) + {disk};
      assert SavedEntries() == old(SavedEntries())[c := Saved(meta, disk.image.bytes)];
    }

    method CreateCheckpoint(c: CheckpointId, b: BoxId, save: SaveRequest, cow: bool, seeks: bool)
        returns (r: Result<CheckpointMeta, StoreError>)
      requires Valid()
      modifies `checkpoints
      ensures Valid() && fresh(Disks() - old(Disks()))
      ensures Contents() == Outcome(old(Contents()), CheckpointStep(old(Contents()), c, b, save))
      ensures r.Ok? == CheckpointStep(old(Contents()), c, b, save).Ok?
      ensures r.Err? ==> CheckpointStep(old(Contents()), c, b, save) == Err(r.error)
      ensures r.Ok? ==> c in checkpoints && r.value == checkpoints[c].meta
    {
      if !ValidSave(save) {
        return Err(Invalid);
      }
      var lease := Lease(b);
      if lease.Err? {
        return Err(lease.error);
      }
      if lease.value.meta.state != Ready {
        return Err(SourceNotReady);
      }
      if c in checkpoints {
        return Err(Exists);
      }
      var disk := CopyDisk(lease.value.disk, cow, seeks);
      var meta := SavedMeta(b, lease.value.meta, save);
      Save(c, meta, disk);
      r := Ok(meta);
    }

    method ForkCheckpoint(id: BoxId, c: CheckpointId, fork: ForkRequest, cow: bool, seeks: bool)
        returns (r: Result<Metadata, StoreError>)
      requires Valid()
      modifies `boxes
      ensures Valid() && fresh(Disks() - old(Disks()))
      ensures Contents() == Outcome(old(Contents()), ForkStep(old(Contents()), id, c, fork))
      ensures r.Ok? == ForkStep(old(Contents()), id, c, fork).Ok?
      ensures r.Err? ==> ForkStep(old(Contents()), id, c, fork) == Err(r.error)
      ensures r.Ok? ==> id in boxes && r.value == boxes[id].meta
    {
      if !ValidFork(fork) {
        return Err(Invalid);
      }
      if c !in checkpoints {
        return Err(NotFound);
      }
      var slot := checkpoints[c];
      r := Create(id, ForkedRequest(slot.meta, fork), slot.disk, cow, seeks);
    }

    method RemoveCheckpoint(c: CheckpointId) returns (r: Result<CheckpointMeta, StoreError>)
      requires Valid()
      modifies `checkpoints
      ensures Valid() && fresh(Disks() - old(Disks()))
      ensures Contents() == Outcome(old(Contents()), DropStep(old(Contents()), c))
      ensures r.Ok? == DropStep(old(Contents()), c).Ok?
      ensures r.Err? ==> DropStep(old(Contents()), c) == Err(r.error)
      ensures r.Ok? ==> c in old(checkpoints) && r.value == old(checkpoints)[c].meta
    {
      if c !in checkpoints {
        return Err(NotFound);
      }
      var meta := checkpoints[c].meta;
      checkpoints := checkpoints - {c};
      assert SavedDisks() <= old(SavedDisks());
      assert SavedEntries() == old(SavedEntries()) - {c};
      r := Ok(meta);
    }

    /** The operations that make a new Box or checkpoint. */
    method PerformNew(op: Op, cow: bool, seeks: bool)
      requires Valid() && (op.Create? || op.Clone? || op.Checkpoint? || op.Fork?)
      modifies this
      ensures Valid() && fresh(Disks() - old(Disks()))
      ensures Contents() == After(old(Contents()), op)
    {
      match op
      case Create(id, request, source) =>
        var disk := NewDisk(source);
        var _ := Create(id, request, disk, cow, seeks);
      case Clone(id, from) => var _ := CloneBox(id, from, cow, seeks);
      case Checkpoint(c, b, save) => var _ := CreateCheckpoint(c, b, save, cow, seeks);
      case Fork(id, c, fork) => var _ := ForkCheckpoint(id, c, fork, cow, seeks);
    }

    /** Any operation, on the heap: what it does to the values of the store is what `Step` says. */
    method Perform(op: Op, cow: bool, seeks: bool)
      requires Valid()
      modifies this, Disks()
      ensures Valid() && fresh(Disks() - old(Disks()))
      ensures Contents() == After(old(Contents()), op)
    {
      match op
      case Reset(b, source) =>
        var disk := NewDisk(source);
        var _ := ResetBox(b, disk, cow, seeks);
      case Delete(b) => var _ := DeleteBox(b);
      case UpdateBox(b, u) => var _ := Update(b, u);
      case Transition(b, expected, next) => var _ := SetState(b, expected, next);
      case GuestWrite(b, at, data) => var _ := Write(b, at, data);
      case DeleteCheckpoint(c) => var _ := RemoveCheckpoint(c);
      case _ => PerformNew(op, cow, seeks);
    }

    /** Any list of operations, one after the other, on the disks themselves. */
    method Execute(ops: seq<Op>, cow: bool, seeks: bool)
      requires Valid()
      modifies this, Disks()
      ensures Valid() && fresh(Disks() - old(Disks()))
      ensures Contents() == Run(old(Contents()), ops)
      decreases |ops|
    {
      if ops != [] {
        Perform(ops[0], cow, seeks);
        Execute(ops[1..], cow, seeks);
      }
    }
  }

  /** The allocation after a write: the written range is data. */
  function WrittenImage(image: Image, at: nat, data: seq<byte>): (r: Image)
    requires image.Valid() && at + |data| <= |image.bytes|
    ensures r.Valid() && r.bytes == Written(image.bytes, at, data)
  {
    Image(Written(image.bytes, at, data),
          seq(|image.data|, i requires 0 <= i < |image.data| => image.data[i] || at <= i < at + |data|))
  }
}
