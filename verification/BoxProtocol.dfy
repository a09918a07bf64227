/**
 Dirty tracking and name uniqueness of the Box store, over interleaved processes, failed writes,
 killed processes and host crashes.

 A directory is modelled by its history of states not yet known to be durable: the first state is
 the durable one, the last is what processes see, and a host crash leaves any one of them, because
 directory updates persist as a prefix of the order in which they were issued. Every file a rename
 publishes was flushed before, so a state names contents that survive.

 Each `Action` is one system call, or one event outside the store (a guest starting or stopping).
 */
module BoxProtocol {
  import opened Base
  import opened Boxes

  type ProcId = nat
  type DiskId = nat

  /** What one Box directory holds: the metadata file and the root disk. */
  datatype Image = Image(meta: Metadata, disk: DiskId)

  datatype Owner = OfBox(box: BoxId) | OfCheckpoint(checkpoint: CheckpointId)

  /** Which store call a metadata write belongs to. */
  datatype Call = Migrate | Begin | Finish | Block | Update | Reset

  datatype Activity =
    | Held
    | Armed                                // begin_writable_use returned; a guest may start
    | Guest                                // a guest is running on the disk
    | Certified                            // clean helper exit, or e2fsck succeeded
    | Copied(replacement: DiskId)          // reset: the new disk is written and flushed
    | Swapped                              // reset: the new disk is renamed into place
    | Writing(next: Metadata, call: Call)  // the temporary file is written and flushed
    | Renamed(next: Metadata, call: Call)  // renamed into place, directory not yet synced

  /** A lease keeps its own copy of the metadata, as `BoxLease` does. */
  datatype Lease = Lease(box: BoxId, meta: Metadata, activity: Activity)

  /** What a process does while it holds the metadata index lock. */
  datatype Job =
    | NoJob
    | Checked(name: Option<string>, except: Option<BoxId>)
    | Staged(id: BoxId, image: Image)
    | Listed(id: BoxId)

  datatype Proc = Proc(lease: Option<Lease>, job: Job)

  datatype System = System(
    dirs: map<BoxId, seq<Image>>,
    listing: seq<set<BoxId>>,
    cleared: set<BoxId>,
    checkpoints: map<CheckpointId, DiskId>,
    procs: map<ProcId, Proc>,
    locks: map<BoxId, ProcId>,
    index: Option<ProcId>,
    owner: map<DiskId, Owner>,
    tainted: set<DiskId>,                  // exposed to a guest since last certified clean
    dirtyClone: bool)                      // a Box that did not read Ready has been cloned

  datatype Source = BaseImage | FromLease | FromCheckpoint(checkpoint: CheckpointId) | Bundle(legacy: bool)

  /** Steps of a leaseholder that change no file of the store. */
  datatype UseStep =
    | Release
    | BeginUse
    | Expose
    | GuestExit(clean: bool)
    | Fsck
    | FinishUse
    | MarkNeedsRepair
    | ResetWrite
    | UpdateWrite(name: Option<string>)

  /** Steps of a leaseholder on the files of its Box. */
  datatype FileStep =
    | ResetCopy(disk: DiskId)
    | ResetSwap
    | Rename
    | Sync
    | Fail
    | Delete
    | CreateCheckpoint(checkpoint: CheckpointId, disk: DiskId)

  /** Steps under the metadata index lock. */
  datatype JobStep =
    | LockIndex(name: Option<string>, except: Option<BoxId>)
    | Stage(id: BoxId, disk: DiskId, source: Source, request: Metadata)
    | Publish
    | SyncListing
    | EndJob

  datatype Action =
    | Acquire(p: ProcId, box: BoxId)
    | Use(p: ProcId, use: UseStep)
    | OnFile(p: ProcId, file: FileStep)
    | InJob(p: ProcId, step: JobStep)
    | Clear(box: BoxId)
    | DeleteCheckpoint(checkpoint: CheckpointId)
    | Kill(p: ProcId)
    | HostCrash(states: map<BoxId, nat>, listed: nat, lost: set<BoxId>)

  function Last<T>(s: seq<T>): T
    requires s != []
  {
    s[|s| - 1]
  }

  predicate Shaped(s: System) {
    && s.listing != []
    && forall b :: b in s.dirs ==> s.dirs[b] != []
  }

  function Visible(s: System, b: BoxId): Image
    requires b in s.dirs && s.dirs[b] != []
  {
    Last(s.dirs[b])
  }

  /** A Box other processes can find and read. */
  predicate Readable(s: System, b: BoxId)
    requires Shaped(s)
  {
    b in Last(s.listing) && b !in s.cleared && b in s.dirs && Supported(Visible(s, b).meta)
  }

  /** The scan of `ensure_unique_name`, taken where no conflict is left. */
  predicate NameFree(s: System, name: Option<string>, except: Option<BoxId>)
    requires Shaped(s)
  {
    forall b :: b in s.dirs && Readable(s, b) && Some(b) != except ==> !SameName(Visible(s, b).meta.name, name)
  }

  predicate HasLease(s: System, p: ProcId) {
    p in s.procs && s.procs[p].lease.Some? && s.procs[p].lease.value.box in s.dirs
  }

  function LeaseOf(s: System, p: ProcId): Lease
    requires HasLease(s, p)
  {
    s.procs[p].lease.value
  }

  predicate Fresh(s: System, d: DiskId) { d !in s.owner && d !in s.tainted }

  /** Holding a lease with nothing under way, on a Box that `try_acquire` did not refuse. */
  predicate Resting(s: System, p: ProcId) {
    HasLease(s, p) && LeaseOf(s, p).activity == Held && LeaseOf(s, p).meta.state != NeedsRepair
  }

  predicate CanUse(s: System, p: ProcId, use: UseStep)
    requires HasLease(s, p)
  {
    var l := LeaseOf(s, p);
    match use
    case Release => l.activity in {Held, Armed, Certified}
    case BeginUse => l.activity == Held && l.meta.state == Ready
    case Expose => l.activity == Armed
    case GuestExit(_) => l.activity == Guest
    case Fsck => l.activity == Held && l.meta.state == Dirty
    case FinishUse => l.activity == Certified && l.meta.state == Dirty
    case MarkNeedsRepair => l.activity == Held && l.meta.state == Dirty
    case ResetWrite => l.activity == Swapped
    case UpdateWrite(name) =>
      && Resting(s, p)
      && s.procs[p].job.Checked? && s.procs[p].job.except == Some(l.box)
      && (name == l.meta.name || name == None || name == s.procs[p].job.name)
  }

  predicate CanFile(s: System, p: ProcId, file: FileStep)
    requires HasLease(s, p)
  {
    var l := LeaseOf(s, p);
    match file
    case ResetCopy(d) => Resting(s, p) && Fresh(s, d)
    case ResetSwap => l.activity.Copied?
    case Rename => l.activity.Writing?
    case Sync => l.activity.Renamed?
    case Fail => l.activity.Copied? || l.activity.Swapped? || l.activity.Writing? || l.activity.Renamed?
    case Delete => Resting(s, p)
    case CreateCheckpoint(c, d) =>
      Resting(s, p) && l.meta.state == Ready && c !in s.checkpoints && Fresh(s, d)
  }

  predicate CanJob(s: System, p: ProcId, step: JobStep)
    requires Shaped(s) && p in s.procs
  {
    var job := s.procs[p].job;
    match step
    case LockIndex(name, except) => job == NoJob && s.index == None && NameFree(s, name, except)
    case Stage(id, d, source, _) =>
      && job.Checked? && job.except == None
      && id !in s.dirs && id !in s.locks && (forall l :: l in s.listing ==> id !in l) && Fresh(s, d)
      && (source.FromLease? ==> Resting(s, p))
      && (source.FromCheckpoint? ==> source.checkpoint in s.checkpoints)
    case Publish => job.Staged? && job.id !in s.locks
    case SyncListing => job.Listed?
    case EndJob => job != NoJob && !UsesIndex(s, p)
  }

  predicate Enabled(s: System, a: Action)
    requires Shaped(s)
  {
    match a
    case Acquire(p, b) =>
      && p in s.procs && s.procs[p].lease.None?
      && Readable(s, b) && b !in s.locks
      && (Visible(s, b).meta.schema == SCHEMA_VERSION ==> Visible(s, b).meta.state != NeedsRepair)
    case Use(p, use) => HasLease(s, p) && CanUse(s, p, use)
    case OnFile(p, file) => HasLease(s, p) && CanFile(s, p, file)
    case InJob(p, step) => p in s.procs && CanJob(s, p, step)
    case Clear(b) => b in s.dirs && b !in Last(s.listing) && b !in s.locks
    case DeleteCheckpoint(c) => c in s.checkpoints
    case Kill(p) => p in s.procs
    case HostCrash(states, listed, lost) =>
      && listed < |s.listing| && lost <= s.cleared
      && forall b :: b in s.dirs ==> b in states && states[b] < |s.dirs[b]|
  }

  /** `update` keeps the index lock until its metadata write has returned. */
  predicate UsesIndex(s: System, p: ProcId) {
    HasLease(s, p) && var act := LeaseOf(s, p).activity;
    (act.Writing? || act.Renamed?) && act.call == Update
  }

  // Building blocks of a step.

  function SetProc(s: System, p: ProcId, proc: Proc): System { s.(procs := s.procs[p := proc]) }

  function SetLease(s: System, p: ProcId, l: Lease): System
    requires p in s.procs
  {
    SetProc(s, p, s.procs[p].(lease := Some(l)))
  }

  function Act(s: System, p: ProcId, act: Activity): System
    requires HasLease(s, p)
  {
    SetLease(s, p, LeaseOf(s, p).(activity := act))
  }

  function Drop(s: System, p: ProcId): System
    requires HasLease(s, p)
  {
    SetProc(s, p, s.procs[p].(lease := None)).(locks := s.locks - {LeaseOf(s, p).box})
  }

  function FreeIndex(s: System, p: ProcId): System
    requires p in s.procs
  {
    SetProc(s, p, s.procs[p].(job := NoJob)).(index := None)
  }

  /** A directory update: visible at once, durable only after a sync. */
  function Issue(s: System, b: BoxId, image: Image): System
    requires b in s.dirs
  {
    s.(dirs := s.dirs[b := s.dirs[b] + [image]])
  }

  function VisibleOf(s: System, p: ProcId): Image
    requires Shaped(s) && HasLease(s, p)
  {
    Visible(s, LeaseOf(s, p).box)
  }

  /** A new disk with the taint of what it was copied from. */
  function Copy(s: System, d: DiskId, owner: Owner, tainted: bool): System {
    s.(owner := s.owner[d := owner], tainted := if tainted then s.tainted + {d} else s.tainted)
  }

  function DoUse(s: System, p: ProcId, use: UseStep): System
    requires Shaped(s) && HasLease(s, p) && CanUse(s, p, use)
  {
    var l := LeaseOf(s, p);
    var disk := VisibleOf(s, p).disk;
    match use
    case Release => Drop(s, p)
    case BeginUse => Act(s, p, Writing(l.meta.(state := Dirty), Begin))
    case Expose => Act(s, p, Guest).(tainted := s.tainted + {disk})
    case GuestExit(clean) =>
      if clean then Act(s, p, Certified).(tainted := s.tainted - {disk}) else Act(s, p, Held)
    case Fsck => Act(s, p, Certified).(tainted := s.tainted - {disk})
    case FinishUse => Act(s, p, Writing(l.meta.(state := Ready), Finish))
    case MarkNeedsRepair => Act(s, p, Writing(l.meta.(state := NeedsRepair), Block))
    case ResetWrite =>
      Act(s, p, Writing(l.meta.(state := Ready, generation := SatAdd(l.meta.generation, 1)), Reset))
    case UpdateWrite(name) => Act(s, p, Writing(l.meta.(name := name), Update))
  }

  function DoFile(s: System, p: ProcId, file: FileStep): System
    requires Shaped(s) && HasLease(s, p) && CanFile(s, p, file)
  {
    var l, v := LeaseOf(s, p), VisibleOf(s, p);
    match file
    case ResetCopy(d) => Copy(Act(s, p, Copied(d)), d, OfBox(l.box), false)
    case ResetSwap => Issue(Act(s, p, Swapped), l.box, v.(disk := l.activity.replacement))
    case Rename =>
      Issue(Act(s, p, Renamed(l.activity.next, l.activity.call)), l.box, v.(meta := l.activity.next))
    case Sync => AfterSync(s.(dirs := s.dirs[l.box := [v]]), p, l.activity.next, l.activity.call)
    case Fail =>
      if l.activity.Copied? || l.activity.Swapped? || l.activity.call in {Reset, Migrate} then Drop(s, p)
      else if l.activity.call == Update then FreeIndex(Drop(s, p), p)
      else Act(s, p, if l.activity.call == Finish then Certified else Held)
    case Delete => Drop(s, p).(listing := s.listing + [Last(s.listing) - {l.box}])
    case CreateCheckpoint(c, d) =>
      Copy(s.(checkpoints := s.checkpoints[c := d]), d, OfCheckpoint(c), v.disk in s.tainted)
  }

  /** How each call goes on once its metadata is durable. */
  function AfterSync(s: System, p: ProcId, next: Metadata, call: Call): System
    requires HasLease(s, p)
  {
    if call == Update then FreeIndex(Drop(s, p), p)
    else if call == Reset || (next.state == NeedsRepair && call == Migrate) then Drop(s, p)
    else SetLease(s, p, Lease(LeaseOf(s, p).box, next, if call == Begin then Armed else Held))
  }

  /** The metadata a new Box is created with. */
  function NewMeta(request: Metadata, source: Source, name: Option<string>): Metadata {
    request.(schema := SCHEMA_VERSION, name := name,
             state := if source == Bundle(true) then Dirty else Ready)
  }

  function SourceTainted(s: System, p: ProcId, source: Source): bool
    requires Shaped(s) && (source.FromLease? ==> HasLease(s, p))
    requires source.FromCheckpoint? ==> source.checkpoint in s.checkpoints
  {
    match source
    case FromLease => VisibleOf(s, p).disk in s.tainted
    case FromCheckpoint(c) => s.checkpoints[c] in s.tainted
    case _ => false
  }

  /** `clone_box` does not test the state of its source. */
  predicate ClonesDirty(s: System, p: ProcId, source: Source)
    requires source.FromLease? ==> HasLease(s, p)
  {
    source.FromLease? && LeaseOf(s, p).meta.state != Ready
  }

  function DoJob(s: System, p: ProcId, step: JobStep): System
    requires Shaped(s) && p in s.procs && CanJob(s, p, step)
  {
    var job := s.procs[p].job;
    match step
    case LockIndex(name, except) =>
      SetProc(s, p, s.procs[p].(job := Checked(name, except))).(index := Some(p))
    case Stage(id, d, source, request) =>
      var image := Image(NewMeta(request, source, job.name), d);
      var t := SetProc(s, p, s.procs[p].(job := Staged(id, image)));
      Copy(t.(dirtyClone := s.dirtyClone || ClonesDirty(s, p, source)), d, OfBox(id), SourceTainted(s, p, source))
    case Publish =>
      SetProc(s, p, s.procs[p].(job := Listed(job.id))).(
        dirs := s.dirs[job.id := [job.image]],
        listing := s.listing + [Last(s.listing) + {job.id}],
        locks := s.locks[job.id := p])
    case SyncListing => FreeIndex(Unlist(s, p), p).(listing := [Last(s.listing)])
    case EndJob => FreeIndex(Unlist(s, p), p)
  }

  function DoAcquire(s: System, p: ProcId, b: BoxId): System
    requires Shaped(s) && p in s.procs && b in s.dirs && Supported(Visible(s, b).meta)
  {
    var m := Visible(s, b).meta;
    var act := if m.schema == SCHEMA_VERSION then Held else Writing(Migrated(m), Migrate);
    SetLease(s, p, Lease(b, Migrated(m), act)).(locks := s.locks[b := p])
  }

  function DoKill(s: System, p: ProcId): System
    requires p in s.procs
  {
    var t := if HasLease(s, p) then Drop(s, p) else s;
    SetProc(Unlist(t, p), p, Proc(None, NoJob)).(index := if s.index == Some(p) then None else s.index)
  }

  function DoCrash(s: System, states: map<BoxId, nat>, listed: nat, lost: set<BoxId>): System
    requires listed < |s.listing|
    requires forall b :: b in s.dirs ==> b in states && states[b] < |s.dirs[b]|
  {
    s.(dirs := map b | b in s.dirs :: [s.dirs[b][states[b]]],
       listing := [s.listing[listed]],
       cleared := lost,
       procs := map p | p in s.procs :: Proc(None, NoJob),
       locks := map[],
       index := None)
  }

  function Do(s: System, a: Action): System
    requires Shaped(s) && Enabled(s, a)
  {
    match a
    case Acquire(p, b) => DoAcquire(s, p, b)
    case Use(p, use) => DoUse(s, p, use)
    case OnFile(p, file) => DoFile(s, p, file)
    case InJob(p, step) => DoJob(s, p, step)
    case Clear(b) => s.(cleared := s.cleared + {b})
    case DeleteCheckpoint(c) => s.(checkpoints := s.checkpoints - {c})
    case Kill(p) => DoKill(s, p)
    case HostCrash(states, listed, lost) => DoCrash(s, states, listed, lost)
  }

  /** The creator's lock on the Box it has just listed. */
  function Unlist(s: System, p: ProcId): System
    requires p in s.procs
  {
    if s.procs[p].job.Listed? then s.(locks := s.locks - {s.procs[p].job.id}) else s
  }
}
