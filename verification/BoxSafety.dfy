/**
 Crash-safe dirty tracking: whatever the interleaving, a Box whose metadata reads Ready holds a disk
 no guest has touched since it was last certified, reset or created.
 */
module BoxSafety {
  import opened Base
  import opened Boxes
  import opened BoxProtocol

  /** Clean, as far as clones of Boxes that were not Ready have not spoiled the record. */
  predicate Clean(s: System, d: DiskId) { s.dirtyClone || d !in s.tainted }

  /** Metadata that reads Ready never accompanies an exposed disk. */
  predicate ImageOk(s: System, b: BoxId, image: Image) {
    && image.disk in s.owner && s.owner[image.disk] == OfBox(b)
    && (ReadsReady(image.meta) ==> Clean(s, image.disk))
  }

  /** This holds of the durable state, the visible state, and every state a crash may leave. */
  predicate DirOk(s: System, b: BoxId)
    requires b in s.dirs
  {
    s.dirs[b] != [] && forall i :: 0 <= i < |s.dirs[b]| ==> ImageOk(s, b, s.dirs[b][i])
  }

  predicate WriteOk(s: System, b: BoxId, disk: DiskId, next: Metadata, call: Call) {
    && next.schema == SCHEMA_VERSION
    && (next.state == Ready || call == Finish ==> Clean(s, disk))
    && (call == Begin ==> next.state == Dirty)
  }

  predicate ActivityOk(s: System, l: Lease)
    requires l.box in s.dirs && s.dirs[l.box] != []
  {
    var v := Visible(s, l.box);
    match l.activity
    case Held => true
    case Armed => |s.dirs[l.box]| == 1 && v.meta == l.meta && l.meta.state == Dirty
    case Guest => |s.dirs[l.box]| == 1 && v.meta == l.meta && l.meta.state == Dirty
    case Certified => Clean(s, v.disk)
    case Copied(d) => d in s.owner && s.owner[d] == OfBox(l.box) && Clean(s, d)
    case Swapped => Clean(s, v.disk)
    case Writing(next, call) => WriteOk(s, l.box, v.disk, next, call)
    case Renamed(next, call) => WriteOk(s, l.box, v.disk, next, call) && v.meta == next
  }

  predicate LeaseOk(s: System, p: ProcId)
    requires p in s.procs
  {
    s.procs[p].lease.Some? ==>
      var l := s.procs[p].lease.value;
      && l.box in s.dirs && s.dirs[l.box] != []
      && l.box in s.locks && s.locks[l.box] == p
      && l.meta.schema == SCHEMA_VERSION
      && (l.meta.state == Ready ==> Clean(s, Visible(s, l.box).disk))
      && ActivityOk(s, l)
  }

  predicate JobOk(s: System, p: ProcId)
    requires p in s.procs
  {
    var job := s.procs[p].job;
    && (job != NoJob ==> s.index == Some(p))
    && (job.Staged? ==> job.id !in s.dirs && ImageOk(s, job.id, job.image))
    && (UsesIndex(s, p) ==> job.Checked? && job.except.Some?)
    && (job.Listed? ==>
          && job.id in s.locks && s.locks[job.id] == p
          && (s.procs[p].lease.Some? ==> s.procs[p].lease.value.box != job.id))
  }

  predicate CheckpointOk(s: System, c: CheckpointId)
    requires c in s.checkpoints
  {
    var d := s.checkpoints[c];
    d in s.owner && s.owner[d] == OfCheckpoint(c) && Clean(s, d)
  }

  predicate Inv(s: System) {
    && s.listing != []
    && (forall b :: b in s.dirs ==> DirOk(s, b))
    && (forall p :: p in s.procs ==> LeaseOk(s, p) && JobOk(s, p))
    && (forall c :: c in s.checkpoints ==> CheckpointOk(s, c))
  }

  /** Everything that is not process `p`, or Box `b` if there is one, is as before. */
  predicate Frame(s: System, t: System, p: ProcId, b: Option<BoxId>) {
    && p in s.procs && t.procs.Keys == s.procs.Keys
    && (forall q :: q in s.procs && q != p ==> t.procs[q] == s.procs[q])
    && (forall q :: q in s.procs && q != p ==> Elsewhere(s.procs[q], b))
    && (forall c :: c in t.dirs && Some(c) != b ==> c in s.dirs && t.dirs[c] == s.dirs[c])
    && (forall c :: c in s.dirs && Some(c) != b ==> c in t.dirs)
    && (forall c :: c in s.locks && s.locks[c] != p ==> c in t.locks && t.locks[c] == s.locks[c])
    && (forall d :: d in s.owner ==> d in t.owner && t.owner[d] == s.owner[d])
    && (forall d :: d in s.owner && d in t.tainted ==>
          d in s.tainted || (s.owner[d].OfBox? && Some(s.owner[d].box) == b))
    && (s.index == t.index || s.index == None || s.index == Some(p))
    && t.checkpoints == s.checkpoints
    && t.listing != [] && (s.dirtyClone ==> t.dirtyClone)
  }

  predicate Elsewhere(q: Proc, b: Option<BoxId>) {
    b.Some? ==>
      && (q.lease.Some? ==> q.lease.value.box != b.value)
      && (q.job.Staged? ==> q.job.id != b.value)
  }

  lemma FrameKeepsDirs(s: System, t: System, p: ProcId, b: Option<BoxId>)
    requires Inv(s) && Frame(s, t, p, b)
    ensures forall c :: c in t.dirs && Some(c) != b ==> DirOk(t, c)
    ensures forall c :: c in t.checkpoints ==> CheckpointOk(t, c)
  {
    forall c | c in t.dirs && Some(c) != b
      ensures DirOk(t, c)
    {
      assert DirOk(s, c);
      forall i | 0 <= i < |t.dirs[c]|
        ensures ImageOk(t, c, t.dirs[c][i])
      {
        assert ImageOk(s, c, s.dirs[c][i]);
      }
    }
    forall c | c in t.checkpoints
      ensures CheckpointOk(t, c)
    {
      assert CheckpointOk(s, c);
    }
  }

  lemma FrameKeepsProc(s: System, t: System, p: ProcId, b: Option<BoxId>, q: ProcId)
    requires Inv(s) && Frame(s, t, p, b) && q in s.procs && q != p
    ensures LeaseOk(t, q) && JobOk(t, q)
  {
    assert LeaseOk(s, q) && JobOk(s, q) && Elsewhere(s.procs[q], b);
    if s.procs[q].lease.Some? {
      var l := s.procs[q].lease.value;
      assert DirOk(s, l.box);
      assert ImageOk(s, l.box, s.dirs[l.box][|s.dirs[l.box]| - 1]);
    }
  }

  /** A step of `p` on `b` keeps the invariant if it leaves `p` and `b` in order. */
  lemma Establish(s: System, t: System, p: ProcId, b: Option<BoxId>)
    requires Inv(s) && Frame(s, t, p, b)
    requires b.Some? && b.value in t.dirs ==> DirOk(t, b.value)
    requires LeaseOk(t, p) && JobOk(t, p)
    ensures Inv(t)
  {
    FrameKeepsDirs(s, t, p, b);
    forall q | q in t.procs
      ensures LeaseOk(t, q) && JobOk(t, q)
    {
      if q != p {
        FrameKeepsProc(s, t, p, b, q);
      }
    }
  }

  /** While `p` has a lease on `b`, no other process has one or is creating `b`. */
  lemma LeaseIsExclusive(s: System, p: ProcId)
    requires Inv(s) && p in s.procs && s.procs[p].lease.Some?
    ensures forall q :: q in s.procs && q != p ==> Elsewhere(s.procs[q], Some(s.procs[p].lease.value.box))
  {
    forall q | q in s.procs && q != p
      ensures Elsewhere(s.procs[q], Some(s.procs[p].lease.value.box))
    {
      assert LeaseOk(s, p) && LeaseOk(s, q) && JobOk(s, q);
    }
  }

  /** The shape of a leaseholder's step that keeps the lease. */
  function With(s: System, p: ProcId, l: Lease, history: seq<Image>, owner: map<DiskId, Owner>,
                tainted: set<DiskId>): System
    requires p in s.procs
  {
    SetLease(s, p, l).(dirs := s.dirs[l.box := history], owner := owner, tainted := tainted)
  }

  lemma WithKeeps(s: System, t: System, p: ProcId, l: Lease)
    requires Inv(s) && HasLease(s, p) && l.box == LeaseOf(s, p).box
    requires l.box in t.dirs && t == With(s, p, l, t.dirs[l.box], t.owner, t.tainted)
    requires forall d :: d in s.owner ==> d in t.owner && t.owner[d] == s.owner[d]
    requires forall d :: d in s.owner && d in t.tainted ==> d in s.tainted || s.owner[d] == OfBox(l.box)
    requires DirOk(t, l.box) && LeaseOk(t, p)
    requires UsesIndex(t, p) ==> s.procs[p].job.Checked? && s.procs[p].job.except.Some?
    ensures Inv(t)
  {
    LeaseIsExclusive(s, p);
    assert LeaseOk(s, p) && JobOk(s, p);
    Establish(s, t, p, Some(l.box));
  }

  /** A step that ends a lease, and with it possibly the job the lease belonged to. */
  lemma DropKeeps(s: System, t: System, p: ProcId)
    requires Inv(s) && HasLease(s, p) && t.listing != []
    requires var dropped := Drop(s, p).(listing := t.listing);
             t == dropped || t == FreeIndex(dropped, p)
    requires t != Drop(s, p).(listing := t.listing) ==> s.procs[p].job.Checked?
    ensures Inv(t)
  {
    assert LeaseOk(s, p) && JobOk(s, p);
    Establish(s, t, p, None);
  }

  /** Replacing the unsynced history of a Box by its last state keeps every image in order. */
  lemma SyncedDir(s: System, t: System, b: BoxId)
    requires b in s.dirs && DirOk(s, b) && t.owner == s.owner && t.tainted == s.tainted && t.dirtyClone == s.dirtyClone
    requires b in t.dirs && t.dirs[b] == [Visible(s, b)]
    ensures DirOk(t, b)
  {
    assert ImageOk(s, b, Visible(s, b));
  }

  /** What the invariant says about the process and the Box a lease step is about. */
  lemma LeaseFacts(s: System, p: ProcId)
    requires Inv(s) && HasLease(s, p)
    ensures LeaseOk(s, p) && JobOk(s, p) && DirOk(s, LeaseOf(s, p).box)
    ensures ImageOk(s, LeaseOf(s, p).box, VisibleOf(s, p))
    ensures s.dirs[LeaseOf(s, p).box := s.dirs[LeaseOf(s, p).box]] == s.dirs
  {
    assert LeaseOk(s, p) && DirOk(s, LeaseOf(s, p).box);
  }

  /** A guest starts: its disk is the only state of the directory, and that reads Dirty. */
  lemma ExposeStep(s: System, p: ProcId)
    requires Inv(s) && HasLease(s, p) && CanUse(s, p, Expose)
    ensures Inv(DoUse(s, p, Expose))
  {
    var t, l := DoUse(s, p, Expose), LeaseOf(s, p);
    LeaseFacts(s, p);
    assert s.dirs[l.box] == [Visible(s, l.box)];
    WithKeeps(s, t, p, LeaseOf(t, p));
  }

  /** A guest stops, or e2fsck succeeds: at most the taint of this Box's disk goes. */
  lemma GuestStep(s: System, p: ProcId, u: UseStep)
    requires Inv(s) && (u.GuestExit? || u.Fsck?) && HasLease(s, p) && CanUse(s, p, u)
    ensures Inv(DoUse(s, p, u))
  {
    var t := DoUse(s, p, u);
    LeaseFacts(s, p);
    SameImages(s, t, LeaseOf(s, p).box);
    WithKeeps(s, t, p, LeaseOf(t, p));
  }

  /** The leaseholder decides what to write next; nothing on disk changes. */
  lemma IntentStep(s: System, p: ProcId, u: UseStep)
    requires Inv(s) && HasLease(s, p) && CanUse(s, p, u)
    requires u.BeginUse? || u.FinishUse? || u.MarkNeedsRepair? || u.ResetWrite? || u.UpdateWrite?
    ensures Inv(DoUse(s, p, u))
  {
    LeaseFacts(s, p);
    SameImages(s, DoUse(s, p, u), LeaseOf(s, p).box);
    WithKeeps(s, DoUse(s, p, u), p, LeaseOf(DoUse(s, p, u), p));
  }

  lemma UseKeeps(s: System, p: ProcId, u: UseStep)
    requires Inv(s) && HasLease(s, p) && CanUse(s, p, u)
    ensures Inv(DoUse(s, p, u))
  {
    match u
    case Release => DropKeeps(s, DoUse(s, p, u), p);
    case Expose => ExposeStep(s, p);
    case GuestExit(_) => GuestStep(s, p, u);
    case Fsck => GuestStep(s, p, u);
    case _ => IntentStep(s, p, u);
  }

  lemma SameImages(s: System, t: System, b: BoxId)
    requires b in s.dirs && DirOk(s, b) && t.dirs == s.dirs && t.dirtyClone == s.dirtyClone
    requires forall d :: d in s.owner ==> d in t.owner && t.owner[d] == s.owner[d]
    requires forall d :: d in s.owner && d in t.tainted ==> d in s.tainted
    ensures DirOk(t, b)
  {
    forall i | 0 <= i < |s.dirs[b]| ensures ImageOk(t, b, s.dirs[b][i]) {
      assert ImageOk(s, b, s.dirs[b][i]);
    }
  }

  lemma ResetCopyStep(s: System, p: ProcId, d: DiskId)
    requires Inv(s) && HasLease(s, p) && CanFile(s, p, ResetCopy(d))
    ensures Inv(DoFile(s, p, ResetCopy(d)))
  {
    var t := DoFile(s, p, ResetCopy(d));
    LeaseFacts(s, p);
    SameImages(s, t, LeaseOf(s, p).box);
    WithKeeps(s, t, p, LeaseOf(t, p));
  }

  /** A rename appends one state to the history, and that state is in order too. */
  lemma RenameStep(s: System, p: ProcId, f: FileStep)
    requires Inv(s) && (f.ResetSwap? || f.Rename?) && HasLease(s, p) && CanFile(s, p, f)
    ensures Inv(DoFile(s, p, f))
  {
    var t, l := DoFile(s, p, f), LeaseOf(s, p);
    LeaseFacts(s, p);
    assert ImageOk(s, l.box, Last(t.dirs[l.box]));
    assert t.dirs[l.box] == s.dirs[l.box] + [Last(t.dirs[l.box])];
    assert DirOk(t, l.box) by {
      forall i | 0 <= i < |s.dirs[l.box]| ensures ImageOk(t, l.box, s.dirs[l.box][i]) {
        assert ImageOk(s, l.box, s.dirs[l.box][i]);
      }
    }
    WithKeeps(s, t, p, LeaseOf(t, p));
  }

  lemma SyncStep(s: System, p: ProcId)
    requires Inv(s) && HasLease(s, p) && CanFile(s, p, Sync)
    ensures Inv(DoFile(s, p, Sync))
  {
    var l := LeaseOf(s, p);
    LeaseFacts(s, p);
    var synced := With(s, p, l, [Visible(s, l.box)], s.owner, s.tainted);
    assert SetLease(s, p, l).procs == s.procs;
    SyncedDir(s, synced, l.box);
    WithKeeps(s, synced, p, l);
    AfterSyncKeeps(synced, p);
  }

  /** What the call does after its directory sync returned. */
  lemma AfterSyncKeeps(s: System, p: ProcId)
    requires Inv(s) && HasLease(s, p) && LeaseOf(s, p).activity.Renamed?
    requires |s.dirs[LeaseOf(s, p).box]| == 1
    ensures Inv(AfterSync(s, p, LeaseOf(s, p).activity.next, LeaseOf(s, p).activity.call))
  {
    var l := LeaseOf(s, p);
    var next, call := l.activity.next, l.activity.call;
    var t := AfterSync(s, p, next, call);
    LeaseFacts(s, p);
    if call == Update || call == Reset || (next.state == NeedsRepair && call == Migrate) {
      DropKeeps(s, t, p);
    } else {
      SameImages(s, t, l.box);
      WithKeeps(s, t, p, Lease(l.box, next, if call == Begin then Armed else Held));
    }
  }

  lemma FailStep(s: System, p: ProcId)
    requires Inv(s) && HasLease(s, p) && CanFile(s, p, Fail)
    ensures Inv(DoFile(s, p, Fail))
  {
    var t, act := DoFile(s, p, Fail), LeaseOf(s, p).activity;
    LeaseFacts(s, p);
    if act.Copied? || act.Swapped? || act.call in {Reset, Migrate, Update} {
      DropKeeps(s, t, p);
    } else {
      SameImages(s, t, LeaseOf(s, p).box);
      WithKeeps(s, t, p, LeaseOf(t, p));
    }
  }

  lemma FileKeeps(s: System, p: ProcId, f: FileStep)
    requires Inv(s) && HasLease(s, p) && CanFile(s, p, f)
    ensures Inv(DoFile(s, p, f))
  {
    match f
    case ResetCopy(d) => ResetCopyStep(s, p, d);
    case ResetSwap => RenameStep(s, p, f);
    case Rename => RenameStep(s, p, f);
    case Sync => SyncStep(s, p);
    case Fail => FailStep(s, p);
    case Delete => DropKeeps(s, DoFile(s, p, f), p);
    case CreateCheckpoint(c, d) => LeaseFacts(s, p); SideKeeps(s, DoFile(s, p, f), c);
  }

  lemma AcquireKeeps(s: System, p: ProcId, b: BoxId)
    requires Inv(s) && Enabled(s, Acquire(p, b))
    ensures Inv(DoAcquire(s, p, b))
  {
    assert DirOk(s, b) && LeaseOk(s, p) && JobOk(s, p);
    assert ImageOk(s, b, Visible(s, b));
    forall q | q in s.procs && q != p
      ensures Elsewhere(s.procs[q], Some(b))
    {
      assert LeaseOk(s, q) && JobOk(s, q);
    }
    var t := DoAcquire(s, p, b);
    SameImages(s, t, b);
    Establish(s, t, p, Some(b));
  }

  lemma LockIndexStep(s: System, p: ProcId, j: JobStep)
    requires Inv(s) && p in s.procs && j.LockIndex? && CanJob(s, p, j)
    ensures Inv(DoJob(s, p, j))
  {
    assert LeaseOk(s, p) && JobOk(s, p);
    Establish(s, DoJob(s, p, j), p, None);
  }

  /** A process gives up the index lock, and the lock on a Box it was creating. */
  lemma JobEnds(s: System, t: System, p: ProcId)
    requires Inv(s) && p in s.procs && s.procs[p].job != NoJob && !UsesIndex(s, p)
    requires t.listing != [] && t == FreeIndex(Unlist(s, p), p).(listing := t.listing)
    ensures Inv(t)
  {
    JobEndsFrame(s, t, p);
    assert LeaseOk(s, p) && JobOk(s, p);
    Establish(s, t, p, None);
  }

  lemma JobEndsFrame(s: System, t: System, p: ProcId)
    requires Inv(s) && p in s.procs && s.procs[p].job != NoJob
    requires t.listing != [] && t == FreeIndex(Unlist(s, p), p).(listing := t.listing)
    ensures Frame(s, t, p, None)
  {
    assert JobOk(s, p);
  }

  lemma KillKeeps(s: System, p: ProcId)
    requires Inv(s) && p in s.procs
    ensures Inv(DoKill(s, p))
  {
    assert LeaseOk(s, p) && JobOk(s, p);
    var t := if HasLease(s, p) then Drop(s, p) else s;
    if HasLease(s, p) {
      DropKeeps(s, t, p);
    }
    JobKilled(t, p);
  }

  lemma JobKilled(s: System, p: ProcId)
    requires Inv(s) && p in s.procs && s.procs[p].lease.None?
    ensures Inv(SetProc(Unlist(s, p), p, Proc(None, NoJob)).(index := if s.index == Some(p) then None else s.index))
  {
    assert JobOk(s, p);
    var t := SetProc(Unlist(s, p), p, Proc(None, NoJob));
    Establish(s, t.(index := if s.index == Some(p) then None else s.index), p, None);
  }

  /** A copy staged from a base image, a checkpoint, a bundle or a Ready Box is clean. */
  lemma StageIsClean(s: System, p: ProcId, j: JobStep)
    requires Inv(s) && p in s.procs && j.Stage? && CanJob(s, p, j)
    ensures SourceTainted(s, p, j.source) ==> s.dirtyClone || ClonesDirty(s, p, j.source)
  {
    assert LeaseOk(s, p);
    if j.source.FromCheckpoint? {
      assert CheckpointOk(s, j.source.checkpoint);
    }
  }

  lemma StageStep(s: System, p: ProcId, j: JobStep)
    requires Inv(s) && p in s.procs && j.Stage? && CanJob(s, p, j)
    ensures Inv(DoJob(s, p, j))
  {
    StageLease(s, p, j);
    StageJob(s, p, j);
    StageFrame(s, p, j);
    Establish(s, DoJob(s, p, j), p, None);
  }

  lemma StageLease(s: System, p: ProcId, j: JobStep)
    requires Inv(s) && p in s.procs && j.Stage? && CanJob(s, p, j)
    ensures LeaseOk(DoJob(s, p, j), p)
  {
    if s.procs[p].lease.Some? {
      assert LeaseOk(s, p);
      LeaseFacts(s, p);
    }
  }

  lemma StageJob(s: System, p: ProcId, j: JobStep)
    requires Inv(s) && p in s.procs && j.Stage? && CanJob(s, p, j)
    ensures JobOk(DoJob(s, p, j), p)
  {
    assert JobOk(s, p);
    StageIsClean(s, p, j);
  }

  lemma StageFrame(s: System, p: ProcId, j: JobStep)
    requires Inv(s) && p in s.procs && j.Stage? && CanJob(s, p, j)
    ensures Frame(s, DoJob(s, p, j), p, None)
  {
  }

  lemma PublishStep(s: System, p: ProcId)
    requires Inv(s) && p in s.procs && CanJob(s, p, Publish)
    ensures Inv(DoJob(s, p, Publish))
  {
    var t, id := DoJob(s, p, Publish), s.procs[p].job.id;
    assert LeaseOk(s, p) && JobOk(s, p);
    forall q | q in s.procs && q != p
      ensures Elsewhere(s.procs[q], Some(id))
    {
      assert LeaseOk(s, q) && JobOk(s, q);
    }
    Establish(s, t, p, Some(id));
  }

  lemma JobKeeps(s: System, p: ProcId, j: JobStep)
    requires Inv(s) && p in s.procs && CanJob(s, p, j)
    ensures Inv(DoJob(s, p, j))
  {
    assert JobOk(s, p);
    match j
    case LockIndex(_, _) => LockIndexStep(s, p, j);
    case Stage(_, _, _, _) => StageStep(s, p, j);
    case Publish => PublishStep(s, p);
    case _ => JobEnds(s, DoJob(s, p, j), p);
  }

  /** Steps that change neither a Box directory nor a process: checkpoints and tombstones. */
  lemma SideKeeps(s: System, t: System, c: CheckpointId)
    requires Inv(s)
    requires t == s.(cleared := t.cleared, checkpoints := t.checkpoints, owner := t.owner, tainted := t.tainted)
    requires forall d :: d in s.owner ==> d in t.owner && t.owner[d] == s.owner[d]
    requires forall d :: d in s.owner && d in t.tainted ==> d in s.tainted
    requires forall k :: k in t.checkpoints && k != c ==> k in s.checkpoints && t.checkpoints[k] == s.checkpoints[k]
    requires c in t.checkpoints ==> CheckpointOk(t, c)
    ensures Inv(t)
  {
    forall b | b in t.dirs ensures DirOk(t, b) {
      assert DirOk(s, b);
      SameImages(s, t, b);
    }
    forall p | p in t.procs ensures LeaseOk(t, p) && JobOk(t, p) {
      assert LeaseOk(s, p) && JobOk(s, p);
      if s.procs[p].lease.Some? {
        LeaseFacts(s, p);
      }
    }
    forall k | k in t.checkpoints ensures CheckpointOk(t, k) {
      assert k != c ==> CheckpointOk(s, k);
    }
  }

  lemma CrashKeeps(s: System, a: Action)
    requires Inv(s) && a.HostCrash? && Enabled(s, a)
    ensures Inv(Do(s, a))
  {
    var t := Do(s, a);
    forall b | b in t.dirs ensures DirOk(t, b) {
      assert DirOk(s, b) && ImageOk(s, b, s.dirs[b][a.states[b]]);
    }
    forall c | c in t.checkpoints ensures CheckpointOk(t, c) {
      assert CheckpointOk(s, c);
    }
  }

  /** Every step keeps the invariant, also a failed write, a killed process and a host crash. */
  lemma StepKeepsInv(s: System, a: Action)
    requires Inv(s) && Enabled(s, a)
    ensures Inv(Do(s, a))
  {
    match a
    case Acquire(p, b) => AcquireKeeps(s, p, b);
    case Use(p, u) => UseKeeps(s, p, u);
    case OnFile(p, f) => FileKeeps(s, p, f);
    case InJob(p, j) => JobKeeps(s, p, j);
    case Clear(b) => SideKeeps(s, Do(s, a), 0); 
    case DeleteCheckpoint(c) => SideKeeps(s, Do(s, a), c);
    case Kill(p) => KillKeeps(s, p);
    case HostCrash(_, _, _) => CrashKeeps(s, a);
  }

  /** A store at rest: no process is active and nothing is unsynced. */
  predicate Initial(s: System) {
    && |s.listing| == 1 && s.locks == map[] && s.index == None
    && (forall p :: p in s.procs ==> s.procs[p] == Proc(None, NoJob))
    && (forall b :: b in s.dirs ==> |s.dirs[b]| == 1 && ImageOk(s, b, s.dirs[b][0]))
    && (forall c :: c in s.checkpoints ==> CheckpointOk(s, c))
  }

  lemma InitialInv(s: System)
    requires Initial(s)
    ensures Inv(s)
  {
    forall b | b in s.dirs ensures DirOk(s, b) {
      assert ImageOk(s, b, s.dirs[b][0]);
    }
  }

  /** Any interleaving of actions. */
  ghost predicate IsRun(states: seq<System>, actions: seq<Action>) {
    && |states| == |actions| + 1 && Initial(states[0])
    && forall i :: 0 <= i < |actions| ==> StepOf(states[i], actions[i], states[i + 1])
  }

  ghost predicate StepOf(s: System, a: Action, t: System) {
    Shaped(s) && Enabled(s, a) && t == Do(s, a)
  }

  lemma {:induction false} RunKeepsInv(states: seq<System>, actions: seq<Action>, i: nat)
    requires IsRun(states, actions) && i < |states|
    ensures Inv(states[i])
  {
    if i == 0 {
      InitialInv(states[0]);
    } else {
      RunKeepsInv(states, actions, i - 1);
      assert StepOf(states[i - 1], actions[i - 1], states[i]);
      StepKeepsInv(states[i - 1], actions[i - 1]);
    }
  }

  /** A Box with a guest on it is Dirty for every reader, and would be after a crash. */
  ghost predicate ExposedIsDirty(s: System) {
    forall p :: HasLease(s, p) && LeaseOf(s, p).activity == Guest ==>
      var b := LeaseOf(s, p).box;
      |s.dirs[b]| == 1 && s.dirs[b][0].meta.state == Dirty && s.dirs[b][0].meta.schema == SCHEMA_VERSION
  }

  /** Where the metadata reads Ready, now or after a crash, the disk is clean. */
  ghost predicate ReadyIsClean(s: System) {
    forall b, i :: b in s.dirs && 0 <= i < |s.dirs[b]| && ReadsReady(s.dirs[b][i].meta) ==>
      s.dirs[b][i].disk !in s.tainted
  }

  /** Crash-safe dirty tracking over whole runs. */
  lemma DirtyTracking(states: seq<System>, actions: seq<Action>, i: nat)
    requires IsRun(states, actions) && i < |states|
    ensures ExposedIsDirty(states[i])
    ensures !states[i].dirtyClone ==> ReadyIsClean(states[i])
  {
    RunKeepsInv(states, actions, i);
    var s := states[i];
    forall p | HasLease(s, p) && LeaseOf(s, p).activity == Guest
      ensures var b := LeaseOf(s, p).box;
        |s.dirs[b]| == 1 && s.dirs[b][0].meta.state == Dirty && s.dirs[b][0].meta.schema == SCHEMA_VERSION
    {
      assert LeaseOk(s, p);
    }
    forall b, i | b in s.dirs && 0 <= i < |s.dirs[b]| && ReadsReady(s.dirs[b][i].meta)
      ensures Clean(s, s.dirs[b][i].disk)
    {
      assert DirOk(s, b) && ImageOk(s, b, s.dirs[b][i]);
    }
  }

  /** A Box durably marked NeedsRepair, on which no call that could write is under way. */
  ghost predicate Blocked(s: System, b: BoxId) {
    && b in s.dirs
    && (forall i :: 0 <= i < |s.dirs[b]| ==>
          s.dirs[b][i].meta.schema == SCHEMA_VERSION && s.dirs[b][i].meta.state == NeedsRepair)
    && (forall p :: HasLease(s, p) && LeaseOf(s, p).box == b ==>
          LeaseOf(s, p).meta.state == NeedsRepair && LeaseOf(s, p).activity == Held)
  }

  /** What a step has to leave alone for a Box to stay blocked. */
  ghost predicate Untouched(s: System, t: System, b: BoxId) {
    && b in s.dirs && b in t.dirs && t.dirs[b] == s.dirs[b]
    && s.listing != [] && t.listing != [] && (b in Last(s.listing) ==> b in Last(t.listing))
    && forall p :: HasLease(t, p) && LeaseOf(t, p).box == b ==> HasLease(s, p) && LeaseOf(t, p) == LeaseOf(s, p)
  }

  lemma UseUntouched(s: System, p: ProcId, u: UseStep, b: BoxId)
    requires Inv(s) && Blocked(s, b) && HasLease(s, p) && CanUse(s, p, u)
    ensures Untouched(s, DoUse(s, p, u), b)
  {
  }

  lemma OtherBoxUntouched(s: System, t: System, p: ProcId, b: BoxId)
    requires Blocked(s, b) && s.listing != []
    requires p in t.procs && t.procs == s.procs[p := t.procs[p]]
    requires t.procs[p].lease.Some? ==> t.procs[p].lease.value.box != b
    requires b in t.dirs && t.dirs[b] == s.dirs[b]
    requires t.listing != [] && (b in Last(s.listing) ==> b in Last(t.listing))
    ensures Untouched(s, t, b)
  {
  }

  lemma SyncUntouched(s: System, p: ProcId, b: BoxId)
    requires Inv(s) && Blocked(s, b) && HasLease(s, p) && CanFile(s, p, Sync)
    ensures Untouched(s, DoFile(s, p, Sync), b)
  {
    var l := LeaseOf(s, p);
    var synced := s.(dirs := s.dirs[l.box := [VisibleOf(s, p)]]);
    assert DoFile(s, p, Sync) == AfterSync(synced, p, l.activity.next, l.activity.call);
    OtherBoxUntouched(s, DoFile(s, p, Sync), p, b);
  }

  lemma FileUntouched(s: System, p: ProcId, f: FileStep, b: BoxId)
    requires Inv(s) && Blocked(s, b) && HasLease(s, p) && CanFile(s, p, f) && !f.Sync?
    ensures Untouched(s, DoFile(s, p, f), b)
  {
    assert LeaseOf(s, p).box != b;
    OtherBoxUntouched(s, DoFile(s, p, f), p, b);
  }

  lemma JobUntouched(s: System, p: ProcId, j: JobStep, b: BoxId)
    requires Inv(s) && Blocked(s, b) && p in s.procs && CanJob(s, p, j)
    ensures Untouched(s, DoJob(s, p, j), b)
  {
    assert JobOk(s, p);
  }

  lemma AcquireUntouched(s: System, p: ProcId, c: BoxId, b: BoxId)
    requires Inv(s) && Blocked(s, b) && Enabled(s, Acquire(p, c))
    ensures Untouched(s, DoAcquire(s, p, c), b)
  {
    assert DirOk(s, b) && Visible(s, b) in s.dirs[b];
  }

  lemma OtherUntouched(s: System, a: Action, b: BoxId)
    requires Inv(s) && Blocked(s, b) && (a.Clear? || a.DeleteCheckpoint? || a.Kill?) && Enabled(s, a)
    ensures Untouched(s, Do(s, a), b)
  {
  }

  lemma StillBlocked(s: System, t: System, b: BoxId)
    requires Blocked(s, b) && Untouched(s, t, b)
    ensures Blocked(t, b)
  {
  }

  lemma CrashBlocked(s: System, a: Action, b: BoxId)
    requires Inv(s) && Blocked(s, b) && a.HostCrash? && Enabled(s, a)
    ensures Blocked(Do(s, a), b)
  {
    assert Do(s, a).dirs[b] == [s.dirs[b][a.states[b]]];
  }

  /** No store operation leaves NeedsRepair: the Box keeps its state and its disk, and is not deleted. */
  lemma NeedsRepairIsAbsorbing(s: System, a: Action, b: BoxId)
    requires Inv(s) && Enabled(s, a) && Blocked(s, b)
    ensures Blocked(Do(s, a), b)
    ensures !a.HostCrash? ==> Untouched(s, Do(s, a), b)
  {
    match a
    case Use(p, u) => UseUntouched(s, p, u, b);
    case OnFile(p, f) =>
      if f.Sync? { SyncUntouched(s, p, b); } else { FileUntouched(s, p, f, b); }
    case InJob(p, j) => JobUntouched(s, p, j, b);
    case Acquire(p, c) => AcquireUntouched(s, p, c, b);
    case HostCrash(_, _, _) => CrashBlocked(s, a, b);
    case _ => OtherUntouched(s, a, b);
    if !a.HostCrash? {
      StillBlocked(s, Do(s, a), b);
    }
  }

  // The clone that `clone_box` makes without testing the state of its source.

  /** A clone reads Ready whatever its source; its disk is clean exactly when the disk it copies is. A
      source that reports Ready is clean; one that reports Dirty may be either. */
  lemma CloneIsCleanIff(s: System, p: ProcId, j: JobStep)
    requires Inv(s) && !s.dirtyClone
    requires p in s.procs && j.Stage? && j.source.FromLease? && CanJob(s, p, j)
    ensures DoJob(s, p, j).procs[p].job.image.disk !in DoJob(s, p, j).tainted
            <==> VisibleOf(s, p).disk !in s.tainted
    ensures ReadsReady(DoJob(s, p, j).procs[p].job.image.meta)
    ensures LeaseOf(s, p).meta.state == Ready ==> VisibleOf(s, p).disk !in s.tainted
  {
    LeaseFacts(s, p);
  }
}
