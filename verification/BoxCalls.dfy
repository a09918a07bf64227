/**
 What the calls of the Box store achieve. Each call is the list of its system calls; run from a state in which
 its caller may make it, every one of them can be taken, and the store ends in exactly the state given here.
 The metadata calls are then followed through any interleaving with other processes.
 */
module BoxCalls {
  import opened Base
  import opened Boxes
  import opened BoxProtocol
  import opened BoxSafety

  /** The state after some actions in a row, if each of them can be taken. */
  function After(s: System, actions: seq<Action>): Option<System>
    decreases |actions|
  {
    if actions == [] then Some(s)
    else if Shaped(s) && Enabled(s, actions[0]) then After(Do(s, actions[0]), actions[1..])
    else None
  }

  lemma One(s: System, a: Action, t: System)
    requires StepOf(s, a, t)
    ensures After(s, [a]) == Some(t)
  {
    assert [a][1..] == [];
  }

  lemma Two(s: System, a: Action, b: Action, s1: System, s2: System)
    requires StepOf(s, a, s1) && StepOf(s1, b, s2)
    ensures After(s, [a, b]) == Some(s2)
  {
    assert [a, b][1..] == [b] && [b][1..] == [];
    assert After(s1, [b]) == After(s2, []);
  }

  lemma Then(s: System, a: Action, rest: seq<Action>, s1: System, s2: System)
    requires StepOf(s, a, s1) && After(s1, rest) == Some(s2)
    ensures After(s, [a] + rest) == Some(s2)
  {
    assert ([a] + rest)[1..] == rest;
  }

  // Building blocks, in terms of the fields.

  /** Process `p` leases Box `b` with this metadata and activity, beside a job. */
  predicate Leases(s: System, p: ProcId, l: Lease, job: Job) {
    Shaped(s) && p in s.procs && s.procs[p] == Proc(Some(l), job) && l.box in s.dirs
  }

  function WithProc(s: System, p: ProcId, proc: Proc): System { s.(procs := s.procs[p := proc]) }

  lemma RenameIs(s: System, p: ProcId, l: Lease, job: Job, next: Metadata, call: Call, t: System)
    requires Leases(s, p, l, job) && l.activity == Writing(next, call)
    requires t == s.(dirs := s.dirs[l.box := s.dirs[l.box] + [Image(next, Visible(s, l.box).disk)]],
                     procs := s.procs[p := Proc(Some(l.(activity := Renamed(next, call))), job)])
    ensures StepOf(s, OnFile(p, Rename), t)
  {
  }

  lemma SyncIs(s: System, p: ProcId, l: Lease, job: Job, next: Metadata, call: Call)
    requires Leases(s, p, l, job) && l.activity == Renamed(next, call)
    ensures StepOf(s, OnFile(p, Sync), AfterSync(s.(dirs := s.dirs[l.box := [Visible(s, l.box)]]), p, next, call))
  {
  }

  /** A metadata write that has reached its temporary file becomes the only state of the directory. */
  lemma WriteReachesDisk(s: System, p: ProcId, l: Lease, job: Job, next: Metadata, call: Call, t: System)
    requires Leases(s, p, l, job) && l.activity == Writing(next, call)
    requires var b, disk := l.box, Visible(s, l.box).disk;
      t == s.(dirs := s.dirs[b := [Image(next, disk)]],
              procs := s.procs[p := Proc(Some(l.(activity := Renamed(next, call))), job)])
    ensures After(s, [OnFile(p, Rename), OnFile(p, Sync)])
         == Some(AfterSync(t, p, next, call))
  {
    var b, image := l.box, Image(next, Visible(s, l.box).disk);
    var renamed := t.(dirs := s.dirs[b := s.dirs[b] + [image]]);
    RenameIs(s, p, l, job, next, call, renamed);
    SyncIs(renamed, p, l.(activity := Renamed(next, call)), job, next, call);
    assert renamed.dirs[b := [image]] == t.dirs;
    Two(s, OnFile(p, Rename), OnFile(p, Sync), renamed, AfterSync(t, p, next, call));
  }

  // The calls of a leaseholder.

  /** `begin_writable_use`: the Box is durably Dirty before a guest may start. */
  lemma BeginCall(s: System, p: ProcId, l: Lease, job: Job)
    requires Leases(s, p, l, job) && l.activity == Held && l.meta.state == Ready
    ensures var m := l.meta.(state := Dirty);
      After(s, [Use(p, BeginUse), OnFile(p, Rename), OnFile(p, Sync)])
      == Some(s.(dirs := s.dirs[l.box := [Image(m, Visible(s, l.box).disk)]],
                 procs := s.procs[p := Proc(Some(Lease(l.box, m, Armed)), job)]))
  {
    WriteCall(s, p, l, job, BeginUse, l.meta.(state := Dirty), Begin);
  }

  /** `finish_clean_use` and `finish_repair`: the Box is durably Ready again. */
  lemma FinishCall(s: System, p: ProcId, l: Lease, job: Job)
    requires Leases(s, p, l, job) && l.activity == Certified && l.meta.state == Dirty
    ensures var m := l.meta.(state := Ready);
      After(s, [Use(p, FinishUse), OnFile(p, Rename), OnFile(p, Sync)])
      == Some(s.(dirs := s.dirs[l.box := [Image(m, Visible(s, l.box).disk)]],
                 procs := s.procs[p := Proc(Some(Lease(l.box, m, Held)), job)]))
  {
    WriteCall(s, p, l, job, FinishUse, l.meta.(state := Ready), Finish);
  }

  /** `mark_needs_repair`: the Box is durably blocked. */
  lemma MarkCall(s: System, p: ProcId, l: Lease, job: Job)
    requires Leases(s, p, l, job) && l.activity == Held && l.meta.state == Dirty
    ensures var m := l.meta.(state := NeedsRepair);
      After(s, [Use(p, MarkNeedsRepair), OnFile(p, Rename), OnFile(p, Sync)])
      == Some(s.(dirs := s.dirs[l.box := [Image(m, Visible(s, l.box).disk)]],
                 procs := s.procs[p := Proc(Some(Lease(l.box, m, Held)), job)]))
  {
    WriteCall(s, p, l, job, MarkNeedsRepair, l.meta.(state := NeedsRepair), Block);
  }

  /** One metadata write of a lease that goes on afterwards. */
  lemma WriteCall(s: System, p: ProcId, l: Lease, job: Job, u: UseStep, next: Metadata, call: Call)
    requires Leases(s, p, l, job) && CanUse(s, p, u)
    requires DoUse(s, p, u) == WithProc(s, p, Proc(Some(l.(activity := Writing(next, call))), job))
    requires call == Begin || call == Finish || call == Block
    ensures After(s, [Use(p, u), OnFile(p, Rename), OnFile(p, Sync)])
      == Some(s.(dirs := s.dirs[l.box := [Image(next, Visible(s, l.box).disk)]],
                 procs := s.procs[p := Proc(Some(Lease(l.box, next, if call == Begin then Armed else Held)), job)]))
  {
    var s1 := DoUse(s, p, u);
    var b, disk := l.box, Visible(s, l.box).disk;
    var l1, l2 := l.(activity := Writing(next, call)), l.(activity := Renamed(next, call));
    var synced := s1.(dirs := s.dirs[b := [Image(next, disk)]], procs := s1.procs[p := Proc(Some(l2), job)]);
    WriteReachesDisk(s1, p, l1, job, next, call, synced);
    var l3 := Lease(b, next, if call == Begin then Armed else Held);
    assert synced.procs[p := Proc(Some(l3), job)] == s.procs[p := Proc(Some(l3), job)];
    Then(s, Use(p, u), [OnFile(p, Rename), OnFile(p, Sync)], s1, AfterSync(synced, p, next, call));
  }

  /** A guest has the disk and stops: cleanly, and the disk is certified, or not, and it stays exposed. */
  lemma GuestRun(s: System, p: ProcId, l: Lease, job: Job, clean: bool)
    requires Leases(s, p, l, job) && l.activity == Armed
    ensures var disk := Visible(s, l.box).disk;
      After(s, [Use(p, Expose), Use(p, GuestExit(clean))])
      == Some(s.(procs := s.procs[p := Proc(Some(l.(activity := if clean then Certified else Held)), job)],
                 tainted := if clean then s.tainted - {disk} else s.tainted + {disk}))
  {
    var disk := Visible(s, l.box).disk;
    var s1 := WithProc(s, p, Proc(Some(l.(activity := Guest)), job)).(tainted := s.tainted + {disk});
    var last := Proc(Some(l.(activity := if clean then Certified else Held)), job);
    assert s1.procs[p := last] == s.procs[p := last];
    assert s.tainted + {disk} - {disk} == s.tainted - {disk};
    var s2 := WithProc(s, p, last).(tainted := if clean then s.tainted - {disk} else s.tainted + {disk});
    assert StepOf(s, Use(p, Expose), s1);
    assert StepOf(s1, Use(p, GuestExit(clean)), s2);
    Two(s, Use(p, Expose), Use(p, GuestExit(clean)), s1, s2);
  }

  /** e2fsck on a Dirty Box certifies its disk. */
  lemma FsckRun(s: System, p: ProcId, l: Lease, job: Job)
    requires Leases(s, p, l, job) && l.activity == Held && l.meta.state == Dirty
    ensures After(s, [Use(p, Fsck)])
      == Some(s.(procs := s.procs[p := Proc(Some(l.(activity := Certified)), job)],
                 tainted := s.tainted - {Visible(s, l.box).disk}))
  {
    var t := s.(procs := s.procs[p := Proc(Some(l.(activity := Certified)), job)],
                tainted := s.tainted - {Visible(s, l.box).disk});
    assert StepOf(s, Use(p, Fsck), t);
    One(s, Use(p, Fsck), t);
  }

  lemma ReleaseCall(s: System, p: ProcId, l: Lease, job: Job)
    requires Leases(s, p, l, job) && l.activity in {Held, Armed, Certified}
    ensures After(s, [Use(p, Release)]) == Some(s.(procs := s.procs[p := Proc(None, job)], locks := s.locks - {l.box}))
  {
    var t := s.(procs := s.procs[p := Proc(None, job)], locks := s.locks - {l.box});
    assert StepOf(s, Use(p, Release), t);
    One(s, Use(p, Release), t);
  }

  /** `reset`: the replacement is the disk, the next generation is Ready, and the lease is over. */
  lemma ResetCall(s: System, p: ProcId, l: Lease, job: Job, d: DiskId)
    requires Leases(s, p, l, job) && l.activity == Held && l.meta.state != NeedsRepair
    requires d !in s.owner && d !in s.tainted
    ensures var m := l.meta.(state := Ready, generation := SatAdd(l.meta.generation, 1));
      After(s, [OnFile(p, ResetCopy(d)), OnFile(p, ResetSwap), Use(p, ResetWrite), OnFile(p, Rename), OnFile(p, Sync)])
      == Some(s.(dirs := s.dirs[l.box := [Image(m, d)]], owner := s.owner[d := OfBox(l.box)],
                 procs := s.procs[p := Proc(None, job)], locks := s.locks - {l.box}))
  {
    var swapped := ResetSwaps(s, p, l, job, d);
    var last := ResetWrites(swapped, p, l.(activity := Swapped), job);
    assert swapped.dirs[l.box := last.dirs[l.box]] == s.dirs[l.box := last.dirs[l.box]];
    assert swapped.procs[p := Proc(None, job)] == s.procs[p := Proc(None, job)];
    ThenTwo(s, OnFile(p, ResetCopy(d)), OnFile(p, ResetSwap), [Use(p, ResetWrite), OnFile(p, Rename), OnFile(p, Sync)],
            swapped, last);
  }

  /** The metadata of a reset, once its disk is in place. */
  lemma ResetWrites(s: System, p: ProcId, l: Lease, job: Job) returns (t: System)
    requires Leases(s, p, l, job) && l.activity == Swapped
    ensures After(s, [Use(p, ResetWrite), OnFile(p, Rename), OnFile(p, Sync)]) == Some(t)
    ensures var m := l.meta.(state := Ready, generation := SatAdd(l.meta.generation, 1));
      t == s.(dirs := s.dirs[l.box := [Image(m, Visible(s, l.box).disk)]],
              procs := s.procs[p := Proc(None, job)], locks := s.locks - {l.box})
  {
    var b, disk := l.box, Visible(s, l.box).disk;
    var m := l.meta.(state := Ready, generation := SatAdd(l.meta.generation, 1));
    var l1, l2 := l.(activity := Writing(m, Reset)), l.(activity := Renamed(m, Reset));
    var s1 := WithProc(s, p, Proc(Some(l1), job));
    assert StepOf(s, Use(p, ResetWrite), s1);
    var synced := s1.(dirs := s.dirs[b := [Image(m, disk)]], procs := s1.procs[p := Proc(Some(l2), job)]);
    WriteReachesDisk(s1, p, l1, job, m, Reset, synced);
    assert synced.procs[p := Proc(None, job)] == s.procs[p := Proc(None, job)];
    t := AfterSync(synced, p, m, Reset);
    Then(s, Use(p, ResetWrite), [OnFile(p, Rename), OnFile(p, Sync)], s1, t);
  }

  lemma ThenTwo(s: System, a: Action, b: Action, rest: seq<Action>, s2: System, last: System)
    requires After(s, [a, b]) == Some(s2) && After(s2, rest) == Some(last)
    ensures After(s, [a, b] + rest) == Some(last)
  {
    var all := [a, b] + rest;
    assert [a, b][1..] == [b] && [b][1..] == [];
    assert all[1..] == [b] + rest && ([b] + rest)[1..] == rest;
    assert After(Do(s, a), [b]) == After(Do(Do(s, a), b), []);
  }

  /** The copy is made and renamed onto the disk; the metadata is still the old one. */
  lemma ResetSwaps(s: System, p: ProcId, l: Lease, job: Job, d: DiskId) returns (t: System)
    requires Leases(s, p, l, job) && l.activity == Held && l.meta.state != NeedsRepair
    requires d !in s.owner && d !in s.tainted
    ensures After(s, [OnFile(p, ResetCopy(d)), OnFile(p, ResetSwap)]) == Some(t)
    ensures t == s.(dirs := s.dirs[l.box := s.dirs[l.box] + [Visible(s, l.box).(disk := d)]],
                    owner := s.owner[d := OfBox(l.box)],
                    procs := s.procs[p := Proc(Some(l.(activity := Swapped)), job)])
  {
    var s1 := WithProc(s, p, Proc(Some(l.(activity := Copied(d))), job)).(owner := s.owner[d := OfBox(l.box)]);
    assert StepOf(s, OnFile(p, ResetCopy(d)), s1);
    var last := Proc(Some(l.(activity := Swapped)), job);
    assert s1.procs[p := last] == s.procs[p := last];
    t := s.(dirs := s.dirs[l.box := s.dirs[l.box] + [Visible(s, l.box).(disk := d)]],
            owner := s.owner[d := OfBox(l.box)], procs := s.procs[p := last]);
    assert StepOf(s1, OnFile(p, ResetSwap), t);
    Two(s, OnFile(p, ResetCopy(d)), OnFile(p, ResetSwap), s1, t);
  }

  /** `delete`: the Box leaves the listing and its lease is over; its directory is cleared afterwards. */
  lemma DeleteCall(s: System, p: ProcId, l: Lease, job: Job)
    requires Leases(s, p, l, job) && l.activity == Held && l.meta.state != NeedsRepair
    ensures After(s, [OnFile(p, Delete), Clear(l.box)])
      == Some(s.(listing := s.listing + [Last(s.listing) - {l.box}], cleared := s.cleared + {l.box},
                 procs := s.procs[p := Proc(None, job)], locks := s.locks - {l.box}))
  {
    var s1 := s.(listing := s.listing + [Last(s.listing) - {l.box}],
                 procs := s.procs[p := Proc(None, job)], locks := s.locks - {l.box});
    assert StepOf(s, OnFile(p, Delete), s1);
    assert StepOf(s1, Clear(l.box), s1.(cleared := s.cleared + {l.box}));
    Two(s, OnFile(p, Delete), Clear(l.box), s1, s1.(cleared := s.cleared + {l.box}));
  }

  /** A checkpoint of a Ready Box: a disk of its own, exposed exactly if the copied one is. */
  lemma CheckpointCall(s: System, p: ProcId, l: Lease, job: Job, c: CheckpointId, d: DiskId)
    requires Leases(s, p, l, job) && l.activity == Held && l.meta.state == Ready
    requires c !in s.checkpoints && d !in s.owner && d !in s.tainted
    ensures After(s, [OnFile(p, CreateCheckpoint(c, d))])
      == Some(s.(checkpoints := s.checkpoints[c := d], owner := s.owner[d := OfCheckpoint(c)],
                 tainted := if Visible(s, l.box).disk in s.tainted then s.tainted + {d} else s.tainted))
  {
    One(s, OnFile(p, CreateCheckpoint(c, d)), Do(s, OnFile(p, CreateCheckpoint(c, d))));
  }

  // Acquiring, and the calls under the index lock.

  /** `try_acquire` of a current Box that does not need repair. */
  lemma AcquireCall(s: System, p: ProcId, b: BoxId, job: Job)
    requires Shaped(s) && p in s.procs && s.procs[p] == Proc(None, job) && b !in s.locks && Readable(s, b)
    requires Visible(s, b).meta.schema == SCHEMA_VERSION && Visible(s, b).meta.state != NeedsRepair
    ensures After(s, [Acquire(p, b)])
      == Some(s.(procs := s.procs[p := Proc(Some(Lease(b, Visible(s, b).meta, Held)), job)], locks := s.locks[b := p]))
  {
    One(s, Acquire(p, b), Do(s, Acquire(p, b)));
  }

  /** What can be acquired: a listed Box that was not deleted, is not locked and does not need repair. */
  lemma AcquireNeeds(s: System, p: ProcId, b: BoxId)
    requires Shaped(s) && Enabled(s, Acquire(p, b))
    ensures p in s.procs && s.procs[p].lease == None && b !in s.locks
    ensures b in s.listing[|s.listing| - 1] && b !in s.cleared && b in s.dirs
    ensures var m := Visible(s, b).meta;
      1 <= m.schema <= 3 && (m.schema == 3 ==> m.state != NeedsRepair)
  {
  }

  /** What can be copied: nothing half written, and no Box that needs repair. */
  lemma CopyNeeds(s: System, p: ProcId, id: BoxId, d: DiskId, source: Source, request: Metadata)
    requires Shaped(s) && Enabled(s, InJob(p, Stage(id, d, source, request)))
    ensures Unused(s, id) && d !in s.owner && CanCopy(s, p, source)
    ensures source.FromLease? ==> LeaseOf(s, p).activity == Held && LeaseOf(s, p).meta.state != NeedsRepair
  {
  }

  /** `try_acquire` of an older Box migrates it first: Ready is not trusted, and NeedsRepair ends the lease. */
  lemma MigrateCall(s: System, p: ProcId, b: BoxId, job: Job)
    requires Shaped(s) && p in s.procs && s.procs[p] == Proc(None, job) && b !in s.locks && Readable(s, b)
    requires Visible(s, b).meta.schema < SCHEMA_VERSION
    ensures var was, disk := Visible(s, b).meta, Visible(s, b).disk;
      var m := was.(schema := SCHEMA_VERSION, state := if was.state == Ready then Dirty else was.state);
      After(s, [Acquire(p, b), OnFile(p, Rename), OnFile(p, Sync)])
      == Some(if m.state == NeedsRepair then s.(dirs := s.dirs[b := [Image(m, disk)]])
              else s.(dirs := s.dirs[b := [Image(m, disk)]], locks := s.locks[b := p],
                      procs := s.procs[p := Proc(Some(Lease(b, m, Held)), job)]))
  {
    var m, disk := Migrated(Visible(s, b).meta), Visible(s, b).disk;
    var l1, l2 := Lease(b, m, Writing(m, Migrate)), Lease(b, m, Renamed(m, Migrate));
    var s1 := WithProc(s, p, Proc(Some(l1), job)).(locks := s.locks[b := p]);
    assert StepOf(s, Acquire(p, b), s1);
    var synced := s1.(dirs := s.dirs[b := [Image(m, disk)]], procs := s1.procs[p := Proc(Some(l2), job)]);
    WriteReachesDisk(s1, p, l1, job, m, Migrate, synced);
    MigrateEnds(s, synced, p, b, m, job);
    Then(s, Acquire(p, b), [OnFile(p, Rename), OnFile(p, Sync)], s1, AfterSync(synced, p, m, Migrate));
  }

  lemma MigrateEnds(s: System, synced: System, p: ProcId, b: BoxId, m: Metadata, job: Job)
    requires p in s.procs && s.procs[p] == Proc(None, job) && b !in s.locks && b in synced.dirs
    requires synced == s.(dirs := synced.dirs, locks := s.locks[b := p],
                          procs := s.procs[p := Proc(Some(Lease(b, m, Renamed(m, Migrate))), job)])
    ensures AfterSync(synced, p, m, Migrate)
      == if m.state == NeedsRepair then s.(dirs := synced.dirs)
         else synced.(procs := s.procs[p := Proc(Some(Lease(b, m, Held)), job)])
  {
    var held := Proc(Some(Lease(b, m, Held)), job);
    assert s.locks[b := p] - {b} == s.locks;
    assert synced.procs[p := Proc(None, job)] == s.procs;
    assert synced.procs[p := held] == s.procs[p := held];
  }

  /** A job that is given up: the index is free, and a Box that was just listed is unlocked. */
  lemma EndJobCall(s: System, p: ProcId, lease: Option<Lease>, job: Job)
    requires Shaped(s) && p in s.procs && s.procs[p] == Proc(lease, job) && job != NoJob && !UsesIndex(s, p)
    ensures After(s, [InJob(p, EndJob)])
      == Some(s.(procs := s.procs[p := Proc(lease, NoJob)], index := None,
                 locks := if job.Listed? then s.locks - {job.id} else s.locks))
  {
    One(s, InJob(p, EndJob), Do(s, InJob(p, EndJob)));
  }

  /** The new name of an update: none, the old one, or the one that was asked for. */
  predicate Wanted(name: Option<string>, asked: Option<string>, was: Option<string>) {
    name == was || name == None || name == asked
  }

  /** `update`: the Box durably has the new name, and all locks are free again. */
  lemma UpdateCall(s: System, p: ProcId, b: BoxId, asked: Option<string>, name: Option<string>)
    requires Shaped(s) && p in s.procs && s.procs[p] == Proc(None, NoJob) && s.index == None && b !in s.locks
    requires Readable(s, b) && NameFree(s, asked, Some(b)) && Wanted(name, asked, Visible(s, b).meta.name)
    requires Visible(s, b).meta.schema == SCHEMA_VERSION && Visible(s, b).meta.state != NeedsRepair
    ensures var m := Visible(s, b).meta.(name := name);
      After(s, [InJob(p, LockIndex(asked, Some(b))), Acquire(p, b)]
               + [Use(p, UpdateWrite(name)), OnFile(p, Rename), OnFile(p, Sync)])
      == Some(s.(dirs := s.dirs[b := [Image(m, Visible(s, b).disk)]]))
  {
    var s2 := UpdateLeases(s, p, b, asked);
    var last := UpdateWrites(s2, p, Lease(b, Visible(s, b).meta, Held), asked, name);
    LocksAreFree(s, s2, p, b, last, Image(Visible(s, b).meta.(name := name), Visible(s, b).disk));
    ThenTwo(s, InJob(p, LockIndex(asked, Some(b))), Acquire(p, b),
            [Use(p, UpdateWrite(name)), OnFile(p, Rename), OnFile(p, Sync)], s2, last);
  }

  /** All that is left of an update is its image. */
  lemma LocksAreFree(s: System, leased: System, p: ProcId, b: BoxId, last: System, image: Image)
    requires p in s.procs && s.procs[p] == Proc(None, NoJob) && s.index == None && b !in s.locks && p in leased.procs
    requires leased == s.(procs := s.procs[p := leased.procs[p]], index := Some(p), locks := s.locks[b := p])
    requires last == leased.(dirs := s.dirs[b := [image]], procs := leased.procs[p := Proc(None, NoJob)],
                             locks := leased.locks - {b}, index := None)
    ensures last == s.(dirs := s.dirs[b := [image]])
  {
    assert s.locks[b := p] - {b} == s.locks;
    assert leased.procs[p := Proc(None, NoJob)] == s.procs;
  }

  lemma UpdateLeases(s: System, p: ProcId, b: BoxId, asked: Option<string>) returns (t: System)
    requires Shaped(s) && p in s.procs && s.procs[p] == Proc(None, NoJob) && s.index == None && b !in s.locks
    requires Readable(s, b) && NameFree(s, asked, Some(b))
    requires Visible(s, b).meta.schema == SCHEMA_VERSION && Visible(s, b).meta.state != NeedsRepair
    ensures After(s, [InJob(p, LockIndex(asked, Some(b))), Acquire(p, b)]) == Some(t)
    ensures t == s.(procs := s.procs[p := Proc(Some(Lease(b, Visible(s, b).meta, Held)), Checked(asked, Some(b)))],
                    index := Some(p), locks := s.locks[b := p])
  {
    var job := Checked(asked, Some(b));
    var s1 := WithProc(s, p, Proc(None, job)).(index := Some(p));
    assert StepOf(s, InJob(p, LockIndex(asked, Some(b))), s1);
    t := WithProc(s1, p, Proc(Some(Lease(b, Visible(s, b).meta, Held)), job)).(locks := s.locks[b := p]);
    assert StepOf(s1, Acquire(p, b), t);
    Two(s, InJob(p, LockIndex(asked, Some(b))), Acquire(p, b), s1, t);
  }

  lemma UpdateWrites(s: System, p: ProcId, l: Lease, asked: Option<string>, name: Option<string>) returns (t: System)
    requires Leases(s, p, l, Checked(asked, Some(l.box))) && l.activity == Held && l.meta.state != NeedsRepair
    requires Wanted(name, asked, l.meta.name)
    ensures After(s, [Use(p, UpdateWrite(name)), OnFile(p, Rename), OnFile(p, Sync)]) == Some(t)
    ensures t == s.(dirs := s.dirs[l.box := [Image(l.meta.(name := name), Visible(s, l.box).disk)]],
                    procs := s.procs[p := Proc(None, NoJob)], locks := s.locks - {l.box}, index := None)
  {
    var b, m, disk, job := l.box, l.meta.(name := name), Visible(s, l.box).disk, Checked(asked, Some(l.box));
    var l1, l2 := l.(activity := Writing(m, Update)), l.(activity := Renamed(m, Update));
    var s1 := WithProc(s, p, Proc(Some(l1), job));
    assert StepOf(s, Use(p, UpdateWrite(name)), s1);
    var synced := s1.(dirs := s.dirs[b := [Image(m, disk)]], procs := s1.procs[p := Proc(Some(l2), job)]);
    WriteReachesDisk(s1, p, l1, job, m, Update, synced);
    t := AfterSync(synced, p, m, Update);
    UpdateEnds(s, synced, p, l2, job, m);
    Then(s, Use(p, UpdateWrite(name)), [OnFile(p, Rename), OnFile(p, Sync)], s1, t);
  }

  /** The sync of an update ends its lease and its job. */
  lemma UpdateEnds(s: System, synced: System, p: ProcId, l: Lease, job: Job, m: Metadata)
    requires p in s.procs && p in synced.procs && synced.procs == s.procs[p := synced.procs[p]]
    requires Leases(synced, p, l, job)
    ensures AfterSync(synced, p, m, Update)
      == synced.(procs := s.procs[p := Proc(None, NoJob)], locks := synced.locks - {l.box}, index := None)
  {
    assert AfterSync(synced, p, m, Update).procs == s.procs[p := Proc(None, NoJob)];
  }

  /** What a new Box is made from: whether the copied disk is exposed, and the state it starts in. */
  function CopiedTaint(s: System, p: ProcId, source: Source): bool {
    match source
    case FromLease => p in s.procs && s.procs[p].lease.Some? && var b := s.procs[p].lease.value.box;
      b in s.dirs && s.dirs[b] != [] && s.dirs[b][|s.dirs[b]| - 1].disk in s.tainted
    case FromCheckpoint(c) => c in s.checkpoints && s.checkpoints[c] in s.tainted
    case _ => false
  }

  /** The source can be copied: a leased Box at rest, or a checkpoint that exists. */
  predicate CanCopy(s: System, p: ProcId, source: Source) {
    match source
    case FromLease => Resting(s, p)
    case FromCheckpoint(c) => c in s.checkpoints
    case _ => true
  }

  predicate Unused(s: System, id: BoxId) {
    id !in s.dirs && id !in s.locks && forall l :: l in s.listing ==> id !in l
  }

  /** `create`, `clone_box`, `fork` and import: the new Box is durably listed with what it was asked to be. */
  lemma CreateCall(s: System, p: ProcId, id: BoxId, d: DiskId, source: Source, name: Option<string>, request: Metadata)
    requires Shaped(s) && p in s.procs && s.procs[p].job == NoJob && s.index == None && NameFree(s, name, None)
    requires Unused(s, id) && d !in s.owner && d !in s.tainted && CanCopy(s, p, source)
    ensures var m := request.(schema := SCHEMA_VERSION, name := name,
                              state := if source == Bundle(true) then Dirty else Ready);
      var dirty := source.FromLease? && s.procs[p].lease.value.meta.state != Ready;
      After(s, [InJob(p, LockIndex(name, None)), InJob(p, Stage(id, d, source, request))]
               + [InJob(p, Publish), InJob(p, SyncListing)])
      == Some(s.(dirs := s.dirs[id := [Image(m, d)]], listing := [Last(s.listing) + {id}],
                 owner := s.owner[d := OfBox(id)], dirtyClone := s.dirtyClone || dirty,
                 tainted := if CopiedTaint(s, p, source) then s.tainted + {d} else s.tainted))
  {
    var s2 := CreateStages(s, p, id, d, source, name, request);
    var s4 := CreatePublishes(s2, p, id, s2.procs[p].job.image);
    assert s4.procs == s.procs;
    ThenTwo(s, InJob(p, LockIndex(name, None)), InJob(p, Stage(id, d, source, request)),
            [InJob(p, Publish), InJob(p, SyncListing)], s2, s4);
  }

  /** The part of a creation that makes it visible and durable. */
  lemma CreatePublishes(s: System, p: ProcId, id: BoxId, image: Image) returns (t: System)
    requires Shaped(s) && p in s.procs && s.procs[p].job == Staged(id, image) && id !in s.locks
    ensures After(s, [InJob(p, Publish), InJob(p, SyncListing)]) == Some(t)
    ensures t == s.(dirs := s.dirs[id := [image]], listing := [Last(s.listing) + {id}], index := None,
                    procs := s.procs[p := Proc(s.procs[p].lease, NoJob)])
  {
    var lease := s.procs[p].lease;
    var s1 := s.(procs := s.procs[p := Proc(lease, Listed(id))], dirs := s.dirs[id := [image]],
                 listing := s.listing + [Last(s.listing) + {id}], locks := s.locks[id := p]);
    assert StepOf(s, InJob(p, Publish), s1);
    assert s.locks[id := p] - {id} == s.locks;
    t := s.(dirs := s.dirs[id := [image]], listing := [Last(s.listing) + {id}], index := None,
            procs := s.procs[p := Proc(lease, NoJob)]);
    assert s1.procs[p := Proc(lease, NoJob)] == t.procs;
    assert StepOf(s1, InJob(p, SyncListing), t);
    Two(s, InJob(p, Publish), InJob(p, SyncListing), s1, t);
  }

  /** The part of a creation before it is visible. */
  lemma CreateStages(s: System, p: ProcId, id: BoxId, d: DiskId, source: Source, name: Option<string>,
                     request: Metadata) returns (t: System)
    requires Shaped(s) && p in s.procs && s.procs[p].job == NoJob && s.index == None && NameFree(s, name, None)
    requires Unused(s, id) && d !in s.owner && d !in s.tainted && CanCopy(s, p, source)
    ensures After(s, [InJob(p, LockIndex(name, None)), InJob(p, Stage(id, d, source, request))]) == Some(t)
    ensures var m := request.(schema := SCHEMA_VERSION, name := name,
                              state := if source == Bundle(true) then Dirty else Ready);
      var dirty := source.FromLease? && s.procs[p].lease.value.meta.state != Ready;
      t == s.(procs := s.procs[p := Proc(s.procs[p].lease, Staged(id, Image(m, d)))], index := Some(p),
              owner := s.owner[d := OfBox(id)], dirtyClone := s.dirtyClone || dirty,
              tainted := if CopiedTaint(s, p, source) then s.tainted + {d} else s.tainted)
  {
    var s1 := WithProc(s, p, Proc(s.procs[p].lease, Checked(name, None))).(index := Some(p));
    assert StepOf(s, InJob(p, LockIndex(name, None)), s1);
    t := Do(s1, InJob(p, Stage(id, d, source, request)));
    Two(s, InJob(p, LockIndex(name, None)), InJob(p, Stage(id, d, source, request)), s1, t);
  }

  /** A killed process leaves the files as they are and gives up its locks. */
  lemma KillCall(s: System, p: ProcId)
    requires Inv(s) && p in s.procs
    ensures After(s, [Kill(p)])
      == Some(s.(procs := s.procs[p := Proc(None, NoJob)], index := if s.index == Some(p) then None else s.index,
                 locks := s.locks - HeldBy(s.procs[p])))
  {
    One(s, Kill(p), Do(s, Kill(p)));
    KillLocks(s, p);
  }

  lemma KillLocks(s: System, p: ProcId)
    requires Inv(s) && p in s.procs
    ensures DoKill(s, p).procs == s.procs[p := Proc(None, NoJob)]
    ensures DoKill(s, p).locks == s.locks - HeldBy(s.procs[p])
  {
    assert LeaseOk(s, p);
    var x := s.procs[p];
    assert HasLease(s, p) <==> x.lease.Some?;
    var t := if x.lease.Some? then Drop(s, p) else s;
    DropLocks(s, p, t);
    assert t.procs[p := Proc(None, NoJob)] == s.procs[p := Proc(None, NoJob)];
    assert t.procs[p].job == x.job;
  }

  lemma DropLocks(s: System, p: ProcId, t: System)
    requires p in s.procs && (s.procs[p].lease.Some? ==> HasLease(s, p))
    requires t == if s.procs[p].lease.Some? then Drop(s, p) else s
    ensures Unlist(t, p).locks == s.locks - HeldBy(s.procs[p])
  {
    var x := s.procs[p];
    assert t.locks == s.locks - if x.lease.Some? then {x.lease.value.box} else {};
  }

  /** The Boxes a process has locked: the leased one and one it has just listed. */
  function HeldBy(x: Proc): set<BoxId> {
    (if x.lease.Some? then {x.lease.value.box} else {}) + (if x.job.Listed? then {x.job.id} else {})
  }

  /** Deleting a checkpoint removes it and touches no Box. */
  lemma DeleteCheckpointCall(s: System, c: CheckpointId)
    requires Shaped(s) && c in s.checkpoints
    ensures After(s, [DeleteCheckpoint(c)]) == Some(s.(checkpoints := s.checkpoints - {c}))
  {
    One(s, DeleteCheckpoint(c), s.(checkpoints := s.checkpoints - {c}));
  }

  /** A host crash leaves one state of every directory and of the listing, and no process and no lock. */
  lemma CrashLeaves(s: System, states: map<BoxId, nat>, listed: nat, lost: set<BoxId>)
    requires Shaped(s) && listed < |s.listing| && lost <= s.cleared
    requires forall b :: b in s.dirs ==> b in states && states[b] < |s.dirs[b]|
    ensures Enabled(s, HostCrash(states, listed, lost))
    ensures var t := Do(s, HostCrash(states, listed, lost));
      && t.dirs.Keys == s.dirs.Keys && (forall b :: b in s.dirs ==> t.dirs[b] == [s.dirs[b][states[b]]])
      && t.listing == [s.listing[listed]] && t.cleared == lost && t.locks == map[] && t.index == None
      && t.procs.Keys == s.procs.Keys && (forall p :: p in s.procs ==> t.procs[p] == Proc(None, NoJob))
      && t.checkpoints == s.checkpoints && t.owner == s.owner && t.tainted == s.tainted
  {
  }

  /** A write that fails changes no file: the call gives up its locks, or the lease is as before the call. */
  lemma FailCall(s: System, p: ProcId, l: Lease, job: Job)
    requires Leases(s, p, l, job) && (l.activity.Writing? || l.activity.Renamed?)
    ensures var call := l.activity.call;
      After(s, [OnFile(p, Fail)])
      == Some(if call == Update
              then s.(procs := s.procs[p := Proc(None, NoJob)], locks := s.locks - {l.box}, index := None)
              else if call == Reset || call == Migrate
              then s.(procs := s.procs[p := Proc(None, job)], locks := s.locks - {l.box})
              else WithProc(s, p, Proc(Some(l.(activity := if call == Finish then Certified else Held)), job)))
  {
    One(s, OnFile(p, Fail), Do(s, OnFile(p, Fail)));
    assert s.procs[p := Proc(None, job)][p := Proc(None, NoJob)] == s.procs[p := Proc(None, NoJob)];
  }
}
