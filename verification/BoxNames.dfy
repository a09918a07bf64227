/**
 Name uniqueness of the Box store: over any interleaving of processes, with failed writes and
 killed processes, no two readable Boxes have names equal ignoring ASCII case.
 */
module BoxNames {
  import opened Base
  import opened Boxes
  import opened BoxProtocol
  import opened BoxSafety

  /** The name under which lookup finds a Box. */
  function FoundAs(s: System, b: BoxId): Option<string>
    requires Shaped(s)
  {
    if Readable(s, b) then Visible(s, b).meta.name else None
  }

  ghost predicate Unique(s: System)
    requires Shaped(s)
  {
    forall b, c :: b != c ==> !SameName(FoundAs(s, b), FoundAs(s, c))
  }

  ghost predicate Free(s: System, name: Option<string>, except: Option<BoxId>)
    requires Shaped(s)
  {
    forall b: BoxId :: Some(b) != except ==> !SameName(FoundAs(s, b), name)
  }

  /** A lease's copy of the name is current, and only `update` writes another one. */
  predicate LeaseName(s: System, p: ProcId)
    requires Shaped(s) && HasLease(s, p)
  {
    var l := LeaseOf(s, p);
    var renaming := (l.activity.Writing? || l.activity.Renamed?) && l.activity.call == Update;
    && Supported(Visible(s, l.box).meta)
    && (!(renaming && l.activity.Renamed?) ==> l.meta.name == Visible(s, l.box).meta.name)
    && (l.activity.Writing? || l.activity.Renamed? ==>
          if renaming then
            && s.procs[p].job.Checked? && s.procs[p].job.except == Some(l.box)
            && (l.activity.next.name == l.meta.name || l.activity.next.name == None
                || l.activity.next.name == s.procs[p].job.name)
          else l.activity.next.name == l.meta.name)
  }

  /** The name a job is about to take is free, and stays so while the index lock is held. */
  ghost predicate JobName(s: System, p: ProcId)
    requires Shaped(s) && p in s.procs
  {
    match s.procs[p].job
    case Checked(name, except) => Renaming(s, p) || Free(s, name, except)
    case Staged(_, image) => Free(s, image.meta.name, None)
    case _ => true
  }

  /** `update` has already renamed the metadata into place. */
  predicate Renaming(s: System, p: ProcId) {
    HasLease(s, p) && LeaseOf(s, p).activity.Renamed? && LeaseOf(s, p).activity.call == Update
  }

  ghost predicate ProcName(s: System, p: ProcId)
    requires Shaped(s) && p in s.procs
  {
    (HasLease(s, p) ==> LeaseName(s, p)) && JobName(s, p)
  }

  ghost predicate NameInv(s: System) {
    && Shaped(s) && Unique(s)
    && forall p :: p in s.procs ==> ProcName(s, p)
  }

  /** No Box is found under a name it was not found under before. */
  ghost predicate NoNewName(s: System, t: System)
    requires Shaped(s) && Shaped(t)
  {
    forall b :: FoundAs(t, b) == None || FoundAs(t, b) == FoundAs(s, b)
  }

  /** The other processes, and the names of the Boxes they lease, are as before. */
  ghost predicate OthersKept(s: System, t: System, p: ProcId)
    requires Shaped(s) && Shaped(t)
  {
    && t.procs.Keys == s.procs.Keys
    && forall q :: q in s.procs && q != p ==>
         && t.procs[q] == s.procs[q]
         && HasLease(t, q) == HasLease(s, q)
         && (HasLease(s, q) ==> Visible(t, LeaseOf(s, q).box).meta == Visible(s, LeaseOf(s, q).box).meta)
  }

  /** While one process is in the index lock no other has a job. */
  lemma IndexIsExclusive(s: System, p: ProcId)
    requires Inv(s) && p in s.procs && s.procs[p].job != NoJob
    ensures forall q :: q in s.procs && q != p ==> s.procs[q].job == NoJob
  {
    forall q | q in s.procs && q != p ensures s.procs[q].job == NoJob {
      assert JobOk(s, p) && JobOk(s, q);
    }
  }

  lemma NamesKept(s: System, t: System, p: ProcId)
    requires NameInv(s) && Shaped(t) && p in s.procs
    requires OthersKept(s, t, p) && NoNewName(s, t) && ProcName(t, p)
    ensures NameInv(t)
  {
    forall b, c | b != c ensures !SameName(FoundAs(t, b), FoundAs(t, c)) {
      assert !SameName(FoundAs(s, b), FoundAs(s, c));
    }
    forall q | q in t.procs ensures ProcName(t, q) {
      assert ProcName(s, q);
    }
  }

  lemma FreeKept(s: System, t: System, name: Option<string>, except: Option<BoxId>)
    requires Shaped(s) && Shaped(t) && NoNewName(s, t) && Free(s, name, except)
    ensures Free(t, name, except)
  {
    forall b: BoxId | Some(b) != except ensures !SameName(FoundAs(t, b), name) {
      assert !SameName(FoundAs(s, b), name);
    }
  }

  /** The shape of a leaseholder's step that leaves the visible name of its Box alone. */
  predicate SameVisibleName(s: System, t: System, p: ProcId)
    requires Shaped(s) && HasLease(s, p)
  {
    var b := LeaseOf(s, p).box;
    && p in t.procs && t.procs == s.procs[p := t.procs[p]]
    && b in t.dirs && t.dirs == s.dirs[b := t.dirs[b]] && t.dirs[b] != []
    && Visible(t, b).meta.name == Visible(s, b).meta.name
    && (Supported(Visible(t, b).meta) ==> Supported(Visible(s, b).meta))
    && t.cleared == s.cleared && t.listing != [] && Last(t.listing) <= Last(s.listing)
  }

  lemma LeaseStepNames(s: System, t: System, p: ProcId)
    requires Inv(s) && NameInv(s) && HasLease(s, p) && SameVisibleName(s, t, p)
    ensures Shaped(t) && OthersKept(s, t, p) && NoNewName(s, t)
  {
    LeaseIsExclusive(s, p);
    assert Shaped(t);
    forall q | q in s.procs && q != p
      ensures HasLease(t, q) == HasLease(s, q)
      ensures HasLease(s, q) ==>
        Visible(t, LeaseOf(s, q).box).meta == Visible(s, LeaseOf(s, q).box).meta
    {
      assert LeaseOk(s, q);
    }
  }

  lemma JobNameKept(s: System, t: System, p: ProcId)
    requires Shaped(s) && Shaped(t) && p in s.procs && p in t.procs && NoNewName(s, t)
    requires JobName(s, p) && t.procs[p].job == s.procs[p].job && !Renaming(s, p)
    ensures JobName(t, p)
  {
    match s.procs[p].job
    case Checked(name, except) => FreeKept(s, t, name, except);
    case Staged(_, image) => FreeKept(s, t, image.meta.name, None);
    case _ =>
  }

  /** Such a step keeps the invariant if the process goes on with the right name in hand. */
  lemma LeaseStepKeepsNames(s: System, t: System, p: ProcId)
    requires Inv(s) && NameInv(s) && HasLease(s, p) && SameVisibleName(s, t, p)
    requires Shaped(t) && (HasLease(t, p) ==> LeaseName(t, p))
    requires (t.procs[p].job == s.procs[p].job && !Renaming(s, p)) || t.procs[p].job == NoJob
    ensures NameInv(t)
  {
    LeaseStepNames(s, t, p);
    assert ProcName(s, p);
    if t.procs[p].job != NoJob {
      JobNameKept(s, t, p);
    }
    NamesKept(s, t, p);
  }

  lemma UseNames(s: System, p: ProcId, u: UseStep)
    requires Inv(s) && NameInv(s) && HasLease(s, p) && CanUse(s, p, u)
    ensures NameInv(DoUse(s, p, u))
  {
    UseSameName(s, p, u);
    UseLeaseName(s, p, u);
    LeaseStepKeepsNames(s, DoUse(s, p, u), p);
  }

  lemma UseSameName(s: System, p: ProcId, u: UseStep)
    requires Inv(s) && NameInv(s) && HasLease(s, p) && CanUse(s, p, u)
    ensures SameVisibleName(s, DoUse(s, p, u), p) && Shaped(DoUse(s, p, u))
  {
    LeaseFacts(s, p);
  }

  lemma UseLeaseName(s: System, p: ProcId, u: UseStep)
    requires Inv(s) && NameInv(s) && HasLease(s, p) && CanUse(s, p, u) && Shaped(DoUse(s, p, u))
    ensures HasLease(DoUse(s, p, u), p) ==> LeaseName(DoUse(s, p, u), p)
  {
    assert ProcName(s, p);
  }

  lemma SyncNames(s: System, p: ProcId)
    requires Inv(s) && NameInv(s) && HasLease(s, p) && CanFile(s, p, Sync)
    ensures NameInv(DoFile(s, p, Sync))
  {
    SyncSameName(s, p);
    SyncLeaseName(s, p);
    LeaseStepKeepsNames(s, DoFile(s, p, Sync), p);
  }

  lemma SyncSameName(s: System, p: ProcId)
    requires Inv(s) && NameInv(s) && HasLease(s, p) && CanFile(s, p, Sync)
    ensures SameVisibleName(s, DoFile(s, p, Sync), p) && Shaped(DoFile(s, p, Sync))
    ensures DoFile(s, p, Sync).procs[p].job in {s.procs[p].job, NoJob}
    ensures Renaming(s, p) ==> DoFile(s, p, Sync).procs[p].job == NoJob
  {
    LeaseFacts(s, p);
  }

  lemma SyncLeaseName(s: System, p: ProcId)
    requires Inv(s) && NameInv(s) && HasLease(s, p) && CanFile(s, p, Sync) && Shaped(DoFile(s, p, Sync))
    ensures HasLease(DoFile(s, p, Sync), p) ==> LeaseName(DoFile(s, p, Sync), p)
  {
    LeaseFacts(s, p);
    assert ProcName(s, p) && LeaseOk(s, p);
  }

  lemma FailNames(s: System, p: ProcId)
    requires Inv(s) && NameInv(s) && HasLease(s, p) && CanFile(s, p, Fail)
    ensures NameInv(DoFile(s, p, Fail))
  {
    LeaseFacts(s, p);
    assert ProcName(s, p);
    LeaseStepKeepsNames(s, DoFile(s, p, Fail), p);
  }

  lemma DeleteNames(s: System, p: ProcId)
    requires Inv(s) && NameInv(s) && HasLease(s, p) && CanFile(s, p, Delete)
    ensures NameInv(DoFile(s, p, Delete))
  {
    LeaseFacts(s, p);
    LeaseStepKeepsNames(s, DoFile(s, p, Delete), p);
  }

  lemma FileNames(s: System, p: ProcId, f: FileStep)
    requires Inv(s) && NameInv(s) && HasLease(s, p) && CanFile(s, p, f)
    requires f.ResetCopy? || f.ResetSwap? || f.CreateCheckpoint?
             || (f.Rename? && LeaseOf(s, p).activity.call != Update)
    ensures NameInv(DoFile(s, p, f))
  {
    LeaseFacts(s, p);
    assert ProcName(s, p);
    LeaseStepKeepsNames(s, DoFile(s, p, f), p);
  }

  /** `update` takes a name that the index lock has kept free. */
  lemma UpdateRenames(s: System, p: ProcId)
    requires Inv(s) && NameInv(s) && HasLease(s, p) && CanFile(s, p, Rename)
    requires LeaseOf(s, p).activity.call == Update
    ensures NameInv(DoFile(s, p, Rename))
  {
    var t, l := DoFile(s, p, Rename), LeaseOf(s, p);
    UpdateFound(s, p);
    forall c | c != l.box ensures !SameName(FoundAs(t, l.box), FoundAs(t, c)) {
      assert !SameName(FoundAs(s, l.box), FoundAs(s, c));
      assert !SameName(FoundAs(s, c), s.procs[p].job.name);
    }
    LeaseIsExclusive(s, p);
    IndexIsExclusive(s, p);
    forall q | q in t.procs ensures ProcName(t, q) {
      assert ProcName(s, q) && LeaseOk(s, q);
    }
  }

  /** Only the updated Box is found under another name: none, the name it had, or one that is free. */
  lemma UpdateFound(s: System, p: ProcId)
    requires Inv(s) && NameInv(s) && HasLease(s, p) && CanFile(s, p, Rename)
    requires LeaseOf(s, p).activity.call == Update
    ensures var t, b, job := DoFile(s, p, Rename), LeaseOf(s, p).box, s.procs[p].job;
            && Shaped(t) && job.Checked? && job.except == Some(b) && Free(s, job.name, job.except)
            && (forall c :: c != b ==> FoundAs(t, c) == FoundAs(s, c))
            && FoundAs(t, b) in {None, FoundAs(s, b), job.name}
  {
    LeaseFacts(s, p);
    assert ProcName(s, p);
  }

  lemma AcquireNames(s: System, p: ProcId, b: BoxId)
    requires Inv(s) && NameInv(s) && Enabled(s, Acquire(p, b))
    ensures NameInv(DoAcquire(s, p, b))
  {
    var t := DoAcquire(s, p, b);
    assert ProcName(s, p);
    JobNameKept(s, t, p);
    NamesKept(s, t, p);
  }

  lemma ScanFindsFree(s: System, name: Option<string>, except: Option<BoxId>)
    requires Shaped(s) && NameFree(s, name, except)
    ensures Free(s, name, except)
  {
  }

  /** Taking or leaving the index lock, and staging under it, changes no visible name. */
  predicate SameView(s: System, t: System, p: ProcId) {
    && p in s.procs && p in t.procs && t.procs == s.procs[p := t.procs[p]]
    && t.procs[p].lease == s.procs[p].lease
    && t.dirs == s.dirs && t.cleared == s.cleared
    && s.listing != [] && t.listing != [] && Last(t.listing) == Last(s.listing)
  }

  lemma SameViewNames(s: System, t: System, p: ProcId)
    requires Inv(s) && NameInv(s) && SameView(s, t, p)
    requires t.procs[p].job == s.procs[p].job ==> !Renaming(s, p)
    requires match t.procs[p].job
      case Checked(name, except) => Free(s, name, except)
      case Staged(_, image) => Free(s, image.meta.name, None)
      case _ => true
    requires UsesIndex(s, p) ==> t.procs[p].job == s.procs[p].job
    ensures NameInv(t)
  {
    assert ProcName(s, p) && JobOk(s, p);
    assert NoNewName(s, t);
    match t.procs[p].job {
      case Checked(name, except) => FreeKept(s, t, name, except);
      case Staged(_, image) => FreeKept(s, t, image.meta.name, None);
      case _ =>
    }
    NamesKept(s, t, p);
  }

  lemma QuietJobNames(s: System, p: ProcId, j: JobStep)
    requires Inv(s) && NameInv(s) && p in s.procs && CanJob(s, p, j) && !j.Publish?
    ensures NameInv(DoJob(s, p, j))
  {
    assert ProcName(s, p) && JobOk(s, p);
    if j.LockIndex? {
      ScanFindsFree(s, j.name, j.except);
    }
    SameViewNames(s, DoJob(s, p, j), p);
  }

  lemma PublishNames(s: System, p: ProcId)
    requires Inv(s) && NameInv(s) && p in s.procs && CanJob(s, p, Publish)
    ensures NameInv(DoJob(s, p, Publish))
  {
    var t, job := DoJob(s, p, Publish), s.procs[p].job;
    assert ProcName(s, p) && JobOk(s, p) && LeaseOk(s, p);
    IndexIsExclusive(s, p);
    assert forall b :: b != job.id ==> FoundAs(t, b) == FoundAs(s, b);
    forall c | c != job.id ensures !SameName(FoundAs(t, job.id), FoundAs(t, c)) {
      assert !SameName(FoundAs(s, c), job.image.meta.name);
    }
    forall q | q in t.procs ensures ProcName(t, q) {
      assert ProcName(s, q) && LeaseOk(s, q) && JobOk(s, q);
    }
  }

  lemma KillNames(s: System, p: ProcId)
    requires Inv(s) && NameInv(s) && p in s.procs
    ensures NameInv(DoKill(s, p))
  {
    KillShape(s, p);
    IdleNames(s, DoKill(s, p), p);
  }

  lemma KillShape(s: System, p: ProcId)
    requires p in s.procs
    ensures var t := DoKill(s, p);
            && t.procs == s.procs[p := Proc(None, NoJob)]
            && t.dirs == s.dirs && t.listing == s.listing && t.cleared == s.cleared
  {
  }

  lemma IdleNames(s: System, t: System, p: ProcId)
    requires NameInv(s) && p in s.procs && t.procs == s.procs[p := Proc(None, NoJob)]
    requires t.dirs == s.dirs && t.listing == s.listing && t.cleared == s.cleared
    ensures NameInv(t)
  {
    SameFiles(s, t);
    NamesKept(s, t, p);
  }

  lemma SameFiles(s: System, t: System)
    requires Shaped(s) && t.dirs == s.dirs && t.listing == s.listing && t.cleared == s.cleared
    ensures Shaped(t) && forall b :: FoundAs(t, b) == FoundAs(s, b)
  {
  }

  lemma SideNames(s: System, a: Action)
    requires Inv(s) && NameInv(s) && (a.Clear? || a.DeleteCheckpoint?) && Enabled(s, a)
    ensures NameInv(Do(s, a))
  {
    var t := Do(s, a);
    assert forall b :: FoundAs(t, b) == None || FoundAs(t, b) == FoundAs(s, b);
    forall b, c | b != c ensures !SameName(FoundAs(t, b), FoundAs(t, c)) {
      assert !SameName(FoundAs(s, b), FoundAs(s, c));
    }
    forall q | q in t.procs ensures ProcName(t, q) {
      assert ProcName(s, q);
      if !Renaming(s, q) {
        JobNameKept(s, t, q);
      }
    }
  }

  /** Every step but a host crash keeps the names unique. */
  lemma StepKeepsNames(s: System, a: Action)
    requires Inv(s) && NameInv(s) && Enabled(s, a) && !a.HostCrash?
    ensures NameInv(Do(s, a))
  {
    match a
    case Acquire(p, b) => AcquireNames(s, p, b);
    case Use(p, u) => UseNames(s, p, u);
    case OnFile(p, f) => FileStepNames(s, p, f);
    case InJob(p, j) => if j.Publish? { PublishNames(s, p); } else { QuietJobNames(s, p, j); }
    case Kill(p) => KillNames(s, p);
    case _ => SideNames(s, a);
  }

  lemma FileStepNames(s: System, p: ProcId, f: FileStep)
    requires Inv(s) && NameInv(s) && HasLease(s, p) && CanFile(s, p, f)
    ensures NameInv(DoFile(s, p, f))
  {
    match f
    case Sync => SyncNames(s, p);
    case Fail => FailNames(s, p);
    case Delete => DeleteNames(s, p);
    case Rename => if LeaseOf(s, p).activity.call == Update { UpdateRenames(s, p); } else { FileNames(s, p, f); }
    case _ => FileNames(s, p, f);
  }

  /** Over any run without a host crash, a name looks up at most one Box. */
  lemma {:induction false} NamesStayUnique(states: seq<System>, actions: seq<Action>, i: nat)
    requires IsRun(states, actions) && i < |states|
    requires forall k :: 0 <= k < i ==> !actions[k].HostCrash?
    requires Shaped(states[0]) && Unique(states[0])
    ensures Shaped(states[i]) && Unique(states[i]) && NameInv(states[i])
  {
    if i > 0 {
      NamesStayUnique(states, actions, i - 1);
      RunKeepsInv(states, actions, i - 1);
      assert StepOf(states[i - 1], actions[i - 1], states[i]);
      StepKeepsNames(states[i - 1], actions[i - 1]);
    }
  }
}
