/**
 Names across host crashes. A crash can bring back a name in two ways: a deletion that was not synced,
 and an update that stopped between its rename and its sync. This module says exactly in which states
 a crash can leave two Boxes with one name, and how names stay unique over runs with any crashes.
 */
module BoxCrashNames {
  import opened Base
  import opened Boxes
  import opened BoxProtocol
  import opened BoxSafety
  import opened BoxNames

  // The exact condition, state by state.

  /** Two Boxes of one listing have, in some states of their directories, names that are equal. */
  predicate ClashAt(s: System, k: nat, b: BoxId, c: BoxId, i: nat, j: nat) {
    && b != c && k < |s.listing| && b in s.listing[k] && c in s.listing[k]
    && b in s.dirs && i < |s.dirs[b]| && Supported(s.dirs[b][i].meta)
    && c in s.dirs && j < |s.dirs[c]| && Supported(s.dirs[c][j].meta)
    && SameName(s.dirs[b][i].meta.name, s.dirs[c][j].meta.name)
  }

  ghost predicate Clash(s: System) {
    exists k: nat, b, c, i: nat, j: nat :: ClashAt(s, k, b, c, i, j)
  }

  ghost predicate CrashIsSafe(s: System, a: Action)
    requires Shaped(s)
  {
    a.HostCrash? && Enabled(s, a) ==> Shaped(Do(s, a)) && Unique(Do(s, a))
  }

  /** A crash that leaves two Boxes with one name shows a clash. */
  lemma UnsafeCrashIsClash(s: System, a: Action, b: BoxId, c: BoxId)
    requires Shaped(s) && a.HostCrash? && Enabled(s, a) && b != c
    requires Shaped(Do(s, a)) && SameName(FoundAs(Do(s, a), b), FoundAs(Do(s, a), c))
    ensures ClashAt(s, a.listed, b, c, a.states[b], a.states[c])
  {
    var t := Do(s, a);
    assert t.dirs[b] == [s.dirs[b][a.states[b]]] && t.dirs[c] == [s.dirs[c][a.states[c]]];
  }

  /** And a clash gives such a crash. */
  lemma ClashIsUnsafe(s: System, k: nat, b: BoxId, c: BoxId, i: nat, j: nat) returns (a: Action)
    requires Shaped(s) && ClashAt(s, k, b, c, i, j)
    ensures a.HostCrash? && Enabled(s, a) && !CrashIsSafe(s, a)
  {
    a := HostCrash(map x | x in s.dirs :: if x == b then i else if x == c then j else 0, k, {});
    var t := Do(s, a);
    assert t.dirs[b] == [s.dirs[b][i]] && t.dirs[c] == [s.dirs[c][j]];
    assert FoundAs(t, b) == s.dirs[b][i].meta.name && FoundAs(t, c) == s.dirs[c][j].meta.name;
  }

  lemma NoClashIsSafe(s: System, a: Action)
    requires Shaped(s) && !Clash(s) && a.HostCrash? && Enabled(s, a)
    ensures Shaped(Do(s, a)) && Unique(Do(s, a))
  {
    var t := Do(s, a);
    assert Shaped(t);
    forall b, c | b != c ensures !SameName(FoundAs(t, b), FoundAs(t, c)) {
      if SameName(FoundAs(t, b), FoundAs(t, c)) {
        UnsafeCrashIsClash(s, a, b, c);
        assert false;
      }
    }
  }

  /** Every crash leaves the names unique exactly when no two Boxes clash. */
  lemma CrashKeepsNamesIff(s: System)
    requires Shaped(s)
    ensures (forall a :: CrashIsSafe(s, a)) <==> !Clash(s)
  {
    if Clash(s) {
      var k, b, c, i, j :| ClashAt(s, k, b, c, i, j);
      var a := ClashIsUnsafe(s, k, b, c, i, j);
      assert !CrashIsSafe(s, a);
    } else {
      forall a ensures CrashIsSafe(s, a) {
        if a.HostCrash? && Enabled(s, a) {
          NoClashIsSafe(s, a);
        }
      }
    }
  }

  /** Every directory update has reached the disk. */
  predicate Settled(s: System) {
    |s.listing| == 1 && s.cleared !! s.listing[0] && forall b :: b in s.dirs ==> |s.dirs[b]| == 1
  }

  /** So a crash of a settled store keeps its names unique. */
  lemma SettledHasNoClash(s: System)
    requires Shaped(s) && Unique(s) && Settled(s)
    ensures !Clash(s)
  {
    forall k: nat, b, c, i: nat, j: nat ensures !ClashAt(s, k, b, c, i, j) {
      assert b != c ==> !SameName(FoundAs(s, b), FoundAs(s, c));
    }
  }

  // Runs with crashes.

  /** A crash may leave the Box where it can be found. */
  predicate Restorable(s: System, b: BoxId) {
    b in s.dirs && exists k :: 0 <= k < |s.listing| && b in s.listing[k]
  }

  predicate BearsIn(history: seq<Image>, name: Option<string>) {
    exists i :: 0 <= i < |history| && Supported(history[i].meta) && SameName(history[i].meta.name, name)
  }

  /** The Box is found under the name, now or after some crash. */
  predicate Bears(s: System, b: BoxId, name: Option<string>) { Restorable(s, b) && BearsIn(s.dirs[b], name) }

  ghost predicate BearFree(s: System, name: Option<string>, except: Option<BoxId>) {
    forall b: BoxId :: Some(b) != except ==> !Bears(s, b, name)
  }

  /** A name is taken only if no other Box could be found under it after a crash. */
  ghost predicate Careful(s: System, a: Action) {
    a.InJob? && a.step.LockIndex? ==> BearFree(s, a.step.name, a.step.except)
  }

  ghost predicate Distinct(s: System) {
    forall b, c, name :: b != c && Bears(s, b, name) ==> !Bears(s, c, name)
  }

  ghost predicate JobBears(s: System, p: ProcId)
    requires p in s.procs
  {
    match s.procs[p].job
    case Checked(name, except) => BearFree(s, name, except)
    case Staged(_, image) => BearFree(s, image.meta.name, None)
    case _ => true
  }

  ghost predicate CrashInv(s: System) {
    Distinct(s) && forall p :: p in s.procs ==> JobBears(s, p)
  }

  lemma DistinctHasNoClash(s: System)
    requires Distinct(s)
    ensures !Clash(s)
  {
    forall k: nat, b, c, i: nat, j: nat ensures !ClashAt(s, k, b, c, i, j) {
      if ClashAt(s, k, b, c, i, j) {
        var name := s.dirs[b][i].meta.name;
        assert Bears(s, b, name) && Bears(s, c, name);
        assert false;
      }
    }
  }

  // Steps that bring no name to a Box that it did not bear.

  ghost predicate NoNewBearing(s: System, t: System) {
    forall b, name :: Bears(t, b, name) ==> Bears(s, b, name)
  }

  /** Every name of the one history is a name of the other. */
  predicate NamesFrom(was: seq<Image>, now: seq<Image>) {
    forall i :: 0 <= i < |now| && Supported(now[i].meta) ==> HasName(was, now[i].meta.name)
  }

  predicate HasName(history: seq<Image>, name: Option<string>) {
    exists j :: 0 <= j < |history| && Supported(history[j].meta) && history[j].meta.name == name
  }

  /** The Boxes of every listing a crash may leave were in one listing before. */
  predicate ListingFrom(s: System, t: System) {
    forall k :: 0 <= k < |t.listing| ==> ListedTogether(s, t.listing[k])
  }

  predicate ListedTogether(s: System, boxes: set<BoxId>) {
    exists m :: 0 <= m < |s.listing| && boxes <= s.listing[m]
  }

  predicate FilesFrom(s: System, t: System) {
    && ListingFrom(s, t)
    && forall b :: b in t.dirs ==> b in s.dirs && NamesFrom(s.dirs[b], t.dirs[b])
  }

  lemma SameListing(s: System, t: System)
    requires t.listing == s.listing
    ensures ListingFrom(s, t)
  {
    forall k | 0 <= k < |t.listing| ensures ListedTogether(s, t.listing[k]) {
      assert t.listing[k] <= s.listing[k];
    }
  }

  lemma FilesFromBears(s: System, t: System)
    requires FilesFrom(s, t)
    ensures NoNewBearing(s, t)
  {
    forall b, name | Bears(t, b, name) ensures Bears(s, b, name) {
      var k :| 0 <= k < |t.listing| && b in t.listing[k];
      assert ListedTogether(s, t.listing[k]);
      var i :| 0 <= i < |t.dirs[b]| && Supported(t.dirs[b][i].meta) && SameName(t.dirs[b][i].meta.name, name);
      assert HasName(s.dirs[b], t.dirs[b][i].meta.name);
    }
  }

  lemma SelfNames(h: seq<Image>)
    ensures NamesFrom(h, h)
  {
    assert forall i :: 0 <= i < |h| && Supported(h[i].meta) ==> HasName(h, h[i].meta.name);
  }

  lemma MoreNames(h: seq<Image>, image: Image)
    requires Supported(image.meta) ==> HasName(h, image.meta.name)
    ensures NamesFrom(h, h + [image])
  {
    SelfNames(h);
  }

  lemma QuietStep(s: System, t: System)
    requires CrashInv(s) && FilesFrom(s, t)
    requires forall p :: p in t.procs ==> p in s.procs && (t.procs[p].job == s.procs[p].job || JobBears(t, p))
    ensures CrashInv(t)
  {
    FilesFromBears(s, t);
    forall p | p in t.procs ensures JobBears(t, p) {
      assert JobBears(s, p);
    }
  }

  /** The files are as they were. */
  lemma SameFilesFrom(s: System, t: System)
    requires t.dirs == s.dirs && t.listing == s.listing
    ensures FilesFrom(s, t)
  {
    SameListing(s, t);
    SameDirsFrom(s, t);
  }

  /** The history of one Box changed to one that has no new name, and the listing lost or gained nothing. */
  lemma OneHistoryFrom(s: System, t: System, b: BoxId)
    requires b in s.dirs && b in t.dirs && t.dirs == s.dirs[b := t.dirs[b]] && t.listing == s.listing
    requires NamesFrom(s.dirs[b], t.dirs[b])
    ensures FilesFrom(s, t)
  {
    SameListing(s, t);
    forall c | c in t.dirs ensures NamesFrom(s.dirs[c], t.dirs[c]) {
      if c != b { SelfNames(s.dirs[c]); }
    }
  }

  /** Only the listing changed, to one with no new Boxes together. */
  lemma SameDirsFrom(s: System, t: System)
    requires t.dirs == s.dirs && ListingFrom(s, t)
    ensures FilesFrom(s, t)
  {
    forall b | b in s.dirs ensures NamesFrom(s.dirs[b], t.dirs[b]) {
      SelfNames(s.dirs[b]);
    }
  }

  lemma VisibleHasName(s: System, p: ProcId)
    requires Inv(s) && NameInv(s) && HasLease(s, p)
    ensures var b := LeaseOf(s, p).box;
      HasName(s.dirs[b], Visible(s, b).meta.name)
  {
    assert ProcName(s, p);
  }

  // File steps.

  lemma RenameFrom(s: System, p: ProcId, f: FileStep)
    requires Inv(s) && NameInv(s) && HasLease(s, p) && CanFile(s, p, f)
    requires f.ResetSwap? || (f.Rename? && LeaseOf(s, p).activity.call != Update)
    ensures FilesFrom(s, DoFile(s, p, f))
  {
    var b, t := LeaseOf(s, p).box, DoFile(s, p, f);
    assert ProcName(s, p);
    VisibleHasName(s, p);
    var image := t.dirs[b][|s.dirs[b]|];
    assert t.dirs[b] == s.dirs[b] + [image];
    MoreNames(s.dirs[b], image);
    OneHistoryFrom(s, t, b);
  }

  lemma SyncFrom(s: System, p: ProcId)
    requires Inv(s) && NameInv(s) && HasLease(s, p) && CanFile(s, p, Sync)
    ensures FilesFrom(s, DoFile(s, p, Sync))
  {
    var b, t := LeaseOf(s, p).box, DoFile(s, p, Sync);
    VisibleHasName(s, p);
    assert t.dirs[b] == [Visible(s, b)];
    OneHistoryFrom(s, t, b);
  }

  lemma DeleteFrom(s: System, p: ProcId)
    requires Shaped(s) && HasLease(s, p) && CanFile(s, p, Delete)
    ensures FilesFrom(s, DoFile(s, p, Delete))
  {
    var t := DoFile(s, p, Delete);
    forall k | 0 <= k < |t.listing| ensures ListedTogether(s, t.listing[k]) {
      assert t.listing[k] <= s.listing[if k < |s.listing| then k else |s.listing| - 1];
    }
    SameDirsFrom(s, t);
  }

  lemma FileFrom(s: System, p: ProcId, f: FileStep)
    requires Inv(s) && NameInv(s) && HasLease(s, p) && CanFile(s, p, f)
    requires !(f.Rename? && LeaseOf(s, p).activity.call == Update)
    ensures FilesFrom(s, DoFile(s, p, f))
  {
    match f
    case ResetSwap => RenameFrom(s, p, f);
    case Rename => RenameFrom(s, p, f);
    case Sync => SyncFrom(s, p);
    case Delete => DeleteFrom(s, p);
    case _ => SameFilesFrom(s, DoFile(s, p, f));
  }

  /** `update` gives its Box a name it bore, no name, or the name the index lock guards. */
  lemma UpdateBears(s: System, p: ProcId)
    requires Inv(s) && NameInv(s) && CrashInv(s) && HasLease(s, p) && CanFile(s, p, Rename)
    requires LeaseOf(s, p).activity.call == Update
    ensures CrashInv(DoFile(s, p, Rename))
  {
    var t, l := DoFile(s, p, Rename), LeaseOf(s, p);
    var b, name := l.box, s.procs[p].job.name;
    assert ProcName(s, p) && JobBears(s, p) && JobOk(s, p);
    VisibleHasName(s, p);
    forall x: Option<string> | Bears(t, b, x) ensures Bears(s, b, x) || SameName(name, x) {
      var i :| 0 <= i < |t.dirs[b]| && Supported(t.dirs[b][i].meta) && SameName(t.dirs[b][i].meta.name, x);
      assert i < |s.dirs[b]| ==> t.dirs[b][i] == s.dirs[b][i];
    }
    forall c, x: Option<string> | c != b ensures Bears(t, c, x) <==> Bears(s, c, x) { }
    NewNameKeeps(s, t, b, name);
    IndexIsExclusive(s, p);
    forall q | q in t.procs ensures JobBears(t, q) {
      assert JobBears(s, q);
    }
  }

  /** One Box gains one name that no other bears. */
  lemma NewNameKeeps(s: System, t: System, b: BoxId, name: Option<string>)
    requires Distinct(s) && forall c :: c != b ==> !Bears(s, c, name)
    requires forall x: Option<string> :: Bears(t, b, x) ==> Bears(s, b, x) || SameName(name, x)
    requires forall c, x: Option<string> :: c != b && Bears(t, c, x) ==> Bears(s, c, x)
    ensures Distinct(t)
  {
    forall c, d, x: Option<string> | c != d && Bears(t, c, x) ensures !Bears(t, d, x) {
      if Bears(t, d, x) {
        var other := if c == b then d else c;
        assert other != b ==> Bears(s, other, x);
        if (c == b || d == b) && SameName(name, x) {
          SameNameBears(s, other, name, x);
        }
        assert false;
      }
    }
  }

  lemma SameNameBears(s: System, b: BoxId, name: Option<string>, x: Option<string>)
    requires SameName(name, x)
    ensures Bears(s, b, name) <==> Bears(s, b, x)
  {
  }

  // Steps under the index lock.

  lemma PublishBears(s: System, p: ProcId)
    requires Inv(s) && NameInv(s) && CrashInv(s) && p in s.procs && CanJob(s, p, Publish)
    ensures CrashInv(DoJob(s, p, Publish))
  {
    var t, job := DoJob(s, p, Publish), s.procs[p].job;
    assert JobBears(s, p) && JobOk(s, p);
    forall c, x: Option<string> | c != job.id && Bears(t, c, x) ensures Bears(s, c, x) {
      var k :| 0 <= k < |t.listing| && c in t.listing[k];
      assert c in s.listing[if k < |s.listing| then k else |s.listing| - 1];
    }
    assert forall x: Option<string> :: Bears(t, job.id, x) ==> SameName(job.image.meta.name, x);
    NewNameKeeps(s, t, job.id, job.image.meta.name);
    IndexIsExclusive(s, p);
    forall q | q in t.procs ensures JobBears(t, q) {
      assert JobBears(s, q);
    }
  }

  lemma JobFrom(s: System, p: ProcId, j: JobStep)
    requires Shaped(s) && p in s.procs && CanJob(s, p, j) && !j.Publish?
    ensures FilesFrom(s, DoJob(s, p, j))
  {
    var t := DoJob(s, p, j);
    if j.SyncListing? {
      assert t.listing[0] <= s.listing[|s.listing| - 1];
      SameDirsFrom(s, t);
    } else {
      SameFilesFrom(s, t);
    }
  }

  lemma JobStepBears(s: System, p: ProcId, j: JobStep)
    requires Inv(s) && NameInv(s) && CrashInv(s) && p in s.procs && CanJob(s, p, j) && !j.Publish?
    requires Careful(s, InJob(p, j))
    ensures CrashInv(DoJob(s, p, j))
  {
    var t := DoJob(s, p, j);
    assert JobBears(s, p);
    JobFrom(s, p, j);
    FilesFromBears(s, t);
    assert JobBears(t, p);
    QuietStep(s, t);
  }

  // A crash.

  lemma CrashFrom(s: System, a: Action)
    requires Shaped(s) && a.HostCrash? && Enabled(s, a)
    ensures FilesFrom(s, Do(s, a))
  {
    var t := Do(s, a);
    forall b | b in t.dirs ensures NamesFrom(s.dirs[b], t.dirs[b]) {
      assert t.dirs[b] == [s.dirs[b][a.states[b]]];
      SelfNames(s.dirs[b]);
    }
    assert t.listing[0] <= s.listing[a.listed];
  }

  lemma CrashBears(s: System, a: Action)
    requires Inv(s) && CrashInv(s) && a.HostCrash? && Enabled(s, a)
    ensures CrashInv(Do(s, a)) && NameInv(Do(s, a))
  {
    CrashFrom(s, a);
    QuietStep(s, Do(s, a));
    DistinctHasNoClash(s);
    NoClashIsSafe(s, a);
  }

  /** Neither the files nor any job changed, except that jobs may have ended. */
  lemma IdleStepBears(s: System, t: System)
    requires CrashInv(s) && t.dirs == s.dirs && t.listing == s.listing && t.procs.Keys == s.procs.Keys
    requires forall p :: p in s.procs ==> t.procs[p].job == s.procs[p].job || t.procs[p].job == NoJob
    ensures CrashInv(t)
  {
    SameFilesFrom(s, t);
    QuietStep(s, t);
  }

  lemma QuietActionBears(s: System, a: Action)
    requires Shaped(s) && CrashInv(s) && Enabled(s, a)
    requires a.Acquire? || a.Clear? || a.DeleteCheckpoint? || a.Kill?
    ensures CrashInv(Do(s, a))
  {
    if a.Kill? {
      KillShape(s, a.p);
    }
    IdleStepBears(s, Do(s, a));
  }

  /** A process goes on with its job, or ends it. */
  predicate KeepsOrEndsJob(s: System, t: System, p: ProcId) {
    && p in s.procs && p in t.procs && t.procs == s.procs[p := t.procs[p]]
    && (t.procs[p].job == s.procs[p].job || t.procs[p].job == NoJob)
  }

  lemma EndsJob(s: System, p: ProcId)
    requires Shaped(s) && HasLease(s, p)
    ensures KeepsOrEndsJob(s, Drop(s, p), p) && KeepsOrEndsJob(s, FreeIndex(Drop(s, p), p), p)
  {
    var none := Proc(None, NoJob);
    assert s.procs[p := s.procs[p].(lease := None)][p := none] == s.procs[p := none];
  }

  lemma UseFiles(s: System, p: ProcId, u: UseStep)
    requires Shaped(s) && HasLease(s, p) && CanUse(s, p, u)
    ensures DoUse(s, p, u).dirs == s.dirs && DoUse(s, p, u).listing == s.listing
  {
  }

  lemma UseJobs(s: System, p: ProcId, u: UseStep)
    requires Shaped(s) && HasLease(s, p) && CanUse(s, p, u)
    ensures KeepsOrEndsJob(s, DoUse(s, p, u), p)
  {
  }

  lemma UseBears(s: System, p: ProcId, u: UseStep)
    requires Shaped(s) && CrashInv(s) && HasLease(s, p) && CanUse(s, p, u)
    ensures CrashInv(DoUse(s, p, u))
  {
    var t := DoUse(s, p, u);
    UseJobs(s, p, u);
    UseFiles(s, p, u);
    assert t.procs.Keys == s.procs.Keys;
    IdleStepBears(s, t);
  }

  lemma SyncJobs(s: System, p: ProcId)
    requires Shaped(s) && HasLease(s, p) && CanFile(s, p, Sync)
    ensures KeepsOrEndsJob(s, DoFile(s, p, Sync), p)
  {
    var l := LeaseOf(s, p);
    var synced := s.(dirs := s.dirs[l.box := [VisibleOf(s, p)]]);
    AfterSyncJobs(synced, p, l.activity.next, l.activity.call);
  }

  lemma AfterSyncJobs(s: System, p: ProcId, next: Metadata, call: Call)
    requires Shaped(s) && HasLease(s, p)
    ensures KeepsOrEndsJob(s, AfterSync(s, p, next, call), p)
  {
    EndsJob(s, p);
  }

  lemma FileJobs(s: System, p: ProcId, f: FileStep)
    requires Shaped(s) && HasLease(s, p) && CanFile(s, p, f)
    ensures KeepsOrEndsJob(s, DoFile(s, p, f), p)
  {
    if f.Sync? {
      SyncJobs(s, p);
    } else if f.Fail? || f.Delete? {
      EndsJob(s, p);
    }
  }

  lemma FileStepBears(s: System, p: ProcId, f: FileStep)
    requires Inv(s) && NameInv(s) && CrashInv(s) && HasLease(s, p) && CanFile(s, p, f)
    ensures CrashInv(DoFile(s, p, f))
  {
    if f.Rename? && LeaseOf(s, p).activity.call == Update {
      UpdateBears(s, p);
    } else {
      FileFrom(s, p, f);
      FileJobs(s, p, f);
      assert DoFile(s, p, f).procs.Keys == s.procs.Keys;
      QuietStep(s, DoFile(s, p, f));
    }
  }

  /** Every careful step, a crash included, keeps all restorable names apart. */
  lemma CarefulStepKeeps(s: System, a: Action)
    requires Inv(s) && NameInv(s) && CrashInv(s) && Enabled(s, a) && Careful(s, a)
    ensures NameInv(Do(s, a)) && CrashInv(Do(s, a))
  {
    if a.HostCrash? {
      CrashBears(s, a);
    } else {
      StepKeepsNames(s, a);
      match a
      case OnFile(p, f) => FileStepBears(s, p, f);
      case Use(p, u) => UseBears(s, p, u);
      case InJob(p, j) => if j.Publish? { PublishBears(s, p); } else { JobStepBears(s, p, j); }
      case _ => QuietActionBears(s, a);
    }
  }

  lemma InitiallyDistinct(s: System)
    requires Initial(s) && !Clash(s)
    ensures Shaped(s) && NameInv(s) && CrashInv(s)
  {
    forall b, c, name | b != c && Bears(s, b, name) ensures !Bears(s, c, name) {
      assert !ClashAt(s, 0, b, c, 0, 0);
    }
    forall b, c | b != c ensures !SameName(FoundAs(s, b), FoundAs(s, c)) {
      assert !ClashAt(s, 0, b, c, 0, 0);
    }
  }

  /** Over runs with any crashes in which names are taken carefully, names are unique in every state. */
  lemma {:induction false} CarefulRunsStayUnique(states: seq<System>, actions: seq<Action>, i: nat)
    requires IsRun(states, actions) && i < |states| && !Clash(states[0])
    requires forall k :: 0 <= k < i ==> Careful(states[k], actions[k])
    ensures NameInv(states[i]) && CrashInv(states[i])
    ensures Unique(states[i]) && !Clash(states[i])
  {
    if i == 0 {
      InitiallyDistinct(states[0]);
    } else {
      CarefulRunsStayUnique(states, actions, i - 1);
      RunKeepsInv(states, actions, i - 1);
      assert StepOf(states[i - 1], actions[i - 1], states[i]);
      assert Careful(states[i - 1], actions[i - 1]);
      CarefulStepKeeps(states[i - 1], actions[i - 1]);
    }
    DistinctHasNoClash(states[i]);
  }

  /** In a settled store the scan the code makes is careful. */
  lemma SettledScanIsCareful(s: System, p: ProcId, name: Option<string>, except: Option<BoxId>)
    requires Shaped(s) && Settled(s) && Enabled(s, InJob(p, LockIndex(name, except)))
    ensures Careful(s, InJob(p, LockIndex(name, except)))
  {
    forall b: BoxId | Some(b) != except && Bears(s, b, name) ensures false {
      SettledBearsIsFound(s, b, name);
    }
  }

  lemma SettledBearsIsFound(s: System, b: BoxId, name: Option<string>)
    requires Shaped(s) && Settled(s) && Bears(s, b, name)
    ensures Readable(s, b) && SameName(Visible(s, b).meta.name, name)
  {
  }
}
