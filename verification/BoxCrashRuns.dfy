/**
 Runs with host crashes, exactly: no crash at any point of a run can leave two Boxes with one name if and
 only if every step that brings a name into a listing, the publication of a new Box and the rename of an
 update, meets no Box of that listing which bears the name in a state a crash may leave.
 */
module BoxCrashRuns {
  import opened Base
  import opened Boxes
  import opened BoxProtocol
  import opened BoxSafety
  import opened BoxNames
  import opened BoxCrashNames

  /** A crash may leave both Boxes listed. */
  predicate CoListed(s: System, b: BoxId, c: BoxId) {
    exists k :: 0 <= k < |s.listing| && b in s.listing[k] && c in s.listing[k]
  }

  predicate Publishes(s: System, a: Action) {
    a.InJob? && a.step.Publish? && a.p in s.procs && s.procs[a.p].job.Staged?
  }

  /** The rename that gives an updated Box its new metadata. */
  predicate Renames(s: System, a: Action) {
    && a.OnFile? && a.file.Rename? && HasLease(s, a.p)
    && LeaseOf(s, a.p).activity.Writing? && LeaseOf(s, a.p).activity.call == Update
  }

  /** No Box that is visible together with the new one bears its name in a state of its directory. */
  ghost predicate SafePublish(s: System, job: Job)
    requires Shaped(s) && job.Staged?
  {
    forall c :: c in Last(s.listing) && c in s.dirs ==> !BearsIn(s.dirs[c], job.image.meta.name)
  }

  /** No Box that a crash may leave together with this one bears the name it is about to get. */
  ghost predicate SafeRename(s: System, b: BoxId, name: Option<string>) {
    forall c :: c != b && CoListed(s, b, c) && c in s.dirs ==> !BearsIn(s.dirs[c], name)
  }

  ghost predicate SafeStep(s: System, a: Action)
    requires Shaped(s)
  {
    && (Publishes(s, a) ==> SafePublish(s, s.procs[a.p].job))
    && (Renames(s, a) ==> SafeRename(s, LeaseOf(s, a.p).box, LeaseOf(s, a.p).activity.next.name))
  }

  /** A staged Box has current metadata and is in no listing. */
  predicate StagedOk(s: System, p: ProcId)
    requires p in s.procs
  {
    var job := s.procs[p].job;
    job.Staged? ==> Supported(job.image.meta) && forall k :: 0 <= k < |s.listing| ==> job.id !in s.listing[k]
  }

  ghost predicate RunInv(s: System) {
    Inv(s) && NameInv(s) && forall p :: p in s.procs ==> StagedOk(s, p)
  }

  // Steps that bring no name into a listing.

  lemma FilesFromNoClash(s: System, t: System)
    requires FilesFrom(s, t) && !Clash(s)
    ensures !Clash(t)
  {
    forall k: nat, b, c, i: nat, j: nat | ClashAt(t, k, b, c, i, j) ensures false {
      assert ListedTogether(s, t.listing[k]);
      var m: nat :| m < |s.listing| && t.listing[k] <= s.listing[m];
      var x, y := t.dirs[b][i].meta.name, t.dirs[c][j].meta.name;
      assert HasName(s.dirs[b], x) && HasName(s.dirs[c], y);
      var i': nat :| i' < |s.dirs[b]| && Supported(s.dirs[b][i'].meta) && s.dirs[b][i'].meta.name == x;
      var j': nat :| j' < |s.dirs[c]| && Supported(s.dirs[c][j'].meta) && s.dirs[c][j'].meta.name == y;
      assert ClashAt(s, m, b, c, i', j');
    }
  }

  /** Steps other than these two bring no name into a listing. */
  lemma OtherStepFrom(s: System, a: Action)
    requires Inv(s) && NameInv(s) && Enabled(s, a) && !Publishes(s, a) && !Renames(s, a)
    ensures FilesFrom(s, Do(s, a))
  {
    match a
    case OnFile(p, f) => FileFrom(s, p, f);
    case InJob(p, j) => JobFrom(s, p, j);
    case HostCrash(_, _, _) => CrashFrom(s, a);
    case Use(p, u) => UseFrom(s, p, u);
    case Kill(p) => KillShape(s, p); SameFilesFrom(s, Do(s, a));
    case _ => SameFilesFrom(s, Do(s, a));
  }

  lemma UseFrom(s: System, p: ProcId, u: UseStep)
    requires Shaped(s) && HasLease(s, p) && CanUse(s, p, u)
    ensures FilesFrom(s, DoUse(s, p, u))
  {
    UseFiles(s, p, u);
    SameFilesFrom(s, DoUse(s, p, u));
  }

  // Publication.

  /** A new Box is listed after those that are visible, with its one image. */
  predicate Published(s: System, t: System, id: BoxId, image: Image)
    requires Shaped(s)
  {
    && t.dirs == s.dirs[id := [image]] && t.listing == s.listing + [Last(s.listing) + {id}]
    && id !in s.dirs && Supported(image.meta) && forall k :: 0 <= k < |s.listing| ==> id !in s.listing[k]
  }

  /** Any clash is one with the new Box, and that is a Box it is visible with. */
  lemma PublishedClash(s: System, t: System, id: BoxId, image: Image, k: nat, b: BoxId, c: BoxId, i: nat, j: nat)
    requires Shaped(s) && !Clash(s) && Published(s, t, id, image) && ClashAt(t, k, b, c, i, j)
    ensures exists x :: x in Last(s.listing) && x in s.dirs && BearsIn(s.dirs[x], image.meta.name)
  {
    var m := if k < |s.listing| then k else |s.listing| - 1;
    if b != id && c != id {
      assert ClashAt(s, m, b, c, i, j);
    } else {
      assert k == |s.listing|;
      var x := if b == id then c else b;
      assert x in Last(s.listing) && BearsIn(s.dirs[x], image.meta.name);
    }
  }

  lemma PublishClashIff(s: System, t: System, id: BoxId, image: Image)
    requires Shaped(s) && !Clash(s) && Published(s, t, id, image)
    ensures !Clash(t) <==> SafePublish(s, Staged(id, image))
  {
    forall c | c in Last(s.listing) && c in s.dirs && BearsIn(s.dirs[c], image.meta.name) ensures Clash(t) {
      var j: nat :|
        j < |s.dirs[c]| && Supported(s.dirs[c][j].meta) && SameName(s.dirs[c][j].meta.name, image.meta.name);
      assert ClashAt(t, |s.listing|, id, c, 0, j);
    }
    if Clash(t) {
      var k, b, c, i, j :| ClashAt(t, k, b, c, i, j);
      PublishedClash(s, t, id, image, k, b, c, i, j);
    }
  }

  // The rename of an update.

  /** One Box has one more state of its directory. */
  predicate Extended(s: System, t: System, b: BoxId, image: Image) {
    && b in s.dirs && t.dirs == s.dirs[b := s.dirs[b] + [image]] && t.listing == s.listing
    && Supported(image.meta)
  }

  lemma ExtendedClash(s: System, t: System, b: BoxId, image: Image, k: nat, x: BoxId, y: BoxId, i: nat, j: nat)
    requires !Clash(s) && Extended(s, t, b, image) && ClashAt(t, k, x, y, i, j)
    ensures exists c :: c != b && CoListed(s, b, c) && c in s.dirs && BearsIn(s.dirs[c], image.meta.name)
  {
    var n := |s.dirs[b]|;
    if (x == b && i == n) || (y == b && j == n) {
      var c := if x == b then y else x;
      assert CoListed(s, b, c) && BearsIn(s.dirs[c], image.meta.name);
    } else {
      assert ClashAt(s, k, x, y, i, j);
    }
  }

  lemma RenameClashIff(s: System, t: System, b: BoxId, image: Image)
    requires !Clash(s) && Extended(s, t, b, image)
    ensures !Clash(t) <==> SafeRename(s, b, image.meta.name)
  {
    forall c | c != b && CoListed(s, b, c) && c in s.dirs && BearsIn(s.dirs[c], image.meta.name) ensures Clash(t) {
      var k: nat :| k < |s.listing| && b in s.listing[k] && c in s.listing[k];
      var j: nat :|
        j < |s.dirs[c]| && Supported(s.dirs[c][j].meta) && SameName(s.dirs[c][j].meta.name, image.meta.name);
      assert ClashAt(t, k, b, c, |s.dirs[b]|, j);
    }
    if Clash(t) {
      var k, x, y, i, j :| ClashAt(t, k, x, y, i, j);
      ExtendedClash(s, t, b, image, k, x, y, i, j);
    }
  }

  // Every step.

  lemma PublishLists(s: System, a: Action)
    requires RunInv(s) && Enabled(s, a) && Publishes(s, a)
    ensures Published(s, Do(s, a), s.procs[a.p].job.id, s.procs[a.p].job.image)
  {
    assert StagedOk(s, a.p) && JobOk(s, a.p);
  }

  lemma RenameExtends(s: System, a: Action)
    requires RunInv(s) && Enabled(s, a) && Renames(s, a)
    ensures var l := LeaseOf(s, a.p);
      Extended(s, Do(s, a), l.box, VisibleOf(s, a.p).(meta := l.activity.next))
  {
    LeaseFacts(s, a.p);
  }

  /** From a state without a clash, a step reaches one without a clash exactly when it is safe. */
  lemma StepClashIff(s: System, a: Action)
    requires RunInv(s) && !Clash(s) && Enabled(s, a)
    ensures !Clash(Do(s, a)) <==> SafeStep(s, a)
  {
    if Publishes(s, a) {
      var job := s.procs[a.p].job;
      PublishLists(s, a);
      PublishClashIff(s, Do(s, a), job.id, job.image);
    } else if Renames(s, a) {
      var l := LeaseOf(s, a.p);
      RenameExtends(s, a);
      RenameClashIff(s, Do(s, a), l.box, VisibleOf(s, a.p).(meta := l.activity.next));
    } else {
      OtherStepFrom(s, a);
      FilesFromNoClash(s, Do(s, a));
    }
  }

  lemma StepKeepsRunInv(s: System, a: Action)
    requires RunInv(s) && !Clash(s) && Enabled(s, a)
    ensures RunInv(Do(s, a))
  {
    StepKeepsInv(s, a);
    if a.HostCrash? {
      NoClashIsSafe(s, a);
    } else {
      StepKeepsNames(s, a);
    }
    StepKeepsStaged(s, a);
  }

  /** The job of each process is the one it had, is over, or is not a staged one. */
  predicate NoNewStaged(s: System, t: System) {
    forall p :: p in t.procs && t.procs[p].job.Staged? ==> p in s.procs && t.procs[p].job == s.procs[p].job
  }

  lemma StagedKept(s: System, t: System)
    requires NoNewStaged(s, t) && ListingFrom(s, t) && forall p :: p in s.procs ==> StagedOk(s, p)
    ensures forall p :: p in t.procs ==> StagedOk(t, p)
  {
    forall p | p in t.procs ensures StagedOk(t, p) {
      if t.procs[p].job.Staged? {
        assert StagedOk(s, p);
        forall k | 0 <= k < |t.listing| ensures t.procs[p].job.id !in t.listing[k] {
          assert ListedTogether(s, t.listing[k]);
        }
      }
    }
  }

  lemma JobStaged(s: System, p: ProcId, j: JobStep)
    requires RunInv(s) && p in s.procs && CanJob(s, p, j)
    ensures forall q :: q in DoJob(s, p, j).procs ==> StagedOk(DoJob(s, p, j), q)
  {
    var t := DoJob(s, p, j);
    assert StagedOk(s, p);
    if j.Publish? {
      IndexIsExclusive(s, p);
    } else if j.Stage? {
      assert forall q :: q in s.procs ==> StagedOk(s, q);
    } else {
      JobFrom(s, p, j);
      StagedKept(s, t);
    }
  }

  lemma FileStaged(s: System, p: ProcId, f: FileStep)
    requires RunInv(s) && HasLease(s, p) && CanFile(s, p, f)
    ensures NoNewStaged(s, DoFile(s, p, f)) && ListingFrom(s, DoFile(s, p, f))
  {
    FileJobs(s, p, f);
    if Renames(s, OnFile(p, f)) {
      SameListing(s, DoFile(s, p, f));
    } else {
      FileFrom(s, p, f);
    }
  }

  lemma UseStaged(s: System, p: ProcId, u: UseStep)
    requires RunInv(s) && HasLease(s, p) && CanUse(s, p, u)
    ensures NoNewStaged(s, DoUse(s, p, u)) && ListingFrom(s, DoUse(s, p, u))
  {
    UseJobs(s, p, u);
    UseFrom(s, p, u);
  }

  lemma QuietStaged(s: System, a: Action)
    requires RunInv(s) && Enabled(s, a) && (a.Acquire? || a.Clear? || a.DeleteCheckpoint? || a.Kill?)
    ensures NoNewStaged(s, Do(s, a)) && ListingFrom(s, Do(s, a))
  {
    if a.Kill? {
      KillShape(s, a.p);
    }
    SameListing(s, Do(s, a));
  }

  lemma StepKeepsStaged(s: System, a: Action)
    requires RunInv(s) && Enabled(s, a)
    ensures forall q :: q in Do(s, a).procs ==> StagedOk(Do(s, a), q)
  {
    if a.InJob? {
      JobStaged(s, a.p, a.step);
    } else if !a.HostCrash? {
      match a {
        case OnFile(p, f) => FileStaged(s, p, f);
        case Use(p, u) => UseStaged(s, p, u);
        case _ => QuietStaged(s, a);
      }
      StagedKept(s, Do(s, a));
    }
  }

  // Runs.

  lemma InitialRunInv(s: System)
    requires Initial(s) && !Clash(s)
    ensures RunInv(s)
  {
    InitialInv(s);
    InitiallyDistinct(s);
  }

  lemma {:induction false} ClashFreeRunInv(states: seq<System>, actions: seq<Action>, i: nat)
    requires IsRun(states, actions) && i < |states|
    requires forall k :: 0 <= k < i || k == 0 ==> !Clash(states[k])
    ensures RunInv(states[i])
  {
    if i == 0 {
      InitialRunInv(states[0]);
    } else {
      ClashFreeRunInv(states, actions, i - 1);
      assert StepOf(states[i - 1], actions[i - 1], states[i]);
      StepKeepsRunInv(states[i - 1], actions[i - 1]);
    }
  }

  /** All states up to one are without a clash. */
  lemma {:induction false} SafeRunHasNoClash(states: seq<System>, actions: seq<Action>, i: nat)
    requires IsRun(states, actions) && i < |states| && !Clash(states[0])
    requires forall k :: 0 <= k < i ==> Shaped(states[k]) && SafeStep(states[k], actions[k])
    ensures forall k :: 0 <= k <= i ==> !Clash(states[k])
  {
    if i > 0 {
      SafeRunHasNoClash(states, actions, i - 1);
      ClashFreeRunInv(states, actions, i - 1);
      assert StepOf(states[i - 1], actions[i - 1], states[i]);
      StepClashIff(states[i - 1], actions[i - 1]);
    }
  }

  ghost predicate SafeAt(states: seq<System>, actions: seq<Action>, i: nat)
    requires i < |states| && i < |actions|
  {
    Shaped(states[i]) && SafeStep(states[i], actions[i])
  }

  /** The names of a state are unique, and stay so in every crash of it. */
  ghost predicate NamesSurvive(s: System) { Shaped(s) && Unique(s) && forall a :: CrashIsSafe(s, a) }

  lemma SurviveIff(s: System)
    requires RunInv(s)
    ensures NamesSurvive(s) <==> !Clash(s)
  {
    CrashKeepsNamesIff(s);
  }

  lemma SafeRunSurvives(states: seq<System>, actions: seq<Action>, i: nat)
    requires IsRun(states, actions) && !Clash(states[0]) && i < |states|
    requires forall k: nat :: k < |actions| ==> SafeAt(states, actions, k)
    ensures NamesSurvive(states[i])
  {
    forall k | 0 <= k < i ensures Shaped(states[k]) && SafeStep(states[k], actions[k]) {
      assert SafeAt(states, actions, k);
    }
    SafeRunHasNoClash(states, actions, i);
    ClashFreeRunInv(states, actions, i);
    SurviveIff(states[i]);
  }

  lemma {:induction false} SurvivingHasNoClash(states: seq<System>, actions: seq<Action>, i: nat)
    requires IsRun(states, actions) && !Clash(states[0]) && i < |states|
    requires forall k :: 0 <= k < |states| ==> NamesSurvive(states[k])
    ensures forall k :: 0 <= k <= i ==> !Clash(states[k])
  {
    if i > 0 {
      SurvivingHasNoClash(states, actions, i - 1);
    }
    ClashFreeRunInv(states, actions, i);
    SurviveIff(states[i]);
  }

  lemma SurvivingRunIsSafe(states: seq<System>, actions: seq<Action>, i: nat)
    requires IsRun(states, actions) && !Clash(states[0]) && i < |actions|
    requires forall k :: 0 <= k < |states| ==> NamesSurvive(states[k])
    ensures SafeAt(states, actions, i)
  {
    SurvivingHasNoClash(states, actions, i + 1);
    ClashFreeRunInv(states, actions, i);
    assert StepOf(states[i], actions[i], states[i + 1]);
    StepClashIff(states[i], actions[i]);
  }

  /** Names survive every crash at every point of a run exactly when all its steps are safe. */
  lemma NamesSurviveIff(states: seq<System>, actions: seq<Action>)
    requires IsRun(states, actions) && !Clash(states[0])
    ensures (forall i :: 0 <= i < |states| ==> NamesSurvive(states[i]))
      <==> (forall i: nat :: i < |actions| ==> SafeAt(states, actions, i))
  {
    if forall i :: 0 <= i < |states| ==> NamesSurvive(states[i]) {
      forall i: nat | i < |actions| ensures SafeAt(states, actions, i) {
        SurvivingRunIsSafe(states, actions, i);
      }
    }
    if forall i: nat :: i < |actions| ==> SafeAt(states, actions, i) {
      forall i | 0 <= i < |states| ensures NamesSurvive(states[i]) {
        SafeRunSurvives(states, actions, i);
      }
    }
  }
}
