/**
 Pulls, lookups, removals, prunes and cleans of several processes on one image cache. A process may
 stop at any step, which drops its locks, and the host may crash. Every image record names a digest
 whose rootfs is complete, because a pull publishes the rootfs before it records it, and a removal
 takes the records away before the root filesystems.
 */
module CacheProtocol {
  import opened Base

  type Pid = nat
  type Digest = seq<byte>

  /** What a record is filed under. */
  datatype Key = Key(reference: string, platform: string)

  /** What a removal is asked for. */
  datatype Wanted = Reference(reference: string) | ByDigest(digest: Digest)

  /** The record and the rootfs directories; a rootfs is complete once it holds its marker. */
  datatype Disk = Disk(records: map<Key, Digest>, roots: map<Digest, bool>)

  /** What a process is doing, and with it the locks it holds. */
  datatype Phase =
    | Idle
    | Looking(key: Key, found: Option<Digest>)      // metadata shared
    | Pulling(key: Key)                             // activity shared, reference
    | Staged(key: Key, d: Digest)                   // the tree is materialized in a staging directory
    | Checking(key: Key, d: Digest)                 // and holds the digest lock
    | Published(key: Key, d: Digest)                // the rootfs is in place
    | Recording(key: Key, d: Digest)                // and holds the metadata lock, exclusively
    | Removing(records: set<Key>, roots: set<Digest>) // activity and metadata exclusively, from here on
    | Pruning(roots: set<Digest>, records: set<Key>)
    | CleaningImages
    | CleaningRoots

  /** `history` holds the disk states so far, in the order the updates were issued; the last is visible. */
  datatype System = System(history: seq<Disk>, phases: map<Pid, Phase>)

  datatype Action =
    | Look(p: Pid, key: Key)
    | StartPull(p: Pid, key: Key)
    | Stage(p: Pid, d: Digest)
    | LockDigest(p: Pid)
    | Publish(p: Pid)
    | LockMetadata(p: Pid)
    | Record(p: Pid)
    | StartRemove(p: Pid, wanted: Wanted)
    | RemoveRecord(p: Pid, key: Key)
    | RemoveRoot(p: Pid, d: Digest)
    | StartPrune(p: Pid)
    | PruneRoot(p: Pid, d: Digest)
    | PruneRecord(p: Pid, key: Key)
    | StartClean(p: Pid)
    | CleanImages(p: Pid)
    | CleanRoots(p: Pid)
    | Stop(p: Pid)          // done, failed or killed
    | Crash(state: nat)

  function Visible(s: System): Disk
    requires s.history != []
  {
    s.history[|s.history| - 1]
  }

  // Locks.

  predicate Pulls(x: Phase) { x.Pulling? || x.Staged? || x.Checking? || x.Published? || x.Recording? }

  predicate Sweeps(x: Phase) { x.Removing? || x.Pruning? || x.CleaningImages? || x.CleaningRoots? }

  /** Two processes may be in these phases at once: no lock of one conflicts with a lock of the other. */
  predicate Compatible(x: Phase, y: Phase) {
    && !(Sweeps(x) && (Sweeps(y) || Pulls(y))) && !(Sweeps(y) && Pulls(x))
    && !(HoldsMetadata(x) && (HoldsMetadata(y) || y.Looking?)) && !(HoldsMetadata(y) && x.Looking?)
    && (Pulls(x) && Pulls(y) ==> x.key != y.key)
    && (HoldsDigest(x) && HoldsDigest(y) ==> x.d != y.d)
  }

  predicate HoldsMetadata(x: Phase) { x.Recording? || Sweeps(x) }

  predicate HoldsDigest(x: Phase) { x.Checking? || x.Published? || x.Recording? }

  /** A process may enter a phase when every lock that phase adds is free. */
  predicate Free(s: System, p: Pid, x: Phase) {
    forall q :: q in s.phases && q != p ==> Compatible(x, s.phases[q])
  }

  function PhaseOf(s: System, p: Pid): Phase { if p in s.phases then s.phases[p] else Idle }

  // Steps.

  /** A rootfs may be removed with a set of records when no other record names it. */
  predicate OnlyNamedBy(disk: Disk, roots: set<Digest>, records: set<Key>) {
    forall k :: k in disk.records && disk.records[k] in roots ==> k in records
  }

  predicate HasComplete(disk: Disk, d: Digest) { d in disk.roots && disk.roots[d] }

  /** The records a removal takes away. */
  function RecordsOf(disk: Disk, wanted: Wanted): set<Key> {
    set k | k in disk.records
      && match wanted case Reference(r) => k.reference == r case ByDigest(d) => disk.records[k] == d
  }

  /** The root filesystems a removal takes away: the one asked for, or those no other record names. */
  function RootsOf(disk: Disk, wanted: Wanted): set<Digest> {
    match wanted
    case ByDigest(d) => if d in disk.roots then {d} else {}
    case Reference(_) =>
      set d | d in disk.roots
        && (exists k :: k in RecordsOf(disk, wanted) && disk.records[k] == d)
        && !(exists k :: k in disk.records && k !in RecordsOf(disk, wanted) && disk.records[k] == d)
  }

  /** What is planned is safe: only the records that go name the root filesystems that go. */
  lemma PlanIsSafe(disk: Disk, wanted: Wanted)
    ensures OnlyNamedBy(disk, RootsOf(disk, wanted), RecordsOf(disk, wanted))
  {
  }

  /** The phase a step leads to, if the step is possible; locks aside. */
  function Target(disk: Disk, x: Phase, a: Action): Option<Phase> {
    match a
    case Look(_, key) =>
      var found :=
        if key in disk.records && HasComplete(disk, disk.records[key]) then Some(disk.records[key]) else None;
      if x.Idle? then Some(Looking(key, found)) else None
    case StartPull(_, key) => if x.Idle? then Some(Pulling(key)) else None
    case Stage(_, d) => if x.Pulling? then Some(Staged(x.key, d)) else None
    case LockDigest(_) => if x.Staged? then Some(Checking(x.key, x.d)) else None
    case Publish(_) =>
      if !x.Checking? || (x.d in disk.roots && !disk.roots[x.d]) then None else Some(Published(x.key, x.d))
    case LockMetadata(_) => if x.Published? then Some(Recording(x.key, x.d)) else None
    case Record(_) => if x.Recording? then Some(Idle) else None
    case StartRemove(_, wanted) =>
      var records, roots := RecordsOf(disk, wanted), RootsOf(disk, wanted);
      if x.Idle? && (records != {} || roots != {}) then Some(Removing(records, roots)) else None
    case RemoveRecord(_, key) =>
      if x.Removing? && key in x.records then Some(Removing(x.records - {key}, x.roots)) else None
    case RemoveRoot(_, d) =>
      if x.Removing? && x.records == {} && d in x.roots then Some(Removing({}, x.roots - {d})) else None
    case StartPrune(_) =>
      var incomplete := set d | d in disk.roots && !disk.roots[d];
      var stale := set k | k in disk.records && !HasComplete(disk, disk.records[k]);
      if x.Idle? then Some(Pruning(incomplete, stale)) else None
    case PruneRoot(_, d) =>
      if x.Pruning? && d in x.roots then Some(Pruning(x.roots - {d}, x.records)) else None
    case PruneRecord(_, key) =>
      if x.Pruning? && x.roots == {} && key in x.records then Some(Pruning({}, x.records - {key})) else None
    case StartClean(_) => if x.Idle? then Some(CleaningImages) else None
    case CleanImages(_) => if x.CleaningImages? then Some(CleaningRoots) else None
    case CleanRoots(_) => if x.CleaningRoots? then Some(Idle) else None
    case Stop(_) => Some(Idle)
    case Crash(_) => None
  }

  /** What a step does to the disk. */
  function Effect(disk: Disk, x: Phase, a: Action): Disk {
    match a
    case Publish(_) => if x.Checking? && x.d !in disk.roots then disk.(roots := disk.roots[x.d := true]) else disk
    case Record(_) => if x.Recording? then disk.(records := disk.records[x.key := x.d]) else disk
    case RemoveRecord(_, key) => disk.(records := disk.records - {key})
    case RemoveRoot(_, d) => disk.(roots := disk.roots - {d})
    case PruneRoot(_, d) => disk.(roots := disk.roots - {d})
    case PruneRecord(_, key) => disk.(records := disk.records - {key})
    case CleanImages(_) => disk.(records := map[])
    case CleanRoots(_) => disk.(roots := map[])
    case _ => disk
  }

  ghost predicate Step(s: System, a: Action, t: System) {
    && s.history != []
    && match a
       case Crash(k) => k < |s.history| && t == System(s.history[..k + 1], map[])
       case _ =>
         var x := PhaseOf(s, a.p);
         var y := Target(Visible(s), x, a);
         y.Some? && Free(s, a.p, y.value)
         && t == System(s.history + [Effect(Visible(s), x, a)], s.phases[a.p := y.value])
  }

  // The invariant.

  predicate DiskOk(disk: Disk) { forall k :: k in disk.records ==> HasComplete(disk, disk.records[k]) }

  /** What a process relies on, of the visible disk. */
  predicate Relies(disk: Disk, x: Phase) {
    match x
    case Looking(key, found) =>
      found.Some? ==> key in disk.records && disk.records[key] == found.value && HasComplete(disk, found.value)
    case Published(_, d) => HasComplete(disk, d)
    case Recording(_, d) => HasComplete(disk, d)
    case Removing(records, roots) => OnlyNamedBy(disk, roots, records)
    case Pruning(roots, _) => forall d :: d in roots ==> !HasComplete(disk, d)
    case CleaningRoots => disk.records == map[]
    case _ => true
  }

  ghost predicate Inv(s: System) {
    && s.history != []
    && (forall i :: 0 <= i < |s.history| ==> DiskOk(s.history[i]))
    && (forall p :: p in s.phases ==> Relies(Visible(s), s.phases[p]))
    && (forall p, q :: p in s.phases && q in s.phases && p != q ==> Compatible(s.phases[p], s.phases[q]))
  }

  lemma EffectKeepsDisk(disk: Disk, x: Phase, a: Action)
    requires DiskOk(disk) && Relies(disk, x) && Target(disk, x, a).Some?
    ensures DiskOk(Effect(disk, x, a))
  {
    var after := Effect(disk, x, a);
    forall k | k in after.records ensures HasComplete(after, after.records[k]) {
      assert k in disk.records ==> HasComplete(disk, disk.records[k]);
    }
  }

  lemma EffectEstablishes(disk: Disk, x: Phase, a: Action)
    requires DiskOk(disk) && Relies(disk, x) && Target(disk, x, a).Some?
    ensures Relies(Effect(disk, x, a), Target(disk, x, a).value)
  {
    if a.StartRemove? {
      PlanIsSafe(disk, a.wanted);
    }
  }

  /** Another process's step spares what a process relies on: its locks see to that. */
  lemma EffectSpares(disk: Disk, x: Phase, a: Action, other: Phase)
    requires DiskOk(disk) && Relies(disk, x) && Relies(disk, other) && Target(disk, x, a).Some?
    requires Compatible(x, other)
    ensures Relies(Effect(disk, x, a), other)
  {
  }

  lemma CompatibleSymmetric(x: Phase, y: Phase)
    ensures Compatible(x, y) <==> Compatible(y, x)
  {
  }

  /** Every step of every process, a stop and a crash keep the invariant. */
  lemma StepKeepsInv(s: System, a: Action, t: System)
    requires Inv(s) && Step(s, a, t)
    ensures Inv(t)
  {
    if !a.Crash? {
      var disk, x := Visible(s), PhaseOf(s, a.p);
      var y := Target(disk, x, a).value;
      assert DiskOk(disk) && Relies(disk, x);
      EffectKeepsDisk(disk, x, a);
      EffectEstablishes(disk, x, a);
      forall q | q in s.phases && q != a.p
        ensures Relies(Effect(disk, x, a), s.phases[q]) && Compatible(y, s.phases[q]) && Compatible(s.phases[q], y)
      {
        assert x == Idle || Compatible(x, s.phases[q]);
        EffectSpares(disk, x, a, s.phases[q]);
        CompatibleSymmetric(y, s.phases[q]);
      }
      assert Visible(t) == Effect(disk, x, a);
    }
  }

  ghost predicate IsRun(states: seq<System>, actions: seq<Action>) {
    && |states| == |actions| + 1
    && Inv(states[0])
    && forall i :: 0 <= i < |actions| ==> Step(states[i], actions[i], states[i + 1])
  }

  lemma {:induction false} RunKeepsInv(states: seq<System>, actions: seq<Action>, i: nat)
    requires IsRun(states, actions) && i < |states|
    ensures Inv(states[i])
  {
    if i > 0 {
      RunKeepsInv(states, actions, i - 1);
      StepKeepsInv(states[i - 1], actions[i - 1], states[i]);
    }
  }

  /** In every reachable state, every record names a digest whose rootfs is present and complete. */
  lemma RecordImpliesRootfs(states: seq<System>, actions: seq<Action>, i: nat, key: Key)
    requires IsRun(states, actions) && i < |states|
    ensures states[i].history != []
    ensures key in Visible(states[i]).records ==> HasComplete(Visible(states[i]), Visible(states[i]).records[key])
  {
    RunKeepsInv(states, actions, i);
    assert DiskOk(Visible(states[i]));
  }

  /** Two processes never pull one key or work on one rootfs at once, and a sweep has the cache to itself. */
  lemma LocksExclude(states: seq<System>, actions: seq<Action>, i: nat, p: Pid, q: Pid)
    requires IsRun(states, actions) && i < |states| && p != q
    ensures var x, y := PhaseOf(states[i], p), PhaseOf(states[i], q);
      && (Pulls(x) && Pulls(y) ==> x.key != y.key)
      && (x.Checking? || x.Published? || x.Recording? ==>
            y.Checking? || y.Published? || y.Recording? ==> x.d != y.d)
      && ((x.Removing? || x.Pruning? || x.CleaningImages? || x.CleaningRoots?) ==> y.Idle?)
      && (x.Recording? ==> !y.Recording? && !y.Looking?)
  {
    RunKeepsInv(states, actions, i);
    if p in states[i].phases && q in states[i].phases {
      assert Compatible(states[i].phases[p], states[i].phases[q]);
    }
  }

  /** What a lookup found stays as it found it for as long as it holds its lock. */
  lemma LookupsAreStable(states: seq<System>, actions: seq<Action>, i: nat, p: Pid)
    requires IsRun(states, actions) && i < |states|
    requires PhaseOf(states[i], p).Looking? && PhaseOf(states[i], p).found.Some?
    ensures states[i].history != []
    ensures var x, disk := PhaseOf(states[i], p), Visible(states[i]);
      x.key in disk.records && disk.records[x.key] == x.found.value && HasComplete(disk, x.found.value)
  {
    RunKeepsInv(states, actions, i);
    assert Relies(Visible(states[i]), states[i].phases[p]);
  }

  /** A lookup finds a digest exactly when its record names it and its rootfs is complete. */
  lemma LookAnswers(s: System, p: Pid, key: Key, t: System, d: Digest)
    requires Step(s, Look(p, key), t)
    ensures PhaseOf(t, p) == Looking(key, Some(d)) <==>
      key in Visible(s).records && Visible(s).records[key] == d && HasComplete(Visible(s), d)
    ensures PhaseOf(t, p).Looking? && Visible(t) == Visible(s)
  {
  }

  /** In any run, whatever the other processes do, a pull that records leaves its record and its rootfs in place. */
  lemma RecordedIsComplete(states: seq<System>, actions: seq<Action>, i: nat)
    requires IsRun(states, actions) && i < |actions| && actions[i].Record?
    ensures PhaseOf(states[i], actions[i].p).Recording? && states[i + 1].history != []
    ensures var x, disk := PhaseOf(states[i], actions[i].p), Visible(states[i + 1]);
      x.key in disk.records && disk.records[x.key] == x.d && HasComplete(disk, x.d)
  {
    RunKeepsInv(states, actions, i + 1);
    assert Step(states[i], actions[i], states[i + 1]);
    assert DiskOk(Visible(states[i + 1]));
  }

  // What a pull achieves, and what a crash could do to a removal.

  function Alone(h: seq<Disk>, p: Pid, x: Phase): System { System(h, map[p := x]) }

  /** A process by itself finds every lock free. */
  lemma AloneStep(h: seq<Disk>, p: Pid, x: Phase, a: Action)
    requires h != [] && !a.Crash? && a.p == p && Target(h[|h| - 1], x, a).Some?
    ensures var disk := h[|h| - 1];
      Step(Alone(h, p, x), a, Alone(h + [Effect(disk, x, a)], p, Target(disk, x, a).value))
  {
    var y := Target(h[|h| - 1], x, a).value;
    assert map[p := x][p := y] == map[p := y];
  }

  /** A run that ends with a process alone goes on with that process's next step. */
  lemma AloneGoesOn(states: seq<System>, actions: seq<Action>, h: seq<Disk>, p: Pid, x: Phase, a: Action)
    returns (longer: seq<System>, disk: Disk)
    requires IsRun(states, actions) && states[|actions|] == Alone(h, p, x)
    requires h != [] && !a.Crash? && a.p == p && Target(h[|h| - 1], x, a).Some?
    ensures IsRun(longer, actions + [a]) && longer[0] == states[0]
    ensures disk == Effect(h[|h| - 1], x, a)
    ensures longer[|actions| + 1] == Alone(h + [disk], p, Target(h[|h| - 1], x, a).value)
  {
    AloneStep(h, p, x, a);
    disk := Effect(h[|h| - 1], x, a);
    longer := states + [Alone(h + [disk], p, Target(h[|h| - 1], x, a).value)];
  }

  function PullDisk(disk: Disk, key: Key, d: Digest): Disk {
    Disk(disk.records[key := d], if d in disk.roots then disk.roots else disk.roots[d := true])
  }

  lemma PullStages(disk: Disk, p: Pid, key: Key, d: Digest)
    returns (states: seq<System>, actions: seq<Action>, h: seq<Disk>)
    requires DiskOk(disk)
    ensures IsRun(states, actions) && states[0] == Alone([disk], p, Idle)
    ensures h != [] && h[|h| - 1] == disk && states[|actions|] == Alone(h, p, Checking(key, d))
  {
    var now: Disk;
    h := [disk];
    states, actions := [Alone(h, p, Idle)], [];
    states, now := AloneGoesOn(states, actions, h, p, Idle, StartPull(p, key));
    actions, h := actions + [StartPull(p, key)], h + [now];
    states, now := AloneGoesOn(states, actions, h, p, Pulling(key), Stage(p, d));
    actions, h := actions + [Stage(p, d)], h + [now];
    states, now := AloneGoesOn(states, actions, h, p, Staged(key, d), LockDigest(p));
    actions, h := actions + [LockDigest(p)], h + [now];
  }

  /** A pull left alone goes through unless an incomplete rootfs is in its way: it ends with its record in place. */
  lemma PullGoesThrough(disk: Disk, p: Pid, key: Key, d: Digest) returns (states: seq<System>, actions: seq<Action>)
    requires DiskOk(disk) && (d in disk.roots ==> disk.roots[d])
    ensures IsRun(states, actions) && states[0] == Alone([disk], p, Idle)
    ensures var last := states[|states| - 1];
      last.history != [] && Visible(last) == PullDisk(disk, key, d) && PhaseOf(last, p) == Idle
  {
    var now: Disk, h: seq<Disk>;
    states, actions, h := PullStages(disk, p, key, d);
    states, now := AloneGoesOn(states, actions, h, p, Checking(key, d), Publish(p));
    actions, h := actions + [Publish(p)], h + [now];
    states, now := AloneGoesOn(states, actions, h, p, Published(key, d), LockMetadata(p));
    actions, h := actions + [LockMetadata(p)], h + [now];
    states, now := AloneGoesOn(states, actions, h, p, Recording(key, d), Record(p));
    actions := actions + [Record(p)];
  }

  /** The next state of a process by itself is determined. */
  lemma AloneStepIs(h: seq<Disk>, p: Pid, x: Phase, a: Action, t: System)
    requires h != [] && !a.Crash? && a.p == p && Step(Alone(h, p, x), a, t)
    ensures var disk := h[|h| - 1];
      Target(disk, x, a).Some? && t == Alone(h + [Effect(disk, x, a)], p, Target(disk, x, a).value)
  {
    var y := Target(h[|h| - 1], x, a).value;
    assert map[p := x][p := y] == map[p := y];
  }

  /** The last disk and the phase of a process alone after some of its actions. */
  function AloneAfter(disk: Disk, x: Phase, actions: seq<Action>): Option<(Disk, Phase)>
    decreases |actions|
  {
    if actions == [] then Some((disk, x))
    else
      var last := AloneAfter(disk, x, actions[..|actions| - 1]);
      if last.None? then None
      else
        var a := actions[|actions| - 1];
        match Target(last.value.0, last.value.1, a)
        case None => None
        case Some(y) => Some((Effect(last.value.0, last.value.1, a), y))
  }

  /** The beginning of a run is a run. */
  lemma RunPrefix(states: seq<System>, actions: seq<Action>, n: nat)
    requires IsRun(states, actions) && n <= |actions|
    ensures IsRun(states[..n + 1], actions[..n])
  {
    var before := states[..n + 1];
    forall i | 0 <= i < n ensures Step(before[i], actions[..n][i], before[i + 1]) {
      assert Step(states[i], actions[i], states[i + 1]);
    }
  }

  /** Every run of a process alone follows its program. */
  lemma {:induction false} AloneRun(disk: Disk, p: Pid, x: Phase, states: seq<System>, actions: seq<Action>)
    requires IsRun(states, actions) && states[0] == Alone([disk], p, x)
    requires forall i :: 0 <= i < |actions| ==> !actions[i].Crash? && actions[i].p == p
    ensures var r := AloneAfter(disk, x, actions);
      && r.Some? && states[|actions|].history != [] && Visible(states[|actions|]) == r.value.0
      && states[|actions|] == Alone(states[|actions|].history, p, r.value.1)
    decreases |actions|
  {
    if actions != [] {
      var n := |actions| - 1;
      RunPrefix(states, actions, n);
      AloneRun(disk, p, x, states[..n + 1], actions[..n]);
      assert Step(states[n], actions[n], states[n + 1]);
      AloneStepIs(states[n].history, p, AloneAfter(disk, x, actions[..n]).value.1, actions[n], states[n + 1]);
    }
  }

  function PullActions(p: Pid, key: Key, d: Digest): seq<Action> {
    [StartPull(p, key)] + [Stage(p, d)] + [LockDigest(p)] + [Publish(p)] + [LockMetadata(p)] + [Record(p)]
  }

  lemma AloneAfterSnoc(disk: Disk, x: Phase, actions: seq<Action>, a: Action)
    ensures AloneAfter(disk, x, actions + [a]) ==
      var last := AloneAfter(disk, x, actions);
      if last.None? || Target(last.value.0, last.value.1, a).None? then None
      else Some((Effect(last.value.0, last.value.1, a), Target(last.value.0, last.value.1, a).value))
  {
    assert (actions + [a])[..|actions|] == actions;
  }

  lemma PullAfter(disk: Disk, p: Pid, key: Key, d: Digest)
    requires d in disk.roots ==> disk.roots[d]
    ensures AloneAfter(disk, Idle, PullActions(p, key, d)) == Some((PullDisk(disk, key, d), Idle))
  {
    var a1 := [StartPull(p, key)];
    var a2 := a1 + [Stage(p, d)];
    var a3 := a2 + [LockDigest(p)];
    var a4 := a3 + [Publish(p)];
    var a5 := a4 + [LockMetadata(p)];
    assert [] + a1 == a1;
    AloneAfterSnoc(disk, Idle, [], StartPull(p, key));
    AloneAfterSnoc(disk, Idle, a1, Stage(p, d));
    AloneAfterSnoc(disk, Idle, a2, LockDigest(p));
    AloneAfterSnoc(disk, Idle, a3, Publish(p));
    AloneAfterSnoc(disk, Idle, a4, LockMetadata(p));
    AloneAfterSnoc(disk, Idle, a5, Record(p));
  }

  /** Every run of a pull left alone ends with its rootfs and record in place. */
  lemma LonePullEnds(disk: Disk, p: Pid, key: Key, d: Digest, states: seq<System>)
    requires IsRun(states, PullActions(p, key, d)) && states[0] == Alone([disk], p, Idle)
    requires d in disk.roots ==> disk.roots[d]
    ensures states[6].history != [] && Visible(states[6]) == PullDisk(disk, key, d) && PhaseOf(states[6], p) == Idle
  {
    AloneRun(disk, p, Idle, states, PullActions(p, key, d));
    PullAfter(disk, p, key, d);
  }

  /**
   Were the two directories to persist independently, a crash during a removal could bring back a
   record without its rootfs: nothing syncs the record directory before the rootfs goes.
   */
  lemma IndependentDirectoriesStrandRecords(disk: Disk, key: Key, d: Digest)
    requires DiskOk(disk) && key in disk.records && disk.records[key] == d && OnlyNamedBy(disk, {d}, {key})
    ensures
      var later :=
        Effect(Effect(disk, Removing({key}, {d}), RemoveRecord(0, key)), Removing({}, {d}), RemoveRoot(0, d));
      DiskOk(disk) && DiskOk(later) && !DiskOk(Disk(disk.records, later.roots))
  {
    var first := Effect(disk, Removing({key}, {d}), RemoveRecord(0, key));
    EffectKeepsDisk(disk, Removing({key}, {d}), RemoveRecord(0, key));
    EffectKeepsDisk(first, Removing({}, {d}), RemoveRoot(0, d));
    assert key in disk.records;
  }
}
