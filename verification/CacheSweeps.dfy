/**
 What a removal, a prune and a clean achieve among other processes: when one of them has gone through, exactly
 what it was to take is gone. And each of them, left alone, does go through.
 */
module CacheSweeps {
  import opened Base
  import opened CacheProtocol

  /** Between two states neither the host crashes nor does the process stop. */
  predicate GoesOn(actions: seq<Action>, p: Pid, i: nat, j: nat) {
    j <= |actions| && forall n :: i <= n < j ==> !actions[n].Crash? && actions[n] != Stop(p)
  }

  /** While a process sweeps, nobody else changes the disk. */
  lemma OthersLeaveDisk(s: System, a: Action, t: System, p: Pid)
    requires Inv(s) && Step(s, a, t) && !a.Crash? && a.p != p && Sweeps(PhaseOf(s, p))
    ensures t.history != [] && Visible(t) == Visible(s) && PhaseOf(t, p) == PhaseOf(s, p)
  {
    var x := PhaseOf(s, a.p);
    assert a.p in s.phases ==> Compatible(s.phases[p], s.phases[a.p]);
    assert !Pulls(x) && !Sweeps(x);
  }

  lemma OwnStep(s: System, a: Action, t: System)
    requires Step(s, a, t) && !a.Crash?
    ensures t.history != [] && Target(Visible(s), PhaseOf(s, a.p), a).Some?
    ensures Visible(t) == Effect(Visible(s), PhaseOf(s, a.p), a)
    ensures PhaseOf(t, a.p) == Target(Visible(s), PhaseOf(s, a.p), a).value
  {
  }

  // Taking away what was planned.

  datatype Plan = Plan(records: set<Key>, roots: set<Digest>)

  /** Of a plan, all but what is left has been taken from the disk, and nothing else. */
  predicate Taken(before: Disk, plan: Plan, left: Plan, now: Disk) {
    && left.records <= plan.records && left.roots <= plan.roots
    && now == Disk(before.records - (plan.records - left.records), before.roots - (plan.roots - left.roots))
  }

  lemma TakeRecord(before: Disk, plan: Plan, left: Plan, now: Disk, key: Key)
    requires Taken(before, plan, left, now) && key in left.records
    ensures Taken(before, plan, left.(records := left.records - {key}), now.(records := now.records - {key}))
  {
    assert before.records - (plan.records - left.records) - {key}
        == before.records - (plan.records - (left.records - {key}));
  }

  lemma TakeRoot(before: Disk, plan: Plan, left: Plan, now: Disk, d: Digest)
    requires Taken(before, plan, left, now) && d in left.roots
    ensures Taken(before, plan, left.(roots := left.roots - {d}), now.(roots := now.roots - {d}))
  {
    assert before.roots - (plan.roots - left.roots) - {d} == before.roots - (plan.roots - (left.roots - {d}));
  }

  /** What a sweep of this kind still has to take, if the phase is one. */
  function Left(x: Phase, prune: bool): Option<Plan> {
    if !prune && x.Removing? then Some(Plan(x.records, x.roots))
    else if prune && x.Pruning? then Some(Plan(x.records, x.roots))
    else None
  }

  ghost predicate Under(s: System, p: Pid, prune: bool, before: Disk, plan: Plan) {
    && s.history != [] && Left(PhaseOf(s, p), prune).Some?
    && Taken(before, plan, Left(PhaseOf(s, p), prune).value, Visible(s))
  }

  lemma SweepStep(s: System, a: Action, t: System, p: Pid, prune: bool, before: Disk, plan: Plan)
    requires Inv(s) && Step(s, a, t) && !a.Crash? && a != Stop(p) && Under(s, p, prune, before, plan)
    ensures Under(t, p, prune, before, plan)
  {
    var left := Left(PhaseOf(s, p), prune).value;
    if a.p != p {
      OthersLeaveDisk(s, a, t, p);
    } else {
      OwnStep(s, a, t);
      match a
      case RemoveRecord(_, key) => TakeRecord(before, plan, left, Visible(s), key);
      case PruneRecord(_, key) => TakeRecord(before, plan, left, Visible(s), key);
      case RemoveRoot(_, d) => TakeRoot(before, plan, left, Visible(s), d);
      case PruneRoot(_, d) => TakeRoot(before, plan, left, Visible(s), d);
      case _ =>
    }
  }

  lemma {:induction false} SweepRange(states: seq<System>, actions: seq<Action>, p: Pid, prune: bool,
                                      before: Disk, plan: Plan, i: nat, j: nat)
    requires IsRun(states, actions) && i <= j < |states| && GoesOn(actions, p, i, j)
    requires Under(states[i], p, prune, before, plan)
    ensures Under(states[j], p, prune, before, plan)
    decreases j - i
  {
    if i < j {
      SweepRange(states, actions, p, prune, before, plan, i, j - 1);
      RunKeepsInv(states, actions, j - 1);
      SweepStep(states[j - 1], actions[j - 1], states[j], p, prune, before, plan);
    }
  }

  lemma AllTaken(before: Disk, plan: Plan, now: Disk)
    requires Taken(before, plan, Plan({}, {}), now)
    ensures now == Disk(before.records - plan.records, before.roots - plan.roots)
  {
    assert plan.records - {} == plan.records && plan.roots - {} == plan.roots;
  }

  lemma NothingTaken(before: Disk, plan: Plan)
    ensures Taken(before, plan, plan, before)
  {
    assert plan.records - plan.records == {} && plan.roots - plan.roots == {};
    assert before.records - {} == before.records && before.roots - {} == before.roots;
  }

  // A removal.

  /** The record is one that was asked for. */
  predicate AskedFor(disk: Disk, wanted: Wanted, k: Key)
    requires k in disk.records
  {
    (wanted.Reference? && k.reference == wanted.reference) || (wanted.ByDigest? && disk.records[k] == wanted.digest)
  }

  /** The rootfs is the one asked for, or only records that were asked for name it. */
  ghost predicate GoesToo(disk: Disk, wanted: Wanted, d: Digest) {
    if wanted.ByDigest? then d == wanted.digest
    else
      && (exists k :: k in disk.records && AskedFor(disk, wanted, k) && disk.records[k] == d)
      && forall k :: k in disk.records && disk.records[k] == d ==> AskedFor(disk, wanted, k)
  }

  /** Exactly this is gone after a removal. */
  ghost predicate WithoutWanted(before: Disk, wanted: Wanted, now: Disk) {
    && (forall k :: k in now.records <==> k in before.records && !AskedFor(before, wanted, k))
    && (forall d :: d in now.roots <==> d in before.roots && !GoesToo(before, wanted, d))
    && (forall k :: k in now.records ==> now.records[k] == before.records[k])
    && (forall d :: d in now.roots ==> now.roots[d] == before.roots[d])
  }

  lemma PlannedIsWanted(disk: Disk, wanted: Wanted)
    ensures WithoutWanted(disk, wanted,
                          Disk(disk.records - RecordsOf(disk, wanted), disk.roots - RootsOf(disk, wanted)))
  {
    forall k | k in disk.records ensures k in RecordsOf(disk, wanted) <==> AskedFor(disk, wanted, k) {
    }
    forall d | d in disk.roots ensures d in RootsOf(disk, wanted) <==> GoesToo(disk, wanted, d) {
      if wanted.Reference? {
        assert (exists k :: k in RecordsOf(disk, wanted) && disk.records[k] == d)
          <==> exists k :: k in disk.records && AskedFor(disk, wanted, k) && disk.records[k] == d;
      }
    }
  }

  /** Among any other processes: when a removal has nothing left to take, exactly what was wanted is gone. */
  lemma RemovalEnds(states: seq<System>, actions: seq<Action>, p: Pid, wanted: Wanted, i: nat, j: nat)
    requires IsRun(states, actions) && i < j < |states| && actions[i] == StartRemove(p, wanted)
    requires GoesOn(actions, p, i + 1, j) && PhaseOf(states[j], p) == Removing({}, {})
    ensures states[i].history != [] && states[j].history != []
    ensures WithoutWanted(Visible(states[i]), wanted, Visible(states[j]))
  {
    assert Step(states[i], actions[i], states[i + 1]);
    var before := Visible(states[i]);
    var plan := Plan(RecordsOf(before, wanted), RootsOf(before, wanted));
    OwnStep(states[i], actions[i], states[i + 1]);
    NothingTaken(before, plan);
    SweepRange(states, actions, p, false, before, plan, i + 1, j);
    AllTaken(before, plan, Visible(states[j]));
    PlannedIsWanted(before, wanted);
  }

  // A prune.

  /** Exactly the incomplete root filesystems and the records without a complete one are gone. */
  ghost predicate WithoutWaste(before: Disk, now: Disk) {
    && (forall d :: d in now.roots <==> d in before.roots && before.roots[d])
    && (forall k :: k in now.records <==> k in before.records && before.records[k] in before.roots
                                          && before.roots[before.records[k]])
    && (forall k :: k in now.records ==> now.records[k] == before.records[k])
    && (forall d :: d in now.roots ==> now.roots[d])
  }

  lemma PruneEnds(states: seq<System>, actions: seq<Action>, p: Pid, i: nat, j: nat)
    requires IsRun(states, actions) && i < j < |states| && actions[i] == StartPrune(p)
    requires GoesOn(actions, p, i + 1, j) && PhaseOf(states[j], p) == Pruning({}, {})
    ensures states[i].history != [] && states[j].history != []
    ensures WithoutWaste(Visible(states[i]), Visible(states[j]))
  {
    assert Step(states[i], actions[i], states[i + 1]);
    var before := Visible(states[i]);
    var incomplete := set d | d in before.roots && !before.roots[d];
    var stale := set k | k in before.records && !HasComplete(before, before.records[k]);
    var plan := Plan(stale, incomplete);
    OwnStep(states[i], actions[i], states[i + 1]);
    NothingTaken(before, plan);
    SweepRange(states, actions, p, true, before, plan, i + 1, j);
    AllTaken(before, plan, Visible(states[j]));
  }

  // A clean.

  /** How far a clean has come. */
  ghost predicate CleaningFrom(s: System, p: Pid) {
    && s.history != []
    && (PhaseOf(s, p) == CleaningImages || (PhaseOf(s, p) == CleaningRoots && Visible(s).records == map[]))
  }

  lemma {:induction false} CleanRange(states: seq<System>, actions: seq<Action>, p: Pid, i: nat, j: nat)
    requires IsRun(states, actions) && i <= j < |states| && GoesOn(actions, p, i, j)
    requires forall n :: i <= n < j ==> actions[n] != CleanRoots(p)
    requires CleaningFrom(states[i], p)
    ensures CleaningFrom(states[j], p)
    decreases j - i
  {
    if i < j {
      CleanRange(states, actions, p, i, j - 1);
      RunKeepsInv(states, actions, j - 1);
      assert Step(states[j - 1], actions[j - 1], states[j]);
      if actions[j - 1].p != p {
        OthersLeaveDisk(states[j - 1], actions[j - 1], states[j], p);
      } else {
        OwnStep(states[j - 1], actions[j - 1], states[j]);
      }
    }
  }

  /** A clean that has gone through leaves neither records nor root filesystems. */
  lemma CleanEnds(states: seq<System>, actions: seq<Action>, p: Pid, i: nat, j: nat)
    requires IsRun(states, actions) && i < j < |actions| && actions[i] == StartClean(p) && actions[j] == CleanRoots(p)
    requires GoesOn(actions, p, i + 1, j) && forall n :: i < n < j ==> actions[n] != CleanRoots(p)
    ensures states[j + 1].history != [] && Visible(states[j + 1]) == Disk(map[], map[])
    ensures PhaseOf(states[j + 1], p) == Idle
  {
    assert Step(states[i], actions[i], states[i + 1]);
    OwnStep(states[i], actions[i], states[i + 1]);
    CleanRange(states, actions, p, i + 1, j);
    assert Step(states[j], actions[j], states[j + 1]);
    OwnStep(states[j], actions[j], states[j + 1]);
  }

  // Each of them can be run to its end.

  function PhaseOfPlan(prune: bool, left: Plan): Phase {
    if prune then Pruning(left.roots, left.records) else Removing(left.records, left.roots)
  }

  /** A process alone takes what is left of its sweep, one record or rootfs after another. */
  lemma {:induction false} SweepFinishes(states: seq<System>, actions: seq<Action>, h: seq<Disk>, p: Pid,
                                         prune: bool, left: Plan)
      returns (longer: seq<System>, more: seq<Action>)
    requires IsRun(states, actions) && h != []
    requires states[|actions|] == Alone(h, p, PhaseOfPlan(prune, left))
    ensures IsRun(longer, more) && longer[0] == states[0]
    ensures PhaseOf(longer[|longer| - 1], p) == if prune then Pruning({}, {}) else Removing({}, {})
    decreases |left.records| + |left.roots|
  {
    if left.records == {} && left.roots == {} {
      longer, more := states, actions;
    } else {
      var a, next := NextTake(h[|h| - 1], p, prune, left);
      var disk: Disk;
      longer, disk := AloneGoesOn(states, actions, h, p, PhaseOfPlan(prune, left), a);
      longer, more := SweepFinishes(longer, actions + [a], h + [disk], p, prune, next);
    }
  }

  /** What a sweep takes next: a removal its records first, a prune its root filesystems first. */
  lemma NextTake(disk: Disk, p: Pid, prune: bool, left: Plan) returns (a: Action, next: Plan)
    requires left.records != {} || left.roots != {}
    ensures !a.Crash? && a.p == p && |next.records| + |next.roots| < |left.records| + |left.roots|
    ensures Target(disk, PhaseOfPlan(prune, left), a) == Some(PhaseOfPlan(prune, next))
  {
    if left.records != {} && (!prune || left.roots == {}) {
      var key :| key in left.records;
      a := if prune then PruneRecord(p, key) else RemoveRecord(p, key);
      next := left.(records := left.records - {key});
    } else {
      var d :| d in left.roots;
      a := if prune then PruneRoot(p, d) else RemoveRoot(p, d);
      next := left.(roots := left.roots - {d});
    }
  }

  /** A removal of something that is there, left alone, goes through. */
  lemma RemovalGoesThrough(disk: Disk, p: Pid, wanted: Wanted) returns (states: seq<System>, actions: seq<Action>)
    requires DiskOk(disk) && (exists k :: k in disk.records && AskedFor(disk, wanted, k))
    ensures IsRun(states, actions) && states[0] == Alone([disk], p, Idle)
    ensures PhaseOf(states[|states| - 1], p) == Removing({}, {})
  {
    var k :| k in disk.records && AskedFor(disk, wanted, k);
    assert k in RecordsOf(disk, wanted);
    var now: Disk;
    states, now := AloneGoesOn([Alone([disk], p, Idle)], [], [disk], p, Idle, StartRemove(p, wanted));
    var plan := Plan(RecordsOf(disk, wanted), RootsOf(disk, wanted));
    states, actions := SweepFinishes(states, [] + [StartRemove(p, wanted)], [disk] + [now], p, false, plan);
  }

  lemma PruneGoesThrough(disk: Disk, p: Pid) returns (states: seq<System>, actions: seq<Action>)
    requires DiskOk(disk)
    ensures IsRun(states, actions) && states[0] == Alone([disk], p, Idle)
    ensures PhaseOf(states[|states| - 1], p) == Pruning({}, {})
  {
    var incomplete := set d | d in disk.roots && !disk.roots[d];
    var stale := set k | k in disk.records && !HasComplete(disk, disk.records[k]);
    var now: Disk;
    states, now := AloneGoesOn([Alone([disk], p, Idle)], [], [disk], p, Idle, StartPrune(p));
    states, actions := SweepFinishes(states, [] + [StartPrune(p)], [disk] + [now], p, true, Plan(stale, incomplete));
  }

  lemma CleanGoesThrough(disk: Disk, p: Pid) returns (states: seq<System>, actions: seq<Action>)
    requires DiskOk(disk)
    ensures IsRun(states, actions) && states[0] == Alone([disk], p, Idle)
    ensures actions == [StartClean(p), CleanImages(p), CleanRoots(p)]
  {
    var now: Disk, h: seq<Disk>;
    h := [disk];
    states, now := AloneGoesOn([Alone(h, p, Idle)], [], h, p, Idle, StartClean(p));
    actions, h := [] + [StartClean(p)], h + [now];
    states, now := AloneGoesOn(states, actions, h, p, CleaningImages, CleanImages(p));
    actions, h := actions + [CleanImages(p)], h + [now];
    states, now := AloneGoesOn(states, actions, h, p, CleaningRoots, CleanRoots(p));
    actions := actions + [CleanRoots(p)];
  }

  /** Any process can stop at any time, and is idle then; the disk stays as it is. */
  lemma StopIsFree(s: System, p: Pid)
    requires s.history != []
    ensures Step(s, Stop(p), System(s.history + [Visible(s)], s.phases[p := Idle]))
  {
  }
}
