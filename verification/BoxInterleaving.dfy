/**
 The metadata calls of the Box store among other processes. Whatever others do between the system calls of a
 call, except for killing its process or crashing the host, the call leaves what it would leave alone.
 */
module BoxInterleaving {
  import opened Base
  import opened Boxes
  import opened BoxProtocol
  import opened BoxSafety
  import opened BoxCalls

  /** An action of another process, or of none. */
  predicate Foreign(a: Action, p: ProcId) {
    match a
    case Acquire(q, _) => q != p
    case Use(q, _) => q != p
    case OnFile(q, _) => q != p
    case InJob(q, _) => q != p
    case Kill(q) => q != p
    case Clear(_) => true
    case DeleteCheckpoint(_) => true
    case HostCrash(_, _, _) => false
  }

  /** The process and the directory of the Box it leases are as they were. */
  predicate Kept(s: System, t: System, p: ProcId, b: BoxId) {
    p in s.procs && p in t.procs && t.procs[p] == s.procs[p] && b in s.dirs && b in t.dirs && t.dirs[b] == s.dirs[b]
  }

  lemma ForeignUse(s: System, q: ProcId, u: UseStep, p: ProcId, b: BoxId)
    requires Inv(s) && HasLease(s, p) && LeaseOf(s, p).box == b && q != p && HasLease(s, q) && CanUse(s, q, u)
    ensures Kept(s, DoUse(s, q, u), p, b)
  {
  }

  lemma ForeignFile(s: System, q: ProcId, f: FileStep, p: ProcId, b: BoxId)
    requires Inv(s) && HasLease(s, p) && LeaseOf(s, p).box == b && q != p && HasLease(s, q) && CanFile(s, q, f)
    ensures Kept(s, DoFile(s, q, f), p, b)
  {
    LeaseIsExclusive(s, p);
    assert Elsewhere(s.procs[q], Some(b));
  }

  lemma ForeignJob(s: System, q: ProcId, j: JobStep, p: ProcId, b: BoxId)
    requires Inv(s) && HasLease(s, p) && LeaseOf(s, p).box == b && q != p && q in s.procs && CanJob(s, q, j)
    ensures Kept(s, DoJob(s, q, j), p, b)
  {
    assert JobOk(s, q);
  }

  lemma ForeignKeeps(s: System, a: Action, p: ProcId, b: BoxId)
    requires Inv(s) && HasLease(s, p) && LeaseOf(s, p).box == b && Enabled(s, a) && Foreign(a, p)
    ensures Kept(s, Do(s, a), p, b)
  {
    match a
    case Use(q, u) => ForeignUse(s, q, u, p, b);
    case OnFile(q, f) => ForeignFile(s, q, f, p, b);
    case InJob(q, j) => ForeignJob(s, q, j, p, b);
    case _ =>
  }

  /** From one state of a run to another, all actions are foreign. */
  predicate ForeignFrom(actions: seq<Action>, p: ProcId, i: nat, j: nat) {
    j <= |actions| && forall n :: i <= n < j ==> Foreign(actions[n], p)
  }

  lemma {:induction false} ForeignRange(states: seq<System>, actions: seq<Action>, p: ProcId, b: BoxId, i: nat, j: nat)
    requires IsRun(states, actions) && i <= j < |states| && ForeignFrom(actions, p, i, j)
    requires HasLease(states[i], p) && LeaseOf(states[i], p).box == b
    ensures Kept(states[i], states[j], p, b)
    decreases j - i
  {
    if i < j {
      ForeignRange(states, actions, p, b, i, j - 1);
      RunKeepsInv(states, actions, j - 1);
      KeptOn(states[i], states[j - 1], actions[j - 1], states[j], p, b);
    }
  }

  lemma KeptOn(s: System, t: System, a: Action, u: System, p: ProcId, b: BoxId)
    requires Kept(s, t, p, b) && HasLease(s, p) && LeaseOf(s, p).box == b
    requires Inv(t) && StepOf(t, a, u) && Foreign(a, p)
    ensures Kept(s, u, p, b)
  {
    ForeignKeeps(t, a, p, b);
  }

  // One metadata write among others.

  /** A write that is decided in one state is renamed and synced later in the run. */
  predicate WritesAt(actions: seq<Action>, p: ProcId, i: nat, j: nat, k: nat) {
    && i <= j < k < |actions| && actions[j] == OnFile(p, Rename) && actions[k] == OnFile(p, Sync)
    && ForeignFrom(actions, p, i, j) && ForeignFrom(actions, p, j + 1, k)
  }

  lemma RenameTakes(s: System, p: ProcId, l: Lease, job: Job, next: Metadata, call: Call)
    requires Leases(s, p, l, job) && l.activity == Writing(next, call)
    ensures Enabled(s, OnFile(p, Rename))
    ensures var t := Do(s, OnFile(p, Rename));
      && Leases(t, p, l.(activity := Renamed(next, call)), job)
      && t.dirs[l.box] == s.dirs[l.box] + [Image(next, Visible(s, l.box).disk)]
  {
  }

  /** What a process goes on with after the sync of a call. */
  function Goes(l: Lease, job: Job, next: Metadata, call: Call): Proc {
    match call
    case Begin => Proc(Some(Lease(l.box, next, Armed)), job)
    case Finish => Proc(Some(Lease(l.box, next, Held)), job)
    case Block => Proc(Some(Lease(l.box, next, Held)), job)
    case Migrate => if next.state == NeedsRepair then Proc(None, job) else Proc(Some(Lease(l.box, next, Held)), job)
    case Reset => Proc(None, job)
    case Update => Proc(None, NoJob)
  }

  lemma SyncTakes(s: System, p: ProcId, l: Lease, job: Job, next: Metadata, call: Call)
    requires Leases(s, p, l, job) && l.activity == Renamed(next, call)
    ensures Enabled(s, OnFile(p, Sync))
    ensures var t := Do(s, OnFile(p, Sync));
      p in t.procs && t.procs[p] == Goes(l, job, next, call) && l.box in t.dirs && t.dirs[l.box] == [Visible(s, l.box)]
  {
  }

  lemma WriteEnds(states: seq<System>, actions: seq<Action>, p: ProcId, i: nat, j: nat, k: nat,
                  l: Lease, job: Job, next: Metadata, call: Call)
    requires IsRun(states, actions) && WritesAt(actions, p, i, j, k)
    requires Leases(states[i], p, l, job) && l.activity == Writing(next, call)
    ensures p in states[k + 1].procs && states[k + 1].procs[p] == Goes(l, job, next, call)
    ensures l.box in states[k + 1].dirs
    ensures states[k + 1].dirs[l.box] == [Image(next, Visible(states[i], l.box).disk)]
  {
    ForeignRange(states, actions, p, l.box, i, j);
    assert StepOf(states[j], actions[j], states[j + 1]);
    RenameTakes(states[j], p, l, job, next, call);
    ForeignRange(states, actions, p, l.box, j + 1, k);
    assert StepOf(states[k], actions[k], states[k + 1]);
    SyncTakes(states[k], p, l.(activity := Renamed(next, call)), job, next, call);
  }

  // The calls.

  /** A call whose first system call is at `i`, its rename at `j` and its sync at `k`, with others in between. */
  predicate CallAt(actions: seq<Action>, p: ProcId, u: UseStep, i: nat, j: nat, k: nat) {
    i < |actions| && actions[i] == Use(p, u) && WritesAt(actions, p, i + 1, j, k)
  }

  /** After `begin_writable_use` the Box is durably Dirty, and only then may a guest start. */
  lemma BeginAmongOthers(states: seq<System>, actions: seq<Action>, p: ProcId, i: nat, j: nat, k: nat)
    requires IsRun(states, actions) && CallAt(actions, p, BeginUse, i, j, k)
    ensures HasLease(states[i], p) && Shaped(states[i])
    ensures var l, disk := LeaseOf(states[i], p), VisibleOf(states[i], p).disk;
      var m := l.meta.(state := Dirty);
      && l.box in states[k + 1].dirs && states[k + 1].dirs[l.box] == [Image(m, disk)]
      && HasLease(states[k + 1], p) && LeaseOf(states[k + 1], p) == Lease(l.box, m, Armed)
  {
    assert StepOf(states[i], actions[i], states[i + 1]);
    var l := LeaseOf(states[i], p);
    var m := l.meta.(state := Dirty);
    WriteEnds(states, actions, p, i + 1, j, k, l.(activity := Writing(m, Begin)), states[i].procs[p].job, m, Begin);
  }

  /** After `finish_clean_use` or `finish_repair` the Box is durably Ready, and its lease says so. */
  lemma FinishAmongOthers(states: seq<System>, actions: seq<Action>, p: ProcId, i: nat, j: nat, k: nat)
    requires IsRun(states, actions) && CallAt(actions, p, FinishUse, i, j, k)
    ensures HasLease(states[i], p) && Shaped(states[i])
    ensures var l, disk := LeaseOf(states[i], p), VisibleOf(states[i], p).disk;
      var m := l.meta.(state := Ready);
      && l.box in states[k + 1].dirs && states[k + 1].dirs[l.box] == [Image(m, disk)]
      && HasLease(states[k + 1], p) && LeaseOf(states[k + 1], p) == Lease(l.box, m, Held)
  {
    assert StepOf(states[i], actions[i], states[i + 1]);
    var l := LeaseOf(states[i], p);
    var m := l.meta.(state := Ready);
    WriteEnds(states, actions, p, i + 1, j, k, l.(activity := Writing(m, Finish)), states[i].procs[p].job, m, Finish);
  }

  /** After `mark_needs_repair` the Box is durably blocked. */
  lemma MarkAmongOthers(states: seq<System>, actions: seq<Action>, p: ProcId, i: nat, j: nat, k: nat)
    requires IsRun(states, actions) && CallAt(actions, p, MarkNeedsRepair, i, j, k)
    ensures HasLease(states[i], p) && Shaped(states[i])
    ensures var l, disk := LeaseOf(states[i], p), VisibleOf(states[i], p).disk;
      var m := l.meta.(state := NeedsRepair);
      && l.box in states[k + 1].dirs && states[k + 1].dirs[l.box] == [Image(m, disk)]
      && HasLease(states[k + 1], p) && LeaseOf(states[k + 1], p) == Lease(l.box, m, Held)
  {
    assert StepOf(states[i], actions[i], states[i + 1]);
    var l := LeaseOf(states[i], p);
    var m := l.meta.(state := NeedsRepair);
    WriteEnds(states, actions, p, i + 1, j, k, l.(activity := Writing(m, Block)), states[i].procs[p].job, m, Block);
  }

  /** After `update` the Box durably has its new name, and the process holds neither lease nor index. */
  lemma UpdateAmongOthers(states: seq<System>, actions: seq<Action>, p: ProcId, name: Option<string>,
                          i: nat, j: nat, k: nat)
    requires IsRun(states, actions) && CallAt(actions, p, UpdateWrite(name), i, j, k)
    ensures HasLease(states[i], p) && Shaped(states[i])
    ensures var l, disk := LeaseOf(states[i], p), VisibleOf(states[i], p).disk;
      && l.box in states[k + 1].dirs && states[k + 1].dirs[l.box] == [Image(l.meta.(name := name), disk)]
      && p in states[k + 1].procs && states[k + 1].procs[p] == Proc(None, NoJob)
  {
    assert StepOf(states[i], actions[i], states[i + 1]);
    var l := LeaseOf(states[i], p);
    var m := l.meta.(name := name);
    WriteEnds(states, actions, p, i + 1, j, k, l.(activity := Writing(m, Update)), states[i].procs[p].job, m, Update);
  }

  /** After the metadata write of `reset` the Box is durably Ready, a generation on, with the disk in place then. */
  lemma ResetAmongOthers(states: seq<System>, actions: seq<Action>, p: ProcId, i: nat, j: nat, k: nat)
    requires IsRun(states, actions) && CallAt(actions, p, ResetWrite, i, j, k)
    ensures HasLease(states[i], p) && Shaped(states[i])
    ensures var l, disk := LeaseOf(states[i], p), VisibleOf(states[i], p).disk;
      var m := l.meta.(state := Ready, generation := SatAdd(l.meta.generation, 1));
      && l.box in states[k + 1].dirs && states[k + 1].dirs[l.box] == [Image(m, disk)]
      && p in states[k + 1].procs && states[k + 1].procs[p].lease == None
  {
    assert StepOf(states[i], actions[i], states[i + 1]);
    var l := LeaseOf(states[i], p);
    var m := l.meta.(state := Ready, generation := SatAdd(l.meta.generation, 1));
    WriteEnds(states, actions, p, i + 1, j, k, l.(activity := Writing(m, Reset)), states[i].procs[p].job, m, Reset);
  }

  /** And that disk is the replacement, which `reset` has renamed into place at `h`. */
  lemma SwapAmongOthers(states: seq<System>, actions: seq<Action>, p: ProcId, h: nat, i: nat)
    requires IsRun(states, actions) && h < i < |states| && actions[h] == OnFile(p, ResetSwap)
    requires ForeignFrom(actions, p, h + 1, i)
    ensures HasLease(states[h], p) && LeaseOf(states[h], p).activity.Copied?
    ensures var l := LeaseOf(states[h], p);
      && HasLease(states[i], p) && LeaseOf(states[i], p) == l.(activity := Swapped)
      && Shaped(states[i]) && VisibleOf(states[i], p).disk == l.activity.replacement
  {
    assert StepOf(states[h], actions[h], states[h + 1]);
    var l := LeaseOf(states[h], p);
    ForeignRange(states, actions, p, l.box, h + 1, i);
    RunKeepsInv(states, actions, i);
    ShapedFromInv(states[i]);
  }

  lemma ShapedFromInv(s: System)
    requires Inv(s)
    ensures Shaped(s)
  {
    forall b | b in s.dirs ensures s.dirs[b] != [] {
      assert DirOk(s, b);
    }
  }
}
