/**
 Runs of the Box store that show where its promises end: a clone of a Dirty Box is published Ready, and
 a host crash can bring back a deleted name, or a name that an update was about to give up.
 */
module BoxWitness {
  import opened Base
  import opened Text
  import opened Boxes
  import opened BoxProtocol
  import opened BoxSafety
  import opened BoxNames

  const PLAIN := Metadata(SCHEMA_VERSION, Ready, "sha256:0", "linux/amd64", 1, 0, None, map[], {})

  const DIRTY := PLAIN.(state := Dirty)

  /** One Ready Box and one process. */
  const ONE_BOX := System(map[0 := [Image(PLAIN, 0)]], [{0}], {}, map[], map[0 := Proc(None, NoJob)],
                          map[], None, map[0 := OfBox(0)], {}, false)

  /** `ONE_BOX` while process 0 holds a lease on Box 0. */
  function Leased(history: seq<Image>, tainted: set<DiskId>, l: Lease, job: Job): System {
    ONE_BOX.(dirs := map[0 := history], locks := map[0 := 0], tainted := tainted,
             procs := map[0 := Proc(Some(l), job)], index := if job == NoJob then None else Some(0))
  }

  // A guest runs on Box 0 and stops uncleanly; the Box is then cloned without a repair.
  const C1 := Leased([Image(PLAIN, 0)], {}, Lease(0, PLAIN, Held), NoJob)
  const C2 := Leased([Image(PLAIN, 0)], {}, Lease(0, PLAIN, Writing(DIRTY, Begin)), NoJob)
  const C3 := Leased([Image(PLAIN, 0), Image(DIRTY, 0)], {}, Lease(0, PLAIN, Renamed(DIRTY, Begin)), NoJob)
  const C4 := Leased([Image(DIRTY, 0)], {}, Lease(0, DIRTY, Armed), NoJob)
  const C5 := Leased([Image(DIRTY, 0)], {0}, Lease(0, DIRTY, Guest), NoJob)
  const C6 := Leased([Image(DIRTY, 0)], {0}, Lease(0, DIRTY, Held), NoJob)
  const C7 := Leased([Image(DIRTY, 0)], {0}, Lease(0, DIRTY, Held), Checked(None, None))
  const C8 := Leased([Image(DIRTY, 0)], {0, 1}, Lease(0, DIRTY, Held), Staged(1, Image(PLAIN, 1))).(
    owner := map[0 := OfBox(0), 1 := OfBox(1)], dirtyClone := true)
  const C9 := C8.(dirs := map[0 := [Image(DIRTY, 0)], 1 := [Image(PLAIN, 1)]],
                  listing := [{0}, {0, 1}], locks := map[0 := 0, 1 := 0],
                  procs := map[0 := Proc(Some(Lease(0, DIRTY, Held)), Listed(1))])

  const CLONE_ACTIONS := [
    Acquire(0, 0), Use(0, BeginUse), OnFile(0, Rename), OnFile(0, Sync), Use(0, Expose),
    Use(0, GuestExit(false)), InJob(0, LockIndex(None, None)),
    InJob(0, Stage(1, 1, FromLease, PLAIN)), InJob(0, Publish)]

  const CLONE_STATES := [ONE_BOX, C1, C2, C3, C4, C5, C6, C7, C8, C9]

  lemma CloneRun1()
    ensures Initial(ONE_BOX)
    ensures StepOf(ONE_BOX, CLONE_ACTIONS[0], C1)
    ensures StepOf(C1, CLONE_ACTIONS[1], C2)
  {
  }

  lemma CloneRun2()
    ensures StepOf(C2, CLONE_ACTIONS[2], C3)
  {
    assert Visible(C2, 0) == Image(PLAIN, 0);
    assert [Image(PLAIN, 0)] + [Image(DIRTY, 0)] == [Image(PLAIN, 0), Image(DIRTY, 0)];
    assert Do(C2, CLONE_ACTIONS[2]).dirs == C3.dirs;
    assert Do(C2, CLONE_ACTIONS[2]).procs == C3.procs;
  }

  lemma CloneRun3()
    ensures StepOf(C3, CLONE_ACTIONS[3], C4)
  {
    assert Visible(C3, 0) == Image(DIRTY, 0);
    assert Do(C3, CLONE_ACTIONS[3]).dirs == C4.dirs;
    assert Do(C3, CLONE_ACTIONS[3]).procs == C4.procs;
  }

  lemma CloneRun4()
    ensures StepOf(C4, CLONE_ACTIONS[4], C5)
  {
  }

  lemma CloneRun5()
    ensures StepOf(C5, CLONE_ACTIONS[5], C6)
  {
  }

  lemma CloneRun6()
    ensures StepOf(C6, CLONE_ACTIONS[6], C7)
  {
  }

  lemma CloneRun7()
    ensures StepOf(C7, CLONE_ACTIONS[7], C8)
  {
  }

  lemma CloneRun8()
    ensures StepOf(C8, CLONE_ACTIONS[8], C9)
  {
    assert {0} + {1} == {0, 1};
    assert Do(C8, CLONE_ACTIONS[8]).listing == C9.listing;
    assert Do(C8, CLONE_ACTIONS[8]).dirs == C9.dirs;
    assert Do(C8, CLONE_ACTIONS[8]).locks == C9.locks;
  }

  /** A run of the store at whose end a readable Box reads Ready and holds an exposed disk. */
  lemma DirtyCloneIsPublishedReady()
    ensures IsRun(CLONE_STATES, CLONE_ACTIONS)
    ensures Readable(C9, 1) && ReadsReady(Visible(C9, 1).meta) && Visible(C9, 1).disk in C9.tainted
    ensures !ReadyIsClean(C9)
  {
    CloneRun1();
    CloneRun2();
    CloneRun3();
    CloneRun4();
    CloneRun5();
    CloneRun6();
    CloneRun7();
    CloneRun8();
    assert C9.dirs[1][0].disk in C9.tainted;
  }

  // A Dirty Box whose disk no guest has touched, leased for a clone.
  const D0 := ONE_BOX.(dirs := map[0 := [Image(DIRTY, 0)]])
  const D1 := Leased([Image(DIRTY, 0)], {}, Lease(0, DIRTY, Held), NoJob)
  const D2 := Leased([Image(DIRTY, 0)], {}, Lease(0, DIRTY, Held), Checked(None, None))

  const CLONE := Stage(1, 1, FromLease, PLAIN)

  lemma DirtyRun()
    ensures IsRun([D0, D1, D2], [Acquire(0, 0), InJob(0, LockIndex(None, None))])
  {
    var states, actions := [D0, D1, D2], [Acquire(0, 0), InJob(0, LockIndex(None, None))];
    assert Do(D0, actions[0]).procs == D1.procs;
    assert StepOf(D0, actions[0], D1);
    assert StepOf(D1, actions[1], D2);
  }

  /** The state of a Dirty source does not tell: in one reachable state its clone is clean, in another it is not. */
  lemma DirtySourceMayBeEither()
    ensures IsRun([D0, D1, D2], [Acquire(0, 0), InJob(0, LockIndex(None, None))]) && IsRun(CLONE_STATES, CLONE_ACTIONS)
    ensures HasLease(D2, 0) && LeaseOf(D2, 0).meta.state == Dirty && CanJob(D2, 0, CLONE)
    ensures HasLease(C7, 0) && LeaseOf(C7, 0).meta.state == Dirty && CanJob(C7, 0, CLONE)
    ensures 1 !in DoJob(D2, 0, CLONE).tainted && 1 in DoJob(C7, 0, CLONE).tainted
  {
    DirtyRun();
    DirtyCloneIsPublishedReady();
  }

  // Box 0, named "a", is deleted; Box 1 then takes the name; the host crashes.
  const NAMED := PLAIN.(name := Some("a"))

  const N0 := System(map[0 := [Image(NAMED, 0)], 1 := [Image(PLAIN, 1)]], [{0, 1}], {}, map[],
                     map[0 := Proc(None, NoJob)], map[], None, map[0 := OfBox(0), 1 := OfBox(1)], {}, false)
  const N1 := N0.(locks := map[0 := 0], procs := map[0 := Proc(Some(Lease(0, NAMED, Held)), NoJob)])
  const N2 := N0.(listing := [{0, 1}, {1}])
  const CHECKED := Checked(Some("a"), Some(1))
  const N3 := N2.(procs := map[0 := Proc(None, CHECKED)], index := Some(0))
  const N4 := N3.(procs := map[0 := Proc(Some(Lease(1, PLAIN, Held)), CHECKED)], locks := map[1 := 0])
  const N5 := N4.(procs := map[0 := Proc(Some(Lease(1, PLAIN, Writing(NAMED, Update))), CHECKED)])
  const N6 := N4.(procs := map[0 := Proc(Some(Lease(1, PLAIN, Renamed(NAMED, Update))), CHECKED)],
                  dirs := map[0 := [Image(NAMED, 0)], 1 := [Image(PLAIN, 1), Image(NAMED, 1)]])
  const N7 := N2.(dirs := map[0 := [Image(NAMED, 0)], 1 := [Image(NAMED, 1)]])
  const N8 := N7.(listing := [{0, 1}])

  const NAME_ACTIONS := [
    Acquire(0, 0), OnFile(0, Delete), InJob(0, LockIndex(Some("a"), Some(1))), Acquire(0, 1),
    Use(0, UpdateWrite(Some("a"))), OnFile(0, Rename), OnFile(0, Sync),
    HostCrash(map[0 := 0, 1 := 0], 0, {})]

  const NAME_STATES := [N0, N1, N2, N3, N4, N5, N6, N7, N8]

  lemma NameRun1()
    ensures Initial(N0) && StepOf(N0, NAME_ACTIONS[0], N1)
  {
  }

  lemma NameRun2()
    ensures StepOf(N1, NAME_ACTIONS[1], N2)
  {
    assert {0, 1} - {0} == {1};
    assert Do(N1, NAME_ACTIONS[1]).listing == N2.listing;
    assert Do(N1, NAME_ACTIONS[1]).locks == N2.locks;
  }

  lemma NameRun3()
    ensures StepOf(N2, NAME_ACTIONS[2], N3) && StepOf(N3, NAME_ACTIONS[3], N4)
  {
    assert Do(N3, NAME_ACTIONS[3]).locks == N4.locks;
  }

  lemma NameRun4()
    ensures StepOf(N4, NAME_ACTIONS[4], N5)
  {
  }

  lemma NameRun5()
    ensures StepOf(N5, NAME_ACTIONS[5], N6)
  {
    assert Visible(N5, 1) == Image(PLAIN, 1);
    assert [Image(PLAIN, 1)] + [Image(NAMED, 1)] == [Image(PLAIN, 1), Image(NAMED, 1)];
    assert Do(N5, NAME_ACTIONS[5]).dirs == N6.dirs;
  }

  lemma NameRun6()
    ensures StepOf(N6, NAME_ACTIONS[6], N7)
  {
    assert Visible(N6, 1) == Image(NAMED, 1);
    assert Do(N6, NAME_ACTIONS[6]).dirs == N7.dirs;
    assert Do(N6, NAME_ACTIONS[6]).locks == N7.locks;
    assert Do(N6, NAME_ACTIONS[6]).procs == N7.procs;
  }

  lemma NameRun7()
    ensures StepOf(N7, NAME_ACTIONS[7], N8)
  {
    assert Do(N7, NAME_ACTIONS[7]).dirs == N8.dirs;
    assert Do(N7, NAME_ACTIONS[7]).procs == N8.procs;
  }

  lemma NamesBefore()
    ensures Shaped(N0) && Unique(N0)
  {
    assert FoundAs(N0, 1) == None;
  }

  lemma NamesAfterCrash()
    ensures Shaped(N8) && !Unique(N8)
  {
    assert SameName(FoundAs(N8, 0), FoundAs(N8, 1));
  }

  /** `delete` does not sync the boxes directory, so a crash can bring a taken name back. */
  lemma CrashCanDuplicateNames()
    ensures IsRun(NAME_STATES, NAME_ACTIONS)
    ensures Shaped(N0) && Unique(N0) && Shaped(N8) && !Unique(N8)
  {
    NameRun1();
    NameRun2();
    NameRun3();
    NameRun4();
    NameRun5();
    NameRun6();
    NameRun7();
    NamesBefore();
    NamesAfterCrash();
  }

  // Box 0, named "a", is renamed to "b", but the process dies before the sync; Box 1 then takes the
  // name; the host crashes.
  const OTHER := PLAIN.(name := Some("b"))
  const GIVES_UP := Checked(Some("b"), Some(0))
  const HALF_RENAMED := [Image(NAMED, 0), Image(OTHER, 0)]

  const U1 := N0.(procs := map[0 := Proc(None, GIVES_UP)], index := Some(0))
  const U2 := U1.(procs := map[0 := Proc(Some(Lease(0, NAMED, Held)), GIVES_UP)], locks := map[0 := 0])
  const U3 := U2.(procs := map[0 := Proc(Some(Lease(0, NAMED, Writing(OTHER, Update))), GIVES_UP)])
  const U4 := U2.(procs := map[0 := Proc(Some(Lease(0, NAMED, Renamed(OTHER, Update))), GIVES_UP)],
                  dirs := map[0 := HALF_RENAMED, 1 := [Image(PLAIN, 1)]])
  const U5 := N0.(dirs := map[0 := HALF_RENAMED, 1 := [Image(PLAIN, 1)]])
  const U6 := U5.(procs := map[0 := Proc(None, CHECKED)], index := Some(0))
  const U7 := U6.(procs := map[0 := Proc(Some(Lease(1, PLAIN, Held)), CHECKED)], locks := map[1 := 0])
  const U8 := U7.(procs := map[0 := Proc(Some(Lease(1, PLAIN, Writing(NAMED, Update))), CHECKED)])
  const U9 := U7.(procs := map[0 := Proc(Some(Lease(1, PLAIN, Renamed(NAMED, Update))), CHECKED)],
                  dirs := map[0 := HALF_RENAMED, 1 := [Image(PLAIN, 1), Image(NAMED, 1)]])
  const U10 := N0.(dirs := map[0 := HALF_RENAMED, 1 := [Image(NAMED, 1)]])
  const U11 := N0.(dirs := map[0 := [Image(NAMED, 0)], 1 := [Image(NAMED, 1)]])

  const UPDATE_ACTIONS := [
    InJob(0, LockIndex(Some("b"), Some(0))), Acquire(0, 0), Use(0, UpdateWrite(Some("b"))), OnFile(0, Rename), Kill(0),
    InJob(0, LockIndex(Some("a"), Some(1))), Acquire(0, 1), Use(0, UpdateWrite(Some("a"))), OnFile(0, Rename),
    OnFile(0, Sync), HostCrash(map[0 := 0, 1 := 0], 0, {})]

  const UPDATE_STATES := [N0, U1, U2, U3, U4, U5, U6, U7, U8, U9, U10, U11]

  lemma UpdateRun1()
    ensures StepOf(N0, UPDATE_ACTIONS[0], U1)
  {
  }

  lemma UpdateRun2()
    ensures StepOf(U1, UPDATE_ACTIONS[1], U2)
  {
    assert Visible(U1, 0) == Image(NAMED, 0);
    assert Do(U1, UPDATE_ACTIONS[1]).procs == U2.procs;
  }

  lemma UpdateRun3()
    ensures StepOf(U2, UPDATE_ACTIONS[2], U3)
  {
    assert Do(U2, UPDATE_ACTIONS[2]).procs == U3.procs;
  }

  lemma UpdateRun4()
    ensures StepOf(U3, UPDATE_ACTIONS[3], U4)
  {
    assert Visible(U3, 0) == Image(NAMED, 0);
    assert [Image(NAMED, 0)] + [Image(OTHER, 0)] == HALF_RENAMED;
    assert Do(U3, UPDATE_ACTIONS[3]).dirs == U4.dirs;
    assert Do(U3, UPDATE_ACTIONS[3]).procs == U4.procs;
  }

  lemma UpdateRun5()
    ensures StepOf(U4, UPDATE_ACTIONS[4], U5)
  {
    assert Do(U4, UPDATE_ACTIONS[4]).procs == U5.procs;
    assert Do(U4, UPDATE_ACTIONS[4]).locks == U5.locks;
  }

  lemma UpdateRun6()
    ensures StepOf(U5, UPDATE_ACTIONS[5], U6)
  {
    assert Visible(U5, 0) == Image(OTHER, 0);
    assert Lower("b")[0] == 'b' && Lower("a")[0] == 'a';
  }

  lemma UpdateRun7()
    ensures StepOf(U6, UPDATE_ACTIONS[6], U7)
  {
    assert Visible(U6, 1) == Image(PLAIN, 1);
    assert Do(U6, UPDATE_ACTIONS[6]).procs == U7.procs;
  }

  lemma UpdateRun8()
    ensures StepOf(U7, UPDATE_ACTIONS[7], U8)
  {
    assert Do(U7, UPDATE_ACTIONS[7]).procs == U8.procs;
  }

  lemma UpdateRun9()
    ensures StepOf(U8, UPDATE_ACTIONS[8], U9)
  {
    assert Visible(U8, 1) == Image(PLAIN, 1);
    assert [Image(PLAIN, 1)] + [Image(NAMED, 1)] == [Image(PLAIN, 1), Image(NAMED, 1)];
    var t := DoFile(U8, 0, Rename);
    assert t.dirs == U9.dirs;
    assert t.procs == U9.procs;
  }

  lemma UpdateRun10()
    ensures StepOf(U9, UPDATE_ACTIONS[9], U10)
  {
    assert Visible(U9, 1) == Image(NAMED, 1);
    assert Do(U9, UPDATE_ACTIONS[9]).dirs == U10.dirs;
    assert Do(U9, UPDATE_ACTIONS[9]).locks == U10.locks;
    assert Do(U9, UPDATE_ACTIONS[9]).procs == U10.procs;
  }

  lemma UpdateRun11()
    ensures StepOf(U10, UPDATE_ACTIONS[10], U11)
  {
    var t := DoCrash(U10, map[0 := 0, 1 := 0], 0, {});
    assert t.dirs == U11.dirs;
    assert t.procs == U11.procs;
  }

  lemma NamesAfterUpdate()
    ensures Shaped(U11) && !Unique(U11)
  {
    assert SameName(FoundAs(U11, 0), FoundAs(U11, 1));
  }

  lemma UpdateSteps1()
    ensures forall i :: 0 <= i < 6 ==> StepOf(UPDATE_STATES[i], UPDATE_ACTIONS[i], UPDATE_STATES[i + 1])
  {
    UpdateRun1();
    UpdateRun2();
    UpdateRun3();
    UpdateRun4();
    UpdateRun5();
    UpdateRun6();
  }

  lemma UpdateSteps2()
    ensures forall i :: 6 <= i < 11 ==> StepOf(UPDATE_STATES[i], UPDATE_ACTIONS[i], UPDATE_STATES[i + 1])
  {
    UpdateRun7();
    UpdateRun8();
    UpdateRun9();
    UpdateRun10();
    UpdateRun11();
  }

  /** An update that dies between its rename and its sync leaves its old name restorable; no delete is needed. */
  lemma StoppedUpdateCanDuplicateNames()
    ensures IsRun(UPDATE_STATES, UPDATE_ACTIONS)
    ensures Shaped(N0) && Unique(N0) && Shaped(U11) && !Unique(U11)
  {
    NameRun1();
    UpdateSteps1();
    UpdateSteps2();
    NamesBefore();
    NamesAfterUpdate();
  }
}
