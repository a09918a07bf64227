# Moraebox, modelled and proved in Dafny

Moraebox keeps virtual-machine disks and container images on disk, shared by several processes that
may fail, be killed or lose power at any point. This project models that part of it and proves what
it keeps.

- **Persistent Boxes** (`Boxes`, `BoxProtocol`, `BoxSafety`, `BoxCalls`, `BoxInterleaving`, `BoxNames`,
  `BoxCrashNames`, `BoxCrashRuns`, `BoxWitness`, `BoxStore`, `BoxStoreEffects`).
  `BoxProtocol` is a state machine whose actions are single system calls of any number of processes.
  Each directory is the history of its states that are not yet durable: processes see the last one,
  and a host crash leaves any one of them. `BoxStore` is the store of one process on heap disk
  objects, refining a store of values.
- **Sparse disks and bundles** (`DiskFile`, `SparseMap`, `GnuSparse`, `Archive`, `Bundle`). The
  copying loops, the hole map for any seek oracle, the GNU sparse entry with its chained headers and
  a decoder for it, and export followed by import.
- **Content-addressed blobs** (`Cas`, `CasProtocol`, `CasPuts`) and **layers** (`Layer`, `LayerMeaning`,
  `LayerAcceptance`, `LayerChangeset`). The Applying Changesets and Whiteouts sections of layer.md of the
  OCI image specification are the reference definition the sequential application is compared with.
- **The image cache** (`CacheModel`, `CacheLookup`, `CachePrune`, `CachePruneContents`, `CacheRemove`,
  `CacheReconcile`, `CacheIssues`, `CacheStore`, `CacheProtocol`, `CacheSweeps`). `CacheStore` runs prune,
  removal and reconciliation as loops over the cache's directories; each is proved against a declarative
  description in the module named after it.
- **Output** (`Output`, `Drain`): a bounded chunked buffer that refines an unbounded labelled log.
- **Parsers and arithmetic** (`Text`, `Utf8`, `Utf8Text`, `Digests`, `Reference`, `ReferenceNames`,
  `Images`, `Auth`, `AuthRoundTrip`, `AuthSpelling`, `Sizing`).

The protocols come in two halves: what no step may break, over whole runs (`BoxSafety`, `CasProtocol`,
`CacheProtocol`), and what a call achieves once it has gone through, alone and among other processes
(`BoxCalls`, `BoxInterleaving`, `CasPuts`, `CacheSweeps`).

`Base` holds the types they share. The command for the whole project is `dafny verify dfyconfig.toml`.

## What the code does that one might not expect

Each of these is shown on an input, together with the condition under which the expected property holds.

- Cloning a Dirty Box publishes a Ready clone, and its disk may be one a guest has had
  (`BoxWitness.DirtyCloneIsPublishedReady`). A Ready source gives a clean clone; a Dirty one may give
  either (`BoxSafety.CloneIsCleanIff`, `BoxWitness.DirtySourceMayBeEither`).
- A power loss can bring back a name that another Box has taken since: after a `delete`, which does not
  sync the boxes directory, and after an `update` that stopped between its rename and its sync
  (`BoxWitness.CrashCanDuplicateNames`, `BoxWitness.StoppedUpdateCanDuplicateNames`). The exact condition
  on a state is `BoxCrashNames.CrashKeepsNamesIff`, on a run `BoxCrashRuns.NamesSurviveIff`.
- Whiteouts are applied in sequence: one that follows an addition of the same layer removes it, and one
  whose parent is missing creates that parent (`LayerChangeset.LateWhiteoutRemovesAddition`). The exact
  condition, for layers in any order, is `LayerChangeset.ChangesetAppliedIff`.
- The whiteout file name `.wh...` names the directory above its own (`Layer.ParentWhiteoutLeaves`); all
  whiteouts but those of `.` and `..` stay inside their directory (`Layer.WhiteoutStaysInside`).
- A sparse bundle whose extents other than the last are not multiples of 512 bytes is written but cannot be
  read (`Bundle.MisalignedMap`); all others are, among them every disk allocated in blocks
  (`GnuSparse.AlignedIff`, `Bundle.BundleRoundTrip`, `Bundle.ExportBundle`).
- A prune turns the error of a misfiled stale record into a miss, and forgets an image whose rootfs
  directory is a symbolic link; exactly those (`CachePrune.PruneKeepsLookups`).
- Directory names such as an upper-case digest or one with the `sha256:` prefix are accepted, so two
  directories may share a digest; a reconciliation settles exactly when they agree
  (`CacheReconcile.TwoNamesOfOneDigest`, `CacheReconcile.ReconcileFixpoint`).
- A tag after a registry that contains an at sign does not parse back, and an upper-case host can print
  as the prefix of a local source; all other references round-trip (`Images.HiddenTag`,
  `Images.LocalLookingRegistry`, `Images.ImageRoundTrip`).
- The digest decoder accepts pairs such as `+f`; a text prints back unchanged exactly when it is
  lower-case hexadecimal (`Digests.HexIsCanonicalIff`).

## How to read the model

- SHA-256, JSON encoding and decoding, UTF-8 encoding of keys and the text of paths are parameters:
  any function will do. A bundle's round trip assumes that the JSON of that Box's manifest and metadata
  is read back, and that the manifest's is no longer than the 64 KiB an import reads.
- A guest's clean exit or a successful e2fsck precedes `finish_clean_use` and `finish_repair`, as
  README.md:239 of the repository demands of callers.
- A kernel that reports data and holes is honest: holes read as zero, and a hole is implied at the end.
- Directory updates persist as a prefix of the order in which they were issued, for each directory of
  the Box store and of the blob store separately, and for the image cache as a whole.
- Removing a managed directory of the cache is one step.
- The order in which a directory is listed is arbitrary; the source sorts by path. Lists in reports
  that are sorted and freed of duplicates are sets.

## Model

| member | source | states |
|---|---|---|
| `BoxSafety.StepKeepsInv` | crates/moraebox-box/src/lib.rs:632-750 | every system call of every process, every failed write, kill and host crash keeps the ownership, lease and dirty-tracking invariant |
| `BoxSafety.DirtyTracking` | crates/moraebox-box/src/lib.rs:632-750 | in every state of every run, a Box a guest may write is Dirty in all metadata a crash may leave, and (unless a Dirty Box was cloned) any Box that reads Ready holds a disk no guest has had since its last clean finish, repair, reset or creation; that a Box does become Ready again is BoxInterleaving.FinishAmongOthers |
| `BoxSafety.RunKeepsInv` | crates/moraebox-box/src/lib.rs:1372-1398 | the invariant holds after any interleaving, with metadata published by temporary file, rename and directory sync as separate steps |
| `BoxSafety.LeaseIsExclusive` | crates/moraebox-box/src/lib.rs:632-658 | while a process leases a Box, no other process leases it or is creating it |
| `BoxSafety.NeedsRepairIsAbsorbing` | crates/moraebox-box/src/lib.rs:632-658 | no store operation takes a Box out of NeedsRepair or touches its files, and a crash cannot either |
| `BoxCalls.BeginCall` | crates/moraebox-box/src/lib.rs:659-711 | begin_writable_use from a lease on a Ready Box: its system calls can all be taken, and they leave exactly the Dirty metadata as the only state of the directory and a lease that may start a guest |
| `BoxCalls.FinishCall` | crates/moraebox-box/src/lib.rs:664-711 | finish_clean_use and finish_repair from a certified lease leave the Box durably Ready with its disk, and a lease that says so; nothing else changes |
| `BoxCalls.MarkCall` | crates/moraebox-box/src/lib.rs:674-711 | mark_needs_repair leaves the Box durably NeedsRepair, and nothing else changes |
| `BoxCalls.GuestRun` | crates/moraebox-box/src/lib.rs:659-672 | a guest that stops cleanly certifies the disk, one that does not leaves it exposed |
| `BoxCalls.FsckRun` | crates/moraebox-box/src/lib.rs:669-672 | e2fsck on a Dirty Box certifies its disk |
| `BoxCalls.ReleaseCall` | crates/moraebox-box/src/lib.rs:632-657 | a released lease frees its Box and changes no file |
| `BoxCalls.ResetCall` | crates/moraebox-box/src/lib.rs:728-750 | reset leaves the replacement as the disk and durable metadata that is Ready and a generation on, saturating, and frees the Box |
| `BoxCalls.UpdateCall` | crates/moraebox-box/src/lib.rs:778-801 | update leaves the new name durable, and both locks free; nothing else changes |
| `BoxCalls.DeleteCall` | crates/moraebox-box/src/lib.rs:713-726 | delete takes the Box out of the listing, clears it and frees it; nothing else changes |
| `BoxCalls.CheckpointCall` | crates/moraebox-box/src/checkpoint.rs:377-436 | a checkpoint has a disk of its own, exposed exactly if the copied one is |
| `BoxCalls.DeleteCheckpointCall` | crates/moraebox-box/src/checkpoint.rs:291-302 | deleting a checkpoint removes it and touches no Box |
| `BoxCalls.AcquireCall` | crates/moraebox-box/src/lib.rs:632-657 | a current Box that does not need repair is leased with its metadata |
| `BoxCalls.AcquireNeeds` | crates/moraebox-box/src/lib.rs:632-657 | only a listed Box that was not deleted, is not locked and does not need repair can be acquired |
| `BoxCalls.MigrateCall` | crates/moraebox-box/src/lib.rs:632-657 | a Box of an older schema is migrated durably when it is acquired: Ready becomes Dirty, and NeedsRepair ends the lease |
| `BoxCalls.CreateCall` | crates/moraebox-box/src/lib.rs:369-399 | create, clone, fork and import leave one more Box, durably listed, with its own disk and what it was asked to be: Ready, or Dirty from an old bundle; all locks are free again |
| `BoxCalls.CopyNeeds` | crates/moraebox-box/src/lib.rs:752-762 | only a checkpoint, a base, a bundle or a leased Box at rest is copied, under an identifier and a disk nothing uses |
| `BoxCalls.EndJobCall` | crates/moraebox-box/src/lib.rs:803-870 | a job that is given up frees the index and a Box that was just listed |
| `BoxCalls.FailCall` | crates/moraebox-box/src/lib.rs:1372-1398 | a write that fails changes no file, and the call gives up its locks or leaves the lease as it was |
| `BoxCalls.KillCall` | crates/moraebox-box/src/lib.rs:1372-1398 | a killed process leaves every file as it is and gives up all its locks |
| `BoxCalls.CrashLeaves` | crates/moraebox-box/src/lib.rs:1372-1398 | a host crash leaves one of the recorded states of every directory and of the listing, no process and no lock |
| `BoxInterleaving.FinishAmongOthers` | crates/moraebox-box/src/lib.rs:664-711 | in any run, whatever other processes do between its system calls, a clean finish or repair that goes through leaves the Box durably Ready and its lease Ready |
| `BoxInterleaving.BeginAmongOthers` | crates/moraebox-box/src/lib.rs:659-711 | likewise the Box is durably Dirty before a guest may start |
| `BoxInterleaving.MarkAmongOthers` | crates/moraebox-box/src/lib.rs:674-711 | likewise the Box is durably blocked |
| `BoxInterleaving.UpdateAmongOthers` | crates/moraebox-box/src/lib.rs:778-801 | likewise the Box durably has its new name and the process holds neither lease nor index |
| `BoxInterleaving.ResetAmongOthers` | crates/moraebox-box/src/lib.rs:728-750 | likewise the Box is durably Ready and a generation on, with the disk in place when its metadata was written |
| `BoxInterleaving.SwapAmongOthers` | crates/moraebox-box/src/lib.rs:728-750 | that disk is the replacement of the reset |
| `BoxSafety.CloneIsCleanIff` | crates/moraebox-box/src/lib.rs:752-762 | a clone is always published Ready, and its disk is clean exactly when the disk it copies is; a source that reports Ready is clean |
| `BoxWitness.DirtySourceMayBeEither` | crates/moraebox-box/src/lib.rs:752-762 | two reachable states with a Dirty source: the clone is clean in one and not in the other, so the reported state decides only for Ready |
| `BoxWitness.DirtyCloneIsPublishedReady` | crates/moraebox-box/src/lib.rs:752-762 | a concrete run: a Dirty Box is cloned and the clone reads Ready on an exposed disk |
| `BoxNames.StepKeepsNames` | crates/moraebox-box/src/lib.rs:923-955 | every step except a host crash keeps names unique and every name a process is about to take free |
| `BoxNames.NamesStayUnique` | crates/moraebox-box/src/lib.rs:778-801 | over any interleaving of create, clone, fork, import, update, delete, reset, lease transitions and kills without a host crash, no two readable Boxes have names equal ignoring ASCII case; runs with crashes are those of BoxCrashRuns.NamesSurviveIff |
| `Boxes.SameNameIff` | crates/moraebox-box/src/lib.rs:923-955 | two names are equal when they have the same letters in either case |
| `BoxCrashNames.CrashKeepsNamesIff` | crates/moraebox-box/src/lib.rs:713-726 | every host crash of a state keeps names unique exactly when no two Boxes of one listing that a crash may leave have equal names in states of their directories a crash may leave |
| `BoxCrashNames.SettledHasNoClash` | crates/moraebox-box/src/lib.rs:1372-1398 | there is no such clash when every directory update has reached the disk |
| `BoxCrashNames.CarefulStepKeeps` | crates/moraebox-box/src/lib.rs:923-955 | a condition a caller can check when it takes the index lock: every step, a host crash included, keeps all names a crash may restore apart, if a name is taken only when no other Box bears it in a state a crash may leave |
| `BoxCrashNames.CarefulRunsStayUnique` | crates/moraebox-box/src/lib.rs:778-801 | over runs with any host crashes in which names are so taken, names are unique in every state; sufficient, and the exact condition is the next one |
| `BoxCrashRuns.StepClashIff` | crates/moraebox-box/src/lib.rs:923-955 | from a state in which no crash makes names equal, a step reaches such a state again exactly when it is not the publication of a Box whose name a visible Box bears in a state of its directory, nor the rename of an update to a name that a Box listed with it bears so |
| `BoxCrashRuns.NamesSurviveIff` | crates/moraebox-box/src/lib.rs:778-801 | over every run with any host crashes: names are unique at every point and after every crash that could happen there, exactly when every publication and every update rename of the run is safe in that sense |
| `BoxCrashNames.SettledScanIsCareful` | crates/moraebox-box/src/lib.rs:923-955 | in a store with nothing unsynced the scan the code makes is enough for that |
| `BoxWitness.CrashCanDuplicateNames` | crates/moraebox-box/src/lib.rs:713-726 | a concrete run: delete does not sync the boxes directory, so a crash can bring back a Box whose name was taken meanwhile |
| `BoxWitness.StoppedUpdateCanDuplicateNames` | crates/moraebox-box/src/lib.rs:1372-1398 | a concrete run without a delete: an update killed between its rename and its sync gives up a name that a crash restores after another Box took it |
| `BoxStore.CheckpointsAreImmutable` | crates/moraebox-box/src/checkpoint.rs:206-237 | over any run of operations, a checkpoint keeps its bytes and metadata until it is deleted; with BoxStore.Store.Execute, on disk objects |
| `BoxStore.BoxesAreIndependent` | crates/moraebox-box/src/lib.rs:728-762 | over any run, a Box changes only through operations on that Box, whatever happens to its clones, forks and checkpoints; with BoxStore.Store.Execute, on disk objects |
| `BoxStore.GuestWriteChangesOneDisk` | crates/moraebox-box/src/lib.rs:284-303 | a guest write through the disk of a lease changes the written range of that disk and nothing else in the store |
| `BoxStoreEffects.WriteIff` | crates/moraebox-box/src/lib.rs:284-303 | a guest writes exactly to a Dirty Box, inside its disk |
| `BoxStore.ForkRestoresCheckpoint` | crates/moraebox-box/src/checkpoint.rs:304-333 | a fork at any later time is a Ready Box of generation 0 with the bytes and size the source had when the checkpoint was taken |
| `BoxStore.RunKeepsOrder` | crates/moraebox-box/src/lib.rs:803-870 | over any run, every disk keeps the size its metadata states and names stay unique |
| `BoxStoreEffects.CreateEffect` | crates/moraebox-box/src/lib.rs:369-399 | accepted exactly for valid fields, a disk of the stated size, a free name and a free identifier; the new Box is what was asked for, Ready at generation 0, and nothing else changes; each refusal has its error |
| `BoxStoreEffects.CloneEffect` | crates/moraebox-box/src/lib.rs:752-762 | a clone has the bytes, provenance, labels and tags of its source, generation 0 and no name |
| `BoxStoreEffects.ResetEffect` | crates/moraebox-box/src/lib.rs:728-750 | accepted exactly for a source of the right size; then the bytes are those of the source, the state is Ready, the generation is one more, saturating, the other fields and everything else are as before |
| `BoxStoreEffects.DeleteEffect` | crates/moraebox-box/src/lib.rs:713-726 | the Box is gone and everything else is as before |
| `BoxStoreEffects.UpdateEffect` | crates/moraebox-box/src/lib.rs:778-801 | accepted exactly for a valid request whose name no other Box has; name, each label and each tag are as the request says, and the disk and all else as before |
| `BoxStoreEffects.ContradictoryUpdate` | crates/moraebox-box/src/lib.rs:778-801 | a request that sets and removes the same name, label or tag is refused |
| `BoxStoreEffects.TransitionEffect` | crates/moraebox-box/src/lib.rs:679-711 | accepted exactly from the expected state for one of the three transitions; only the state changes |
| `BoxStoreEffects.CheckpointEffect` | crates/moraebox-box/src/checkpoint.rs:377-436 | accepted exactly for valid fields, a Ready source and a free identifier; bytes and provenance of the source, name, labels and tags of the request |
| `BoxStoreEffects.ForkEffect` | crates/moraebox-box/src/checkpoint.rs:304-333 | a fork has the bytes and provenance of its checkpoint, and its labels and tags unless others are given |
| `BoxStoreEffects.DeleteCheckpointEffect` | crates/moraebox-box/src/checkpoint.rs:291-302 | the checkpoint is gone and everything else is as before |
| `BoxStoreEffects.UnleasableIsRefused` | crates/moraebox-box/src/lib.rs:632-657 | an operation on a Box that is missing or needs repair changes nothing and returns that error |
| `BoxStore.CopyDisk` | crates/moraebox-box/src/disk.rs:518-536 | a native clone or a sparse copy gives a new disk object with equal bytes |
| `BoxStore.Store.Create` | crates/moraebox-box/src/lib.rs:369-399 | on heap disks: the new Box has its own disk, equal to the source, or nothing changes and the error is that of the failing check |
| `BoxStore.Store.CloneBox` | crates/moraebox-box/src/lib.rs:752-762 | on heap disks: refines the value-level clone, errors included, disks staying distinct |
| `BoxStore.Store.ResetBox` | crates/moraebox-box/src/lib.rs:728-750 | a fresh disk with the bytes of the source, generation plus one, Ready, or the error of the failing check; what that means is BoxStoreEffects.ResetEffect |
| `BoxStore.Store.DeleteBox` | crates/moraebox-box/src/lib.rs:713-726 | removes the Box and touches no disk of another entry |
| `BoxStore.Store.Update` | crates/moraebox-box/src/lib.rs:778-801 | renames and retags only a leased Box whose new name is free |
| `BoxStore.Store.SetState` | crates/moraebox-box/src/lib.rs:659-711 | only Ready to Dirty and Dirty to Ready or NeedsRepair, from the expected state |
| `BoxStore.Store.Write` | crates/moraebox-box/src/lib.rs:284-303 | a write through the disk of a lease has one disk object as its frame, and only a Dirty Box can be written |
| `BoxStore.Store.CreateCheckpoint` | crates/moraebox-box/src/checkpoint.rs:377-436 | only of a Ready Box; the checkpoint has a disk object of its own |
| `BoxStore.Store.ForkCheckpoint` | crates/moraebox-box/src/checkpoint.rs:304-333 | the fork has a disk object of its own, equal to the checkpoint |
| `BoxStore.Store.RemoveCheckpoint` | crates/moraebox-box/src/checkpoint.rs:291-302 | removes one checkpoint and nothing else |
| `BoxStore.Store.Execute` | crates/moraebox-box/src/lib.rs:803-870 | any list of operations on heap disks, with disks copied and written in place, leaves exactly the contents that the run of the value store has, so the statements about runs hold of the disk objects |
| `DiskFile.CopyExactRange` | crates/moraebox-box/src/disk.rs:706-725 | copies exactly the range, or fails when the source is too short or the range is reversed |
| `DiskFile.CopySparseExtents` | crates/moraebox-box/src/disk.rs:652-679 | with a kernel that reports data and holes, the copy of a zero-filled destination equals the plain copy; unsupported seeks are reported and change nothing |
| `DiskFile.CopySparseZeroRanges` | crates/moraebox-box/src/disk.rs:727-754 | skipping all-zero blocks gives the plain copy |
| `DiskFile.SparseCopy` | crates/moraebox-box/src/disk.rs:611-643 | the copy equals the source whether or not the kernel can seek |
| `SparseMap.FindSparseMap` | crates/moraebox-box/src/bundle.rs:178-246 | for any seek oracle: terminates with ordered disjoint extents that sum to the stored size; for an honest one it succeeds, and outside the extents there are only holes; for one that answers in blocks the extents begin and end on block boundaries or at the end of the file |
| `SparseMap.KernelIsHonest` | crates/moraebox-box/src/bundle.rs:178-246 | a kernel with an implicit hole at end of file is such an honest oracle, and its holes read as zero |
| `SparseMap.KernelSeeksBlocks` | crates/moraebox-box/src/bundle.rs:178-246 | a file whose allocation changes only on 512-byte boundaries gives such answers in blocks |
| `GnuSparse.NumberRoundTrip` | crates/moraebox-box/src/bundle.rs:111-169 | every 64-bit number survives the octal or base-256 field |
| `GnuSparse.SlotsRoundTrip` | crates/moraebox-box/src/bundle.rs:111-169 | any extents that fit are read back from a table of slots, unused slots included |
| `GnuSparse.ChainRoundTrip` | crates/moraebox-box/src/bundle.rs:111-169 | any number of extents is read back from chained extension headers through their continuation flags |
| `GnuSparse.SpreadGather` | crates/moraebox-box/src/bundle.rs:626-655 | data gathered by an extent map that covers every non-zero byte is spread back to the same disk, exactly if the data of every extent starts on a 512-byte boundary of the stored data |
| `GnuSparse.EntryRoundTrip` | crates/moraebox-box/src/bundle.rs:97-169 | header, inline slots, extension chain, data and padding decode to the identical disk, and reading stops where the entry ends, exactly if the data is so aligned |
| `GnuSparse.AlignedIff` | crates/moraebox-box/src/bundle.rs:626-655 | a map is so aligned exactly when all its extents but the last are multiples of 512 bytes |
| `GnuSparse.GridIsAligned` | crates/moraebox-box/src/bundle.rs:97-169 | a map whose extents begin and end on block boundaries, or at the end of the file, is so aligned |
| `Archive.SparseArchiveWriter.Write` | crates/moraebox-box/src/bundle.rs:54-82 | the writer hashes every byte it is given and leaves runs of zeros as holes |
| `Archive.SparseArchiveWriter.Finish` | crates/moraebox-box/src/bundle.rs:44-52 | the file finally holds exactly the bytes written, with their count and hash |
| `Archive.BuildChain` | crates/moraebox-box/src/bundle.rs:111-169 | the loop over the remaining extents emits the chain of extension headers |
| `Archive.CollectData` | crates/moraebox-box/src/bundle.rs:111-169 | the loop over the extents emits their data in order |
| `Archive.AppendSparseMapped` | crates/moraebox-box/src/bundle.rs:111-169 | writes the whole encoded entry, whenever the archive stays within 64-bit length |
| `Archive.CopySparseAndHash` | crates/moraebox-box/src/bundle.rs:578-624 | the imported disk equals the streamed bytes with zero blocks as holes, and is accepted exactly when its size is the declared one and within the limit |
| `Bundle.RegularRead` | crates/moraebox-box/src/bundle.rs:521-562 | a regular entry is read back with its path and content |
| `Bundle.SparseRead` | crates/moraebox-box/src/bundle.rs:626-655 | a sparse entry is read back as the whole disk, exactly if the data of its extents is aligned |
| `Bundle.MisalignedMap` | crates/moraebox-box/src/bundle.rs:626-655 | a map that the archive reader refuses: data of one byte followed by more data |
| `Bundle.ExportBundle` | crates/moraebox-box/src/bundle.rs:311-397 | an export of a Ready Box within the limits succeeds and is the three entries in order, with the reported size and hash, and its disk entry can be read if the disk is allocated in blocks; other states and oversized inputs are refused with their errors |
| `Bundle.SparseBound` | crates/moraebox-box/src/bundle.rs:97-169 | no disk entry is longer than a bound linear in the disk, so no permitted archive overflows 64 bits |
| `Bundle.BundleRoundTrip` | crates/moraebox-box/src/bundle.rs:418-517 | importing an exported Ready Box restores disk, name, labels, tags and generation, exactly if its sparse map is aligned and its name is free, and fails otherwise; a bundle of an older schema gives a Dirty Box of the current one |
| `Bundle.SampleRoundTrip` | crates/moraebox-box/src/bundle.rs:418-517 | a codec and a Box that meet every assumption of the round trip |
| `Bundle.ImportIsVerified` | crates/moraebox-box/src/bundle.rs:418-517 | whatever an import accepts has the disk size and hash of its manifest, and the migrated metadata of the second entry, whose text has the size and hash of the manifest; it is valid and takes a free name |
| `Cas.Store.PutStream` | crates/moraebox-image/src/cas.rs:154-253 | a successful put returns the hash of exactly the streamed bytes, within the declared and maximum sizes; a failed one changes nothing; no blob is overwritten |
| `Cas.Store.PutVerified` | crates/moraebox-image/src/cas.rs:120-152 | succeeds exactly when the bytes hash to the expected digest and an existing blob verifies |
| `Cas.Store.Publish` | crates/moraebox-image/src/cas.rs:202-253 | an existing blob is checked and kept, a missing one is published |
| `CasProtocol.StepKeepsInv` | crates/moraebox-image/src/cas.rs:120-253 | every step of concurrent writers, stream errors, stops and crashes keep blobs honest |
| `CasProtocol.NeverOverwritten` | crates/moraebox-image/src/cas.rs:120-253 | no step replaces a published blob |
| `CasProtocol.RunsAreHonest` | crates/moraebox-image/src/cas.rs:289-304 | over any interleaving, every blob a crash may leave hashes to its name, and every successful put returned the hash of what it staged |
| `CasPuts.DoneIsStored` | crates/moraebox-image/src/cas.rs:236-250 | in every state of every run, a put that is done has its blob in the store, and that blob hashes to its name |
| `CasPuts.PutStoresItsBytes` | crates/moraebox-image/src/cas.rs:236-250 | if no such blob was there when it looked, a put that goes through leaves exactly the bytes it was given, among any other writers |
| `CasPuts.PutFindsItsBlob` | crates/moraebox-image/src/cas.rs:236-242 | if one was there, the put is done with it, writes nothing and frees its lock |
| `CasPuts.SyncedIsDurable` | crates/moraebox-image/src/cas.rs:243-250 | after its directory sync, no later step of any writer and no crash takes the blob away or changes it |
| `CasPuts.PutGoesThrough` | crates/moraebox-image/src/cas.rs:154-250 | a put of new bytes left alone can take all its steps, and leaves the store with exactly one more blob, durable, and its lock free |
| `CasPuts.PutIsThere` | crates/moraebox-image/src/cas.rs:236-242 | a put whose blob is there and verifies ends without writing, and frees its lock |
| `CasPuts.RunKeepsLocks` | crates/moraebox-image/src/cas.rs:154-250 | no error, stop, crash or end of a put leaves a lock behind |
| `CasPuts.StopReleases` | crates/moraebox-image/src/cas.rs:154-250 | a writer can stop at any point and leaves the blobs as they are |
| `CasProtocol.BlobsAreStable` | crates/moraebox-image/src/cas.rs:120-253 | a visible blob keeps its bytes through any run without a crash |
| `Layer.EnsuredShows` | crates/moraebox-image/src/layer.rs:228-249 | safe parents turn exactly the missing path prefixes into directories |
| `Layer.SymlinkStaysInside` | crates/moraebox-image/src/layer.rs:191-226 | a relative symlink is accepted exactly when resolving it never leaves the root |
| `Layer.WhitedOutShows` | crates/moraebox-image/src/layer.rs:251-271 | a whiteout hides exactly its subtree, an opaque one everything below its directory, and both create their parents |
| `Layer.WhiteoutStaysInside` | crates/moraebox-image/src/layer.rs:251-283 | the path a whiteout joins to its directory stays inside that directory exactly when it names neither . nor .. |
| `Layer.ParentWhiteoutLeaves` | crates/moraebox-image/src/layer.rs:251-283 | the other case exists: the file name .wh... names the directory above its own, outside the root for an entry at the top |
| `Layer.AcceptedWhiteoutStaysInside` | crates/moraebox-image/src/layer.rs:251-283 | a whiteout the model accepts removes exactly what it names, inside its own directory |
| `Layer.EntryMeaning` | crates/moraebox-image/src/layer.rs:131-166 | each entry changes what paths show exactly as its change says, hard links showing a copy of their source |
| `LayerAcceptance.AppliedIff` | crates/moraebox-image/src/layer.rs:131-166 | said by what paths show: an entry applies exactly when its path has only names and dots, no proper prefix shows a link, and its kind fits: a directory where nothing or a directory is, a symlink that stays inside, a hard link whose safe source shows a file or link that is neither below nor above it, a whiteout that names something and no dot entry |
| `LayerAcceptance.ValidatedIff` | crates/moraebox-image/src/layer.rs:168-180 | a path is accepted exactly when it has only names and dots, and is those names |
| `LayerAcceptance.EnsuredIff` | crates/moraebox-image/src/layer.rs:228-249 | the parents of a path can be made exactly when none of them is a link |
| `LayerAcceptance.RepeatedDirectory` | crates/moraebox-image/src/layer.rs:157-163 | an entry for a directory that is already there applies and changes nothing |
| `LayerAcceptance.LayerAppliesIff` | crates/moraebox-image/src/layer.rs:131-166 | a layer applies exactly when each of its entries applies to what the layer means up to there |
| `LayerMeaning.LayerHasMeaning` | crates/moraebox-image/src/layer.rs:131-166 | after a whole layer, each path shows the verdict of the last change that concerns it |
| `LayerChangeset.MeaningIs` | crates/moraebox-image/src/layer.rs:131-166 | what a path shows after a layer is the verdict of the last change that concerns it |
| `LayerChangeset.ChangesetAppliedIff` | crates/moraebox-image/src/layer.rs:131-166 | for every layer that applies, whatever the order of its entries, and for every path: the application agrees with the changeset of the specification exactly when the last change that concerns the path is not a whiteout of something an earlier addition brought, a whiteout whose parent does not stand anyway, or a hard link to a lower file the layer whites out |
| `LayerChangeset.ChangesetApplied` | crates/moraebox-image/src/layer.rs:131-166 | a layer with its whiteouts first, whose whiteout parents stand in the lower tree, is applied as the specification says |
| `LayerChangeset.LateWhiteoutIff` | crates/moraebox-image/src/layer.rs:251-271 | the exact condition for a layer that ends in its only whiteout |
| `LayerChangeset.WhiteoutsAgreeIff` | crates/moraebox-image/src/layer.rs:251-271 | whiteouts alone agree with the specification exactly when their parents are directories of the lower tree |
| `LayerChangeset.LateWhiteoutRemovesAddition` | crates/moraebox-image/src/layer.rs:251-271 | two entries that apply: a file is added and then whited out, and is gone, though the specification keeps it |
| `LayerMeaning.Budget.Charge` | crates/moraebox-image/src/layer.rs:51-88 | refuses exactly when the entry count, the file size or the saturating total exceeds its limit |
| `LayerMeaning.Rootfs.EnsureSafeParents` | crates/moraebox-image/src/layer.rs:228-249 | the loop over the components makes the specified tree, with the same error |
| `LayerMeaning.Rootfs.ApplyWhiteout` | crates/moraebox-image/src/layer.rs:251-271 | makes the specified tree |
| `LayerMeaning.Rootfs.ApplyEntry` | crates/moraebox-image/src/layer.rs:131-166 | makes the specified tree, and succeeds exactly when the entry applies, which is LayerAcceptance.AppliedIff |
| `LayerMeaning.Rootfs.ApplyTar` | crates/moraebox-image/src/layer.rs:131-166 | succeeds exactly when every entry applies in order, which is LayerAcceptance.LayerAppliesIff, and all of them together fit the limits on entries, file size and expanded bytes; then the tree is the specified one and the counters hold the entries and the saturating sum of bytes |
| `Output.OutputBuffer.Push` | crates/moraebox-core/src/output.rs:103-119 | the log grows by the labelled bytes, and the buffer holds exactly its last min(total, capacity) bytes |
| `Output.OutputBuffer.Trim` | crates/moraebox-core/src/output.rs:180-198 | eviction to the exact byte, splitting a chunk where needed; truncated iff the log exceeds the capacity |
| `Output.OutputBuffer.TakeSnapshot` | crates/moraebox-core/src/output.rs:133-178 | expired and future cursors are refused with the right bounds; otherwise the snapshot shows log[cursor .. min(cursor + max, total)] |
| `Output.OutputBuffer.ReadAt` | crates/moraebox-core/src/output.rs:129-131 | the chunks returned concatenate to that slice, with channels and next cursor |
| `Output.SnapshotOutlivesEviction` | crates/moraebox-core/src/output.rs:37-51 | a snapshot still materializes to its slice after any later pushes |
| `Drain.DrainInteractive` | crates/moraebox-cli/src/interactive.rs:153-187 | with pushes interleaved arbitrarily, the loop terminates at the end of the log having printed every byte once and in order, except gaps that had expired, each reported once |
| `Drain.DrainOnce` | crates/moraebox-cli/src/interactive.rs:153-187 | one turn advances the cursor and keeps the screen faithful |
| `Drain.SplitChunks` | crates/moraebox-cli/src/interactive.rs:153-187 | standard error goes to standard error, everything else to standard output |
| `Digests.EncodeHex` | crates/moraebox-image/src/cas.rs:354-362 | two lower-case digits for each byte |
| `Digests.DecodeHex` | crates/moraebox-image/src/cas.rs:46-61 | reads pairs as the radix parser does, a plus sign included |
| `Digests.HexRoundTrip` | crates/moraebox-image/src/cas.rs:43-62 | decoding an encoded byte string is the identity |
| `Digests.HexIsCanonicalIff` | crates/moraebox-image/src/cas.rs:43-62 | an accepted text prints back unchanged exactly when it is lower-case hexadecimal |
| `Digests.DigestRoundTrip` | crates/moraebox-image/src/cache.rs:1349-1360 | a digest parses back from its text with and without the algorithm name |
| `Reference.ParsedIsCanonical` | crates/moraebox-image/src/reference.rs:83-138 | every parsed registry reference is canonical |
| `Reference.RegistryRoundTrip` | crates/moraebox-image/src/reference.rs:140-148 | printing then parsing a canonical reference is the identity exactly for digests and for registries without an at sign, and otherwise an error |
| `Reference.AtTagParses` | crates/moraebox-image/src/reference.rs:92-99 | a tag written after an at sign parses for every registry |
| `ReferenceNames.LibraryName` | crates/moraebox-image/src/reference.rs:86-137 | a single name, in any case, stands for the library image of the default registry in lower case, with the tag latest unless a tag or a digest is given |
| `ReferenceNames.DefaultRegistry` | crates/moraebox-image/src/reference.rs:86-137 | so does a path whose first part is no registry, without the library prefix |
| `ReferenceNames.NamedRegistry` | crates/moraebox-image/src/reference.rs:86-137 | a first part with a dot, a colon or the name localhost is the registry, in lower case, and its port is no tag |
| `Images.ImageRoundTrip` | crates/moraebox-image/src/reference.rs:12-48 | the same for every image source: the identity exactly on references that do not read as something else |
| `Images.CanonicalIsStable` | crates/moraebox-image/src/cache.rs:1322-1326 | a canonical reference is its own canonical form exactly when it still parses |
| `CacheModel.WrittenRecordIsValid` | crates/moraebox-image/src/cache.rs:251-267 | a record written under a reference canonicalized once passes validation when it is read, exactly when that reference is readable |
| `CacheModel.PulledRecordIsValid` | crates/moraebox-image/src/cache.rs:380-396 | a pull canonicalizes its reference before it starts and again before it writes: for an unreadable reference that fails and nothing is written, and otherwise the record is filed under the canonical reference and passes validation |
| `CacheLookup.FoundIff` | crates/moraebox-image/src/cache.rs:398-438 | a lookup finds an image exactly when its record can be read, is for this reference and platform, was pulled from the digest the reference is pinned to, if any, the rootfs of its manifest is in place and the default file can be read |
| `CacheLookup.FoundIs` | crates/moraebox-image/src/cache.rs:398-438 | what it finds is that manifest and rootfs, and says whether it is the default; under a pinned reference the source of the record is the pin |
| `CacheLookup.BadRecordIsError` | crates/moraebox-image/src/cache.rs:398-438 | a record that cannot be read or is filed under another reference is an error, not a miss |
| `CacheLookup.NoRecordNoImage` | crates/moraebox-image/src/cache.rs:398-438 | without a record file of its own a reference is a miss |
| `CacheLookup.PulledIsFound` | crates/moraebox-image/src/cache.rs:380-396 | an image that was pulled is found under its canonical reference |
| `CacheLookup.KeysAreDistinct` | crates/moraebox-image/src/cache.rs:1145-1155 | different references or platforms are filed under different keys |
| `Images.CanonicalTwice` | crates/moraebox-image/src/cache.rs:1322-1326 | canonicalizing a canonical reference fails or changes nothing |
| `Images.LocalLookingRegistry` | crates/moraebox-image/src/reference.rs:12-35 | a text that parses to a registry whose canonical form parses as an OCI layout |
| `Images.HiddenTag` | crates/moraebox-image/src/reference.rs:92-111 | a text that parses to a registry reference whose canonical form does not parse |
| `Images.ArchiveImageParses` | crates/moraebox-image/src/reference.rs:15-35 | a Docker archive is named by its path and a name and tag without forbidden characters |
| `CacheProtocol.StepKeepsInv` | crates/moraebox-image/src/cache.rs:336-396 | every step of pulls, lookups, removals, prunes and cleans, stopping anywhere, keeps the invariant |
| `CacheProtocol.RecordImpliesRootfs` | crates/moraebox-image/src/cache.rs:496-539 | in every reachable state every record names a digest whose rootfs is complete |
| `CacheProtocol.LookupsAreStable` | crates/moraebox-image/src/cache.rs:398-444 | what a lookup found stays while it holds the metadata lock |
| `CacheProtocol.PlanIsSafe` | crates/moraebox-image/src/cache.rs:599-615 | the root filesystems a removal plans to delete are named only by records it removes |
| `CacheProtocol.RecordedIsComplete` | crates/moraebox-image/src/cache.rs:496-539 | in any run, whatever other processes do, a pull that records leaves its record in place with a complete rootfs |
| `CacheProtocol.LookAnswers` | crates/moraebox-image/src/cache.rs:398-438 | a lookup finds a digest exactly when its record names it and its rootfs is complete |
| `CacheProtocol.LocksExclude` | crates/moraebox-image/src/cache.rs:894-920 | two processes never pull one reference or work on one rootfs at once, and a removal, prune or clean has the cache to itself |
| `CacheSweeps.RemovalEnds` | crates/moraebox-image/src/cache.rs:559-653 | in any run, whatever others do, a removal that has gone through leaves exactly the records that were not asked for, and the root filesystems except the wanted one or those only removed records named |
| `CacheSweeps.PruneEnds` | crates/moraebox-image/src/cache.rs:759-859 | likewise a prune leaves exactly the complete root filesystems and the records that name one |
| `CacheSweeps.CleanEnds` | crates/moraebox-image/src/cache.rs:861-890 | likewise a clean leaves neither records nor root filesystems |
| `CacheSweeps.RemovalGoesThrough` | crates/moraebox-image/src/cache.rs:559-653 | a removal of something that is there, left alone, can take all its steps |
| `CacheSweeps.PruneGoesThrough` | crates/moraebox-image/src/cache.rs:759-859 | and so can a prune |
| `CacheSweeps.CleanGoesThrough` | crates/moraebox-image/src/cache.rs:861-890 | and so can a clean |
| `CacheSweeps.StopIsFree` | crates/moraebox-image/src/cache.rs:894-920 | a process can stop at any time; the disk stays as it is and its locks are free |
| `CacheProtocol.PullGoesThrough` | crates/moraebox-image/src/cache.rs:446-539 | a pull left alone can always be run to its end, unless an incomplete rootfs blocks it |
| `CacheProtocol.LonePullEnds` | crates/moraebox-image/src/cache.rs:446-539 | every run of a pull left alone ends with its rootfs and record in place |
| `CacheProtocol.IndependentDirectoriesStrandRecords` | crates/moraebox-image/src/cache.rs:631-639 | if the two directories persisted independently, a crash in a removal could bring back a record without rootfs |
| `CachePrune.PruneKeepsLookups` | crates/moraebox-image/src/cache.rs:398-444 | an applied prune changes the answer of a lookup exactly where it drops a misfiled record or one whose rootfs is a link |
| `CachePrune.PruneKeepsHits` | crates/moraebox-image/src/cache.rs:759-859 | a lookup that found an image in a directory of its own still finds it |
| `CachePrune.PruneKeepsImages` | crates/moraebox-image/src/cache.rs:1029-1057 | whatever the manifest of a ready rootfs keeps alive survives a prune; what that is, in its own terms, is CachePruneContents.RefsAre |
| `CachePruneContents.ImageSurvives` | crates/moraebox-image/src/cache.rs:1029-1056 | for a ready rootfs the manifest blob stays, and so does the blob of its config and of each of its layers, unchanged |
| `CachePruneContents.BlobSurvivesIff` | crates/moraebox-image/src/cache.rs:759-859 | a blob file survives exactly when its name is the digest of a ready rootfs or is written in the manifest of one, as config or layer |
| `CachePruneContents.RefsAre` | crates/moraebox-image/src/cache.rs:1029-1056 | a manifest keeps exactly its own digest and those of its config and layers, and is refused exactly when its blob is missing, damaged or unreadable |
| `CachePruneContents.PruneOkIff` | crates/moraebox-image/src/cache.rs:759-859 | a prune runs exactly when every ready rootfs has such a manifest and every listed record can be read |
| `CachePruneContents.RootSurvivesIff` | crates/moraebox-image/src/cache.rs:759-859 | a rootfs directory survives exactly when one of its markers holds the digest of its name |
| `CachePruneContents.RecordSurvivesIff` | crates/moraebox-image/src/cache.rs:759-859 | a record survives exactly when it names the digest of a complete rootfs, or is no regular json file |
| `CachePruneContents.IndexSurvivesIff` | crates/moraebox-image/src/cache.rs:759-859 | an index entry goes exactly when an incomplete directory has its digest |
| `CachePruneContents.StagingGoesIff` | crates/moraebox-image/src/cache.rs:1362-1380 | a staging directory goes exactly when its name is a lower-case digest, a 32-bit and a 64-bit number |
| `CachePruneContents.PruneConserves` | crates/moraebox-image/src/cache.rs:759-859 | the bytes left and the bytes reclaimed are the bytes that were there, up to 64 bits |
| `CachePrune.PruneFixpoint` | crates/moraebox-image/src/cache.rs:759-859 | a second prune succeeds, finds nothing and changes nothing; no unreachable blob is left |
| `CachePrune.MisfiledRecordIsForgotten` | crates/moraebox-image/src/cache.rs:790-797 | a concrete family where a refused lookup becomes a miss |
| `CachePrune.LinkedRootIsForgotten` | crates/moraebox-image/src/cache.rs:1080-1111 | a concrete family where a found image becomes a miss |
| `CacheRemove.RootGoesIff` | crates/moraebox-image/src/cache.rs:599-615 | a rootfs is deleted exactly when a removed record and no surviving one names its digest |
| `CacheLookup.DigestTarget` | crates/moraebox-image/src/cache.rs:1340-1347 | a digest is understood with and without the algorithm in front |
| `CacheLookup.ReferenceTarget` | crates/moraebox-image/src/cache.rs:1340-1347 | any other text is a reference, in its canonical form |
| `CacheLookup.TakenByReference` | crates/moraebox-image/src/cache.rs:559-653 | a removal by reference takes exactly the listed records whose reference is the canonical form of the text |
| `CacheLookup.TakenByDigest` | crates/moraebox-image/src/cache.rs:559-653 | a removal by digest takes exactly the listed records that name it |
| `CacheLookup.RootTakenByDigest` | crates/moraebox-image/src/cache.rs:559-653 | it takes the first directory of that digest and its index entry, and no other |
| `CacheLookup.ReportedReferences` | crates/moraebox-image/src/cache.rs:559-653 | the references a removal reports are those of the records it takes |
| `CacheRemove.OthersAreKept` | crates/moraebox-image/src/cache.rs:559-648 | every lookup whose record is kept answers as before |
| `CacheRemove.OtherReferences` | crates/moraebox-image/src/cache.rs:584-597 | removing one reference changes the lookup of another exactly where it takes a misfiled record, or the rootfs of a record reached through a link |
| `CacheRemove.RemovedIsGone` | crates/moraebox-image/src/cache.rs:631-639 | a lookup whose record is removed finds nothing |
| `CacheRemove.LinkedRecord` | crates/moraebox-image/src/cache.rs:1059-1078 | a record reached through a link is not counted: its lookup is lost exactly when its rootfs goes |
| `CacheReconcile.ReconcileFixpoint` | crates/moraebox-image/src/cache.rs:655-757 | after an applied run a second one has nothing to do, exactly when directories of one digest agree |
| `CacheReconcile.IndexAgreesWithScan` | crates/moraebox-image/src/cache.rs:655-757 | a ready rootfs is indexed by a fresh scan; incomplete and absent ones have no entry |
| `CacheReconcile.SameOrphans` | crates/moraebox-image/src/cache.rs:728-752 | the entries reported as orphans do not depend on whether the run is applied |
| `CacheReconcile.SettledRun` | crates/moraebox-image/src/cache.rs:655-757 | a run over a settled cache needs and changes nothing |
| `CacheIssues.WholeDirectory` | crates/moraebox-image/src/cache.rs:655-757 | the issue of a complete rootfs is IndexMissing, IndexInvalid or IndexStale exactly when its index entry is missing, unusable or says another usage, and otherwise there is none |
| `CacheIssues.BadDirectory` | crates/moraebox-image/src/cache.rs:655-757 | a directory whose name is no digest, or whose markers do not hold it, is reported as such |
| `CacheIssues.NoDirectory` | crates/moraebox-image/src/cache.rs:655-757 | what is no directory is not reported |
| `CacheIssues.ReportAddsUp` | crates/moraebox-image/src/cache.rs:655-757 | the repairs asked for are the issues with a scan; an applied run reports the same issues and counts as a preview, and writes as many entries as it asks for |
| `CacheIssues.OrphanIff` | crates/moraebox-image/src/cache.rs:655-757 | an index entry is an orphan exactly when no directory has its digest |
| `CacheIssues.SizeCounted` | crates/moraebox-image/src/cache.rs:655-757 | the size counted for a rootfs is that of its index entry if that is current, and else that of a walk |
| `CacheReconcile.TwoNamesOfOneDigest` | crates/moraebox-image/src/cache.rs:1080-1111 | two directory names of one digest are never settled if their sizes differ |
| `CacheStore.ReadRecords` | crates/moraebox-image/src/cache.rs:1059-1078 | lists exactly the regular json records, or fails with the error of one of them |
| `CacheStore.ReachableBlobs` | crates/moraebox-image/src/cache.rs:1029-1057 | the union of what the manifests keep, which CachePruneContents.RefsAre spells out as digest, config and layers, or the error of one of them |
| `CacheStore.PlanPrune` | crates/moraebox-image/src/cache.rs:759-820 | what prune will remove, decided before anything is removed |
| `CacheStore.PlanRemoval` | crates/moraebox-image/src/cache.rs:559-630 | records, root filesystems and report, decided before anything is removed |
| `CacheStore.SelectRoots` | crates/moraebox-image/src/cache.rs:603-615 | the first listed rootfs of every affected digest that nothing else names |
| `CacheStore.SumSizes` | crates/moraebox-image/src/cache.rs:617-619 | the saturating sum, in whatever order it is taken |
| `CacheStore.ReclaimedBytes` | crates/moraebox-image/src/cache.rs:805-832 | the bytes a prune reports: all that goes, counted once, up to 64 bits |
| `CacheStore.ImageCache.Prune` | crates/moraebox-image/src/cache.rs:759-859 | the new state is the pruned cache and the report counts what was removed and the bytes reclaimed; a preview or an error changes nothing |
| `CacheStore.ImageCache.Remove` | crates/moraebox-image/src/cache.rs:559-648 | the new state is the cache without the target; preview and applied report differ in the flag only |
| `CacheStore.ImageCache.Reconcile` | crates/moraebox-image/src/cache.rs:655-757 | the new state is the reconciled cache; a dry run reports the same issues and required counts |
| `Utf8.AsciiIsBoundary` | crates/moraebox-image/src/registry.rs:1028-1111 | an ASCII byte of valid text is a character boundary, so no slice splits a character |
| `Utf8Text.EncodedIsChar` | crates/moraebox-image/src/registry.rs:1028-1111 | every Unicode scalar value is one character to the decoder |
| `Utf8Text.CharIsEncoded` | crates/moraebox-image/src/registry.rs:1028-1111 | and the decoder knows no others: no overlong forms, no surrogates, nothing beyond the last plane |
| `Utf8Text.SpaceIff` | crates/moraebox-image/src/registry.rs:1011-1111 | a text is trimmed at its start of exactly the White_Space characters |
| `Utf8Text.EndSpaceIff` | crates/moraebox-image/src/registry.rs:1011-1111 | and at its end |
| `Auth.ParseAuthParameters` | crates/moraebox-image/src/registry.rs:1028-1111 | the loops terminate on every input with offsets in range and compute the parser |
| `Auth.ReadQuoted` | crates/moraebox-image/src/registry.rs:1060-1093 | the quoted-string loop with its escapes and errors |
| `Auth.QuotedStringIsText` | crates/moraebox-image/src/registry.rs:1060-1093 | a quoted string of valid UTF-8 decodes to valid UTF-8, escapes of long characters included |
| `AuthRoundTrip.ParametersRoundTrip` | crates/moraebox-image/src/registry.rs:1028-1111 | any list of lower-case token keys with UTF-8 values free of CR and LF, printed as escaped quoted-strings joined by commas, parses back |
| `AuthSpelling.SpellingsParse` | crates/moraebox-image/src/registry.rs:1028-1111 | every spelling of a list of parameters is parsed to that list: keys in any case, values quoted or bare, white space around equals signs, values and commas, and empty elements |
| `AuthSpelling.JunkAfterQuote` | crates/moraebox-image/src/registry.rs:1028-1111 | anything but white space between a quoted value and its comma is an error |
| `AuthRoundTrip.ChallengeIff` | crates/moraebox-image/src/registry.rs:1011-1026 | a challenge is understood exactly when its realm is given once and its service and scope at most once, each as its own field |
| `AuthRoundTrip.OtherScheme` | crates/moraebox-image/src/registry.rs:1011-1026 | another scheme is not supported |
| `AuthRoundTrip.ChallengeRoundTrip` | crates/moraebox-image/src/registry.rs:1011-1026 | a printed bearer challenge is understood as its parameters say |
| `AuthRoundTrip.UniqueIff` | crates/moraebox-image/src/registry.rs:1117-1130 | a parameter is returned exactly when its key is given once |
| `Sizing.SizeIsAligned` | crates/moraebox-image/src/workspace.rs:1088-1100 | every image size is a multiple of 4 MiB and at least 64 MiB |
| `Sizing.SizeIsMonotone` | crates/moraebox-image/src/workspace.rs:1088-1119 | monotone in content, entries and payload |
| `Sizing.SizeIsTight` | crates/moraebox-image/src/workspace.rs:1088-1119 | unless the needed size exceeds the greatest aligned one, the image holds twice payload plus inode table plus 32 MiB and exceeds it, or 64 MiB, by less than 4 MiB |
| `Sizing.SizeSaturates` | crates/moraebox-image/src/workspace.rs:1110-1119 | otherwise the image is the greatest aligned size, and falls short |

## Left out

- HTTP, retries, TLS, token exchange and realm checks of the registry client: network code.
- mke2fs, e2fsck, clonefile and FICLONE, permissions, owners, clocks and allocation sizes: foreign
  calls, present only as abstract results.
- Windows branches that drop a lease before a rename: the other order is modelled.
- Garbage collection of staging files, quarantine and repair listings, base and ephemeral disks:
  mostly single-branch directory walks.
- Materializing a root filesystem from its manifest and the manifest limits: the layers are modelled,
  the loop over them adds little.
- Pull policies, default-image commands, usage and list reports of the cache: single-branch logic.
- CLI parsing, profiles, the supervisor, sessions, the guest protocol and MCP wiring.
- Output cursors and lengths are unbounded: 64-bit overflow of the total output is not modelled.
- The tar library's reader: a decoder for the GNU sparse format stands in for it, with the library's
  checks of alignment, order and sizes; header checksums and long names are not part of it.
- I/O errors of removals and writes in the cache, such as an index entry that cannot be unlinked:
  reading errors are modelled, removal always succeeds.
- BoxNames.NamesStayUnique: without host crashes, because the code does not keep names unique across
  them; BoxCrashRuns.NamesSurviveIff states exactly which runs with crashes do.
- BoxCrashNames.CarefulStepKeeps: a sufficient condition; the exact one is BoxCrashRuns.StepClashIff.
- BoxCrashNames.CarefulRunsStayUnique: a sufficient condition; the exact one is
  BoxCrashRuns.NamesSurviveIff.
- BoxSafety.CloneIsCleanIff: its condition is the history of the disk, which no caller sees; the state a
  caller sees decides only for Ready.
- BoxSafety.DirtyTracking: Ready implies unexposed only in runs that cloned no Dirty Box, because the
  code does not test the state of a clone's source.
- Layer.EntryMeaning: speaks of entries that apply. A directory entry over something that is not a
  directory fails here, also over a symbolic link to a directory, which the archive library may accept.
  What a failed application leaves behind is not stated.
- Layer.WhitedOutShows: whiteouts of `.` and `..` are failures here. The code strips `.wh...` to `..` and
  recursively removes the directory above the parent, which is outside the root for an entry at the top;
  whether that ends in an error depends on the version of the standard library, and it may succeed.
- LayerMeaning.Rootfs.ApplyWhiteout: likewise, it fails before it removes anything for `.` and `..`.
- BoxStore.Store.CreateCheckpoint: the staging directory and its rename are one step; in the
  protocol, too, a checkpoint appears at once.
- CacheProtocol.RecordImpliesRootfs: blobs, the size index and staging directories are not part of the
  protocol's disk; record_image, which records without looking at the rootfs and has no caller outside
  tests, is not one of its actions.
- CacheStore.ImageCache.Prune: the plain sums of blob and record sizes are unbounded numbers; their
  overflow beyond 64 bits, before the saturating additions, is not modelled.
- BoxStore.Store.Write: stands for a guest's write; that only a Dirty Box is written is the protocol's
  demand on callers, and the store itself has no such operation.
- CacheStore.ImageCache.Reconcile: the final sort of the issues by path is left out.
