/** What a put leaves in the blob store: its blob is there, with its bytes, and after its sync for good. */
module CasPuts {
  import opened Base
  import opened Cas
  import opened CasProtocol

  /** A blob stands with these bytes in every state a crash may leave. */
  predicate HeldByAll(s: System, d: Digest, bytes: seq<byte>) {
    s.history != [] && forall i :: 0 <= i < |s.history| ==> d in s.history[i] && s.history[i][d] == bytes
  }

  /** Whatever writers do and however often the host crashes, such a blob stays. */
  lemma StepKeepsHeld(s: System, a: Action, hash: seq<byte> -> Digest, d: Digest, bytes: seq<byte>)
    requires Inv(s, hash) && Enabled(s, a, hash) && HeldByAll(s, d, bytes)
    ensures HeldByAll(Do(s, a, hash), d, bytes)
  {
    if a.Rename? {
      assert WriterOk(s, a.w, hash);
    }
  }

  /** In any state of any run, a put that is done has its blob in the store, and it hashes to its name. */
  lemma DoneIsStored(states: seq<System>, actions: seq<Action>, hash: seq<byte> -> Digest, i: nat, w: WriterId)
    requires IsRun(states, actions, hash) && i < |states| && w in states[i].writers && states[i].writers[w].Done?
    ensures states[i].history != []
    ensures var x, blobs := states[i].writers[w], Visible(states[i]);
      x.d in blobs && hash(blobs[x.d]) == x.d && x.d == hash(x.staged)
  {
    RunKeepsInv(states, actions, hash, i);
    assert WriterOk(states[i], w, hash);
  }

  /** A writer that has looked and found nothing goes on to publish exactly what it staged. */
  predicate Publishing(s: System, w: WriterId, x: Writer)
    requires x.Absent?
  {
    && w in s.writers && s.history != []
    && var y := s.writers[w];
       || y == x
       || ((y == Renamed(x.request, x.staged, x.d) || y == Done(x.request, x.staged, x.d))
           && x.d in Visible(s) && Visible(s)[x.d] == x.staged)
  }

  /** Between two states neither the host crashes nor does the writer stop. */
  predicate GoesOn(actions: seq<Action>, w: WriterId, i: nat, j: nat) {
    j <= |actions| && forall n :: i <= n < j ==> !actions[n].Crash? && actions[n] != Stop(w)
  }

  lemma PublishingStep(s: System, a: Action, hash: seq<byte> -> Digest, w: WriterId, x: Writer)
    requires Inv(s, hash) && Enabled(s, a, hash) && x.Absent? && Publishing(s, w, x)
    requires !a.Crash? && a != Stop(w)
    ensures Publishing(Do(s, a, hash), w, x)
  {
    if x.d in Visible(s) {
      NeverOverwritten(s, a, hash, x.d);
    }
  }

  lemma {:induction false} PublishingRange(states: seq<System>, actions: seq<Action>, hash: seq<byte> -> Digest,
                                           w: WriterId, x: Writer, i: nat, j: nat)
    requires IsRun(states, actions, hash) && i <= j < |states| && GoesOn(actions, w, i, j)
    requires x.Absent? && Publishing(states[i], w, x)
    ensures Publishing(states[j], w, x)
    decreases j - i
  {
    if i < j {
      PublishingRange(states, actions, hash, w, x, i, j - 1);
      RunKeepsInv(states, actions, hash, j - 1);
      assert StepOf(states[j - 1], actions[j - 1], states[j], hash);
      PublishingStep(states[j - 1], actions[j - 1], hash, w, x);
    }
  }

  /** If no such blob was there when the writer looked, its put leaves exactly the bytes it was given. */
  lemma PutStoresItsBytes(states: seq<System>, actions: seq<Action>, hash: seq<byte> -> Digest, w: WriterId,
                          i: nat, j: nat)
    requires IsRun(states, actions, hash) && i < j < |states| && GoesOn(actions, w, i + 1, j)
    requires actions[i] == Look(w) && w in states[i].writers && states[i].writers[w].Locked?
    requires states[i].history != [] && states[i].writers[w].d !in Visible(states[i])
    requires w in states[j].writers && states[j].writers[w].Done?
    ensures states[j].history != []
    ensures var x, blobs := states[i].writers[w], Visible(states[j]);
      x.d in blobs && blobs[x.d] == x.staged && states[j].writers[w] == Done(x.request, x.staged, x.d)
  {
    var x := states[i].writers[w];
    assert StepOf(states[i], actions[i], states[i + 1], hash);
    PublishingRange(states, actions, hash, w, Absent(x.request, x.staged, x.d), i + 1, j);
  }

  /** If one was there, the put is done with it, and the store is as it was. */
  lemma PutFindsItsBlob(states: seq<System>, actions: seq<Action>, hash: seq<byte> -> Digest, w: WriterId, i: nat)
    requires IsRun(states, actions, hash) && i < |actions| && actions[i] == Look(w)
    requires w in states[i].writers && states[i].writers[w].Locked?
    requires states[i].history != [] && states[i].writers[w].d in Visible(states[i])
    ensures states[i + 1].history == states[i].history && w in states[i + 1].writers
    ensures states[i + 1].writers[w].Done? && states[i + 1].writers[w].d == states[i].writers[w].d
    ensures states[i + 1].locks == states[i].locks - {states[i].writers[w].d}
  {
    assert StepOf(states[i], actions[i], states[i + 1], hash);
  }

  /** After its own sync a put is durable: no later step and no crash takes its blob away or changes it. */
  lemma {:induction false} SyncedIsDurable(states: seq<System>, actions: seq<Action>, hash: seq<byte> -> Digest,
                                           w: WriterId, i: nat, j: nat)
    requires IsRun(states, actions, hash) && i < j < |states| && actions[i] == Sync(w)
    ensures w in states[i].writers && states[i].writers[w].Renamed? && states[i].history != []
    ensures var d := states[i].writers[w].d;
      d in Visible(states[i]) && HeldByAll(states[j], d, Visible(states[i])[d])
    decreases j
  {
    RunKeepsInv(states, actions, hash, i);
    assert StepOf(states[i], actions[i], states[i + 1], hash);
    assert WriterOk(states[i], w, hash);
    var d := states[i].writers[w].d;
    if i + 1 < j {
      SyncedIsDurable(states, actions, hash, w, i, j - 1);
      RunKeepsInv(states, actions, hash, j - 1);
      assert StepOf(states[j - 1], actions[j - 1], states[j], hash);
      StepKeepsHeld(states[j - 1], actions[j - 1], hash, d, Visible(states[i])[d]);
    }
  }

  // Locks.

  /** Every lock is held by a writer that is at work under it. */
  predicate LocksHeld(s: System) {
    forall d :: d in s.locks ==> s.locks[d] in s.writers && Held(s.writers[s.locks[d]]) == Some(d)
  }

  /** No step leaves a lock behind: not an error, not a stop, not the end of a put, not a crash. */
  lemma StepKeepsLocks(s: System, a: Action, hash: seq<byte> -> Digest)
    requires Inv(s, hash) && Enabled(s, a, hash) && LocksHeld(s)
    ensures LocksHeld(Do(s, a, hash))
  {
    var t := Do(s, a, hash);
    if !a.Crash? {
      assert WriterOk(s, a.w, hash);
      forall d | d in t.locks ensures t.locks[d] in t.writers && Held(t.writers[t.locks[d]]) == Some(d) {
        LockKept(s, a, hash, d);
      }
    }
  }

  lemma LockKept(s: System, a: Action, hash: seq<byte> -> Digest, d: Digest)
    requires Inv(s, hash) && Enabled(s, a, hash) && LocksHeld(s) && !a.Crash? && d in Do(s, a, hash).locks
    ensures var t := Do(s, a, hash);
      t.locks[d] in t.writers && Held(t.writers[t.locks[d]]) == Some(d)
  {
    assert WriterOk(s, a.w, hash);
  }

  /** So in any run that starts without locks, a lock that is taken has a writer at work. */
  lemma {:induction false} RunKeepsLocks(states: seq<System>, actions: seq<Action>, hash: seq<byte> -> Digest, i: nat)
    requires IsRun(states, actions, hash) && i < |states| && LocksHeld(states[0])
    ensures LocksHeld(states[i])
  {
    if i > 0 {
      RunKeepsLocks(states, actions, hash, i - 1);
      RunKeepsInv(states, actions, hash, i - 1);
      assert StepOf(states[i - 1], actions[i - 1], states[i], hash);
      StepKeepsLocks(states[i - 1], actions[i - 1], hash);
    }
  }

  /** A writer that stops gives up its lock and leaves the blobs as they are. */
  lemma StopReleases(s: System, w: WriterId, hash: seq<byte> -> Digest)
    requires s.history != [] && w in s.writers && s.writers[w] != Idle
    ensures Enabled(s, Stop(w), hash)
    ensures Do(s, Stop(w), hash).history == s.history && Do(s, Stop(w), hash).writers == s.writers[w := Idle]
  {
  }

  // A put left alone.

  /** The state after some actions in a row, if each of them can be taken. */
  function After(s: System, actions: seq<Action>, hash: seq<byte> -> Digest): Option<System>
    decreases |actions|
  {
    if actions == [] then Some(s)
    else if s.history != [] && Enabled(s, actions[0], hash) then After(Do(s, actions[0], hash), actions[1..], hash)
    else None
  }

  lemma Two(s: System, a: Action, b: Action, rest: seq<Action>, hash: seq<byte> -> Digest, s1: System, s2: System)
    requires StepOf(s, a, s1, hash) && StepOf(s1, b, s2, hash)
    ensures After(s, [a, b] + rest, hash) == After(s2, rest, hash)
  {
    var all := [a, b] + rest;
    assert all[1..] == [b] + rest && ([b] + rest)[1..] == rest;
    assert After(s1, [b] + rest, hash) == After(s2, rest, hash);
  }

  /** A request that these bytes meet, of a writer that is idle while nobody holds the lock of their digest. */
  predicate CanPut(s: System, w: WriterId, r: Request, bytes: seq<byte>, hash: seq<byte> -> Digest) {
    && s.history != [] && w in s.writers && s.writers[w] == Idle && hash(bytes) !in s.locks
    && SizeOk(Size(bytes), r.size, r.maximum) && (r.digest.Some? ==> r.digest.value == hash(bytes))
  }

  /** `put_stream`, up to the lock of its digest: the bytes are staged and checked. */
  lemma PutStages(s: System, w: WriterId, r: Request, bytes: seq<byte>, hash: seq<byte> -> Digest, rest: seq<Action>)
    requires CanPut(s, w, r, bytes, hash)
    ensures var d := hash(bytes);
      After(s, [Start(w, r), Chunk(w, bytes)] + ([Seal(w), Lock(w)] + rest), hash)
      == After(s.(writers := s.writers[w := Locked(r, bytes, d)], locks := s.locks[d := w]), rest, hash)
  {
    var d := hash(bytes);
    var early := if r.digest.Some? then s.locks[d := w] else s.locks;
    var s1 := s.(writers := s.writers[w := Streaming(r, [])], locks := early);
    var s2 := s.(writers := s.writers[w := Streaming(r, bytes)], locks := early);
    assert [] + bytes == bytes;
    assert s1.writers[w := Streaming(r, bytes)] == s2.writers;
    Two(s, Start(w, r), Chunk(w, bytes), [Seal(w), Lock(w)] + rest, hash, s1, s2);
    PutLocks(s2, w, r, bytes, hash, rest);
    assert s2.writers[w := Locked(r, bytes, d)] == s.writers[w := Locked(r, bytes, d)];
    assert early[d := w] == s.locks[d := w];
  }

  lemma PutLocks(s: System, w: WriterId, r: Request, bytes: seq<byte>, hash: seq<byte> -> Digest, rest: seq<Action>)
    requires s.history != [] && w in s.writers && s.writers[w] == Streaming(r, bytes)
    requires SizeOk(Size(bytes), r.size, r.maximum) && (r.digest.Some? ==> r.digest.value == hash(bytes))
    requires r.digest.None? ==> hash(bytes) !in s.locks
    ensures After(s, [Seal(w), Lock(w)] + rest, hash)
      == After(s.(writers := s.writers[w := Locked(r, bytes, hash(bytes))], locks := s.locks[hash(bytes) := w]),
               rest, hash)
  {
    var s1 := s.(writers := s.writers[w := Sealed(r, bytes)]);
    var s2 := s.(writers := s.writers[w := Locked(r, bytes, hash(bytes))], locks := s.locks[hash(bytes) := w]);
    assert s1.writers[w := Locked(r, bytes, hash(bytes))] == s2.writers;
    Two(s, Seal(w), Lock(w), rest, hash, s1, s2);
  }

  /** From the lock on, with no such blob there: it is published and durable, and the lock is free. */
  lemma PutPublishes(s: System, w: WriterId, r: Request, bytes: seq<byte>, d: Digest, hash: seq<byte> -> Digest)
    requires s.history != [] && w in s.writers && s.writers[w] == Locked(r, bytes, d) && d !in Visible(s)
    ensures After(s, [Look(w), Rename(w)] + [Sync(w)], hash)
      == Some(System([Visible(s)[d := bytes]], s.writers[w := Done(r, bytes, d)], s.locks - {d}))
  {
    var s1 := s.(writers := s.writers[w := Absent(r, bytes, d)]);
    var s2 := s.(writers := s.writers[w := Renamed(r, bytes, d)], history := s.history + [Visible(s)[d := bytes]]);
    var s3 := System([Visible(s)[d := bytes]], s.writers[w := Done(r, bytes, d)], s.locks - {d});
    assert s1.writers[w := Renamed(r, bytes, d)] == s2.writers;
    Two(s, Look(w), Rename(w), [Sync(w)], hash, s1, s2);
    assert s2.writers[w := Done(r, bytes, d)] == s3.writers;
    assert Visible(s2) == Visible(s)[d := bytes];
    assert StepOf(s2, Sync(w), s3, hash) && [Sync(w)][1..] == [];
    assert After(s3, [], hash) == Some(s3);
  }

  /** From the lock on, with the blob already there: nothing is written, and the lock is free. */
  lemma PutIsThere(s: System, w: WriterId, r: Request, bytes: seq<byte>, d: Digest, hash: seq<byte> -> Digest)
    requires s.history != [] && w in s.writers && s.writers[w] == Locked(r, bytes, d)
    requires d in Visible(s) && hash(Visible(s)[d]) == d
    ensures After(s, [Look(w)], hash)
      == Some(s.(writers := s.writers[w := Done(r, bytes, d)], locks := s.locks - {d}))
  {
    assert [Look(w)][1..] == [];
  }

  /** A put of new bytes, left alone: the blob is in the store for good, and nothing else has changed. */
  lemma PutGoesThrough(s: System, w: WriterId, r: Request, bytes: seq<byte>, hash: seq<byte> -> Digest)
    requires CanPut(s, w, r, bytes, hash) && hash(bytes) !in Visible(s)
    ensures var d := hash(bytes);
      After(s, [Start(w, r), Chunk(w, bytes)] + ([Seal(w), Lock(w)] + ([Look(w), Rename(w)] + [Sync(w)])), hash)
      == Some(System([Visible(s)[d := bytes]], s.writers[w := Done(r, bytes, d)], s.locks))
  {
    var d := hash(bytes);
    PutStages(s, w, r, bytes, hash, [Look(w), Rename(w)] + [Sync(w)]);
    var t := s.(writers := s.writers[w := Locked(r, bytes, d)], locks := s.locks[d := w]);
    PutPublishes(t, w, r, bytes, d, hash);
    assert t.writers[w := Done(r, bytes, d)] == s.writers[w := Done(r, bytes, d)];
    assert s.locks[d := w] - {d} == s.locks;
  }
}
