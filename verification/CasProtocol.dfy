/**
 Several writers putting blobs at once, with stream errors, killed writers and host crashes. A writer
 holds the lock of a digest from before it looks whether the blob exists until after it has renamed
 its staged file into place.
 */
module CasProtocol {
  import opened Base
  import opened Cas

  type WriterId = nat

  datatype Request = Request(digest: Option<Digest>, size: Option<nat>, maximum: nat)

  datatype Writer =
    | Idle
    | Streaming(request: Request, staged: seq<byte>)
    | Sealed(request: Request, staged: seq<byte>)             // complete, flushed, size and digest checked
    | Locked(request: Request, staged: seq<byte>, d: Digest)  // holds the lock of its digest
    | Absent(request: Request, staged: seq<byte>, d: Digest)  // has seen that no such blob exists
    | Renamed(request: Request, staged: seq<byte>, d: Digest) // published, directory not yet synced
    | Done(request: Request, staged: seq<byte>, d: Digest)

  type Blobs = map<Digest, seq<byte>>

  /** `history` holds the states of the blob directory a crash may leave; the last is visible. */
  datatype System = System(history: seq<Blobs>, writers: map<WriterId, Writer>, locks: map<Digest, WriterId>)

  datatype Action =
    | Start(w: WriterId, request: Request)
    | StartVerified(w: WriterId, d: Digest, bytes: seq<byte>)
    | Chunk(w: WriterId, chunk: seq<byte>)
    | Seal(w: WriterId)
    | Lock(w: WriterId)
    | Look(w: WriterId)
    | Rename(w: WriterId)
    | Sync(w: WriterId)
    | Stop(w: WriterId)          // an error, a dropped future or a killed process
    | Crash(state: nat)

  function Visible(s: System): Blobs
    requires s.history != []
  {
    s.history[|s.history| - 1]
  }

  predicate Enabled(s: System, a: Action, hash: seq<byte> -> Digest)
    requires s.history != []
  {
    match a
    case Start(w, r) =>
      w in s.writers && s.writers[w].Idle? && (r.digest.Some? ==> r.digest.value !in s.locks)
    case StartVerified(w, d, bytes) =>
      w in s.writers && s.writers[w].Idle? && d !in s.locks && hash(bytes) == d
    case Chunk(w, chunk) =>
      && w in s.writers && s.writers[w].Streaming?
      && var n, r := Size(s.writers[w].staged + chunk), s.writers[w].request;
         n <= r.maximum && (r.size.Some? ==> n <= r.size.value)
    case Seal(w) =>
      && w in s.writers && s.writers[w].Streaming?
      && var x := s.writers[w];
         SizeOk(Size(x.staged), x.request.size, x.request.maximum)
         && (x.request.digest.Some? ==> x.request.digest.value == hash(x.staged))
    case Lock(w) =>
      && w in s.writers && s.writers[w].Sealed?
      && (s.writers[w].request.digest.Some? || hash(s.writers[w].staged) !in s.locks)
    case Look(w) =>
      && w in s.writers && s.writers[w].Locked?
      && (s.writers[w].d in Visible(s) ==> Verified(hash, s.writers[w].d, Visible(s)[s.writers[w].d]))
    case Rename(w) => w in s.writers && s.writers[w].Absent?
    case Sync(w) => w in s.writers && s.writers[w].Renamed?
    case Stop(w) => w in s.writers && !s.writers[w].Idle?
    case Crash(k) => k < |s.history|
  }

  function Set(s: System, w: WriterId, x: Writer): System { s.(writers := s.writers[w := x]) }

  /** The lock a writer holds, if any. */
  function Held(x: Writer): Option<Digest> {
    match x
    case Idle => None
    case Streaming(r, _) => r.digest
    case Sealed(r, _) => r.digest
    case Locked(_, _, d) => Some(d)
    case Absent(_, _, d) => Some(d)
    case Renamed(_, _, d) => Some(d)
    case Done(_, _, _) => None
  }

  function Unlock(s: System, x: Writer): map<Digest, WriterId> {
    if Held(x).Some? then s.locks - {Held(x).value} else s.locks
  }

  function Do(s: System, a: Action, hash: seq<byte> -> Digest): System
    requires s.history != [] && Enabled(s, a, hash)
  {
    match a
    case Start(w, r) =>
      Set(s, w, Streaming(r, [])).(locks := if r.digest.Some? then s.locks[r.digest.value := w] else s.locks)
    case StartVerified(w, d, bytes) =>
      Set(s, w, Locked(Request(Some(d), None, U64_MAX), bytes, d)).(locks := s.locks[d := w])
    case Chunk(w, chunk) => Set(s, w, Streaming(s.writers[w].request, s.writers[w].staged + chunk))
    case Seal(w) => Set(s, w, Sealed(s.writers[w].request, s.writers[w].staged))
    case Lock(w) =>
      var x := s.writers[w];
      Set(s, w, Locked(x.request, x.staged, hash(x.staged))).(locks := s.locks[hash(x.staged) := w])
    case Look(w) =>
      var x := s.writers[w];
      if x.d in Visible(s) then Set(s, w, Done(x.request, x.staged, x.d)).(locks := Unlock(s, x))
      else Set(s, w, Absent(x.request, x.staged, x.d))
    case Rename(w) =>
      var x := s.writers[w];
      Set(s, w, Renamed(x.request, x.staged, x.d)).(history := s.history + [Visible(s)[x.d := x.staged]])
    case Sync(w) =>
      var x := s.writers[w];
      Set(s, w, Done(x.request, x.staged, x.d)).(history := [Visible(s)], locks := Unlock(s, x))
    case Stop(w) => Set(s, w, Idle).(locks := Unlock(s, s.writers[w]))
    case Crash(k) =>
      System([s.history[k]], map w | w in s.writers :: Idle, map[])
  }

  /** Every blob, in every state a crash may leave, hashes to its name. */
  predicate Honest(s: System, hash: seq<byte> -> Digest) {
    s.history != [] && forall i, d :: 0 <= i < |s.history| && d in s.history[i] ==> hash(s.history[i][d]) == d
  }

  predicate WriterOk(s: System, w: WriterId, hash: seq<byte> -> Digest)
    requires s.history != [] && w in s.writers
  {
    var x := s.writers[w];
    && (Held(x).Some? ==> Held(x).value in s.locks && s.locks[Held(x).value] == w)
    && (x.Sealed? || x.Locked? || x.Absent? || x.Renamed? || x.Done? ==>
          && SizeOk(Size(x.staged), x.request.size, x.request.maximum)
          && (x.request.digest.Some? ==> x.request.digest.value == hash(x.staged)))
    && (x.Locked? || x.Absent? || x.Renamed? || x.Done? ==> x.d == hash(x.staged))
    && (x.Absent? ==> x.d !in Visible(s))
    && (x.Renamed? || x.Done? ==> x.d in Visible(s))
  }

  predicate Inv(s: System, hash: seq<byte> -> Digest) {
    Honest(s, hash) && forall w :: w in s.writers ==> WriterOk(s, w, hash)
  }

  /** Every step keeps the invariant, also a stopped writer and a crash. */
  lemma StepKeepsInv(s: System, a: Action, hash: seq<byte> -> Digest)
    requires Inv(s, hash) && Enabled(s, a, hash)
    ensures Inv(Do(s, a, hash), hash)
  {
    StepKeepsHonest(s, a, hash);
    forall w | w in Do(s, a, hash).writers
      ensures WriterOk(Do(s, a, hash), w, hash)
    {
      StepKeepsWriter(s, a, hash, w);
    }
  }

  lemma StepKeepsHonest(s: System, a: Action, hash: seq<byte> -> Digest)
    requires Inv(s, hash) && Enabled(s, a, hash)
    ensures Honest(Do(s, a, hash), hash)
  {
    if a.Rename? {
      assert WriterOk(s, a.w, hash);
    }
  }

  lemma StepKeepsWriter(s: System, a: Action, hash: seq<byte> -> Digest, w: WriterId)
    requires Inv(s, hash) && Enabled(s, a, hash) && w in s.writers && Do(s, a, hash).history != []
    ensures WriterOk(Do(s, a, hash), w, hash)
  {
    assert WriterOk(s, w, hash);
    if !a.Crash? && a.w in s.writers {
      assert WriterOk(s, a.w, hash);
    }
  }

  /** No step replaces a published blob: two writers of one digest are kept apart by its lock. */
  lemma NeverOverwritten(s: System, a: Action, hash: seq<byte> -> Digest, d: Digest)
    requires Inv(s, hash) && Enabled(s, a, hash) && d in Visible(s)
    ensures Do(s, a, hash).history != []
    ensures !a.Crash? ==> d in Visible(Do(s, a, hash)) && Visible(Do(s, a, hash))[d] == Visible(s)[d]
    ensures a.Crash? ==> Visible(Do(s, a, hash)) in s.history
  {
    if a.Rename? {
      assert WriterOk(s, a.w, hash);
    }
  }

  ghost predicate IsRun(states: seq<System>, actions: seq<Action>, hash: seq<byte> -> Digest) {
    && |states| == |actions| + 1
    && Inv(states[0], hash)
    && forall i :: 0 <= i < |actions| ==> StepOf(states[i], actions[i], states[i + 1], hash)
  }

  ghost predicate StepOf(s: System, a: Action, t: System, hash: seq<byte> -> Digest) {
    s.history != [] && Enabled(s, a, hash) && t == Do(s, a, hash)
  }

  lemma {:induction false} RunKeepsInv(states: seq<System>, actions: seq<Action>, hash: seq<byte> -> Digest, i: nat)
    requires IsRun(states, actions, hash) && i < |states|
    ensures Inv(states[i], hash)
  {
    if i > 0 {
      RunKeepsInv(states, actions, hash, i - 1);
      assert StepOf(states[i - 1], actions[i - 1], states[i], hash);
      StepKeepsInv(states[i - 1], actions[i - 1], hash);
    }
  }

  /**
   Over any interleaving: blobs hash to their names, and a put that succeeded returned the hash of
   exactly the bytes it staged, within the declared and the maximum size.
   */
  lemma RunsAreHonest(states: seq<System>, actions: seq<Action>, hash: seq<byte> -> Digest, i: nat)
    requires IsRun(states, actions, hash) && i < |states|
    ensures Honest(states[i], hash)
    ensures forall w :: w in states[i].writers && states[i].writers[w].Done? ==>
      var x := states[i].writers[w];
      && x.d == hash(x.staged) && SizeOk(Size(x.staged), x.request.size, x.request.maximum)
      && (x.request.digest.Some? ==> x.d == x.request.digest.value)
  {
    RunKeepsInv(states, actions, hash, i);
    forall w | w in states[i].writers && states[i].writers[w].Done?
      ensures var x := states[i].writers[w];
        && x.d == hash(x.staged) && SizeOk(Size(x.staged), x.request.size, x.request.maximum)
        && (x.request.digest.Some? ==> x.d == x.request.digest.value)
    {
      assert WriterOk(states[i], w, hash);
    }
  }

  /** A blob, once visible, keeps its bytes through any run without a crash. */
  lemma {:induction false} BlobsAreStable(states: seq<System>, actions: seq<Action>, hash: seq<byte> -> Digest,
                                          i: nat, j: nat, d: Digest)
    requires IsRun(states, actions, hash) && i <= j < |states|
    requires forall k :: i <= k < j ==> !actions[k].Crash?
    requires states[i].history != [] && d in Visible(states[i])
    ensures states[j].history != [] && d in Visible(states[j]) && Visible(states[j])[d] == Visible(states[i])[d]
    decreases j - i
  {
    if i < j {
      BlobsAreStable(states, actions, hash, i, j - 1, d);
      RunKeepsInv(states, actions, hash, j - 1);
      assert StepOf(states[j - 1], actions[j - 1], states[j], hash);
      NeverOverwritten(states[j - 1], actions[j - 1], hash, d);
    }
  }
}
