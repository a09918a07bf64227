/** What each operation of the Box store accepts, what it leaves, and what it leaves alone. */
module BoxStoreEffects {
  import opened Base
  import opened Boxes
  import opened BoxStore

  /** No Box has the name, ignoring case. */
  predicate Unnamed(v: View, name: Option<string>) {
    forall b :: b in v.boxes ==> !SameName(v.boxes[b].meta.name, name)
  }

  /** A Box that exists and does not need repair. */
  predicate Leasable(v: View, b: BoxId) { b in v.boxes && v.boxes[b].meta.state != NeedsRepair }

  /** Everything but one Box is as before. */
  predicate OnlyBox(v: View, w: View, b: BoxId) {
    && w.checkpoints == v.checkpoints
    && (forall x :: x in v.boxes && x != b ==> x in w.boxes && w.boxes[x] == v.boxes[x])
    && forall x :: x in w.boxes && x != b ==> x in v.boxes
  }

  /** The metadata a Box begins with. */
  function Fresh(manifest: string, platform: string, size: nat, name: Option<string>, labels: map<string, string>,
                 tags: set<string>): Metadata
  {
    Metadata(SCHEMA_VERSION, Ready, manifest, platform, size, 0, name, labels, tags)
  }

  /** `create`: accepted exactly for valid fields, a disk of the stated size and a free name. */
  lemma CreateEffect(v: View, id: BoxId, r: CreateRequest, source: seq<byte>)
    ensures var op := Create(id, r, source);
      var m := Fresh(r.manifestDigest, r.platform, r.virtualSize, r.name, r.labels, r.tags);
      && (Step(v, op).Ok? <==> ValidFields(m) && |source| == m.virtualSize && Unnamed(v, m.name) && id !in v.boxes)
      && (Step(v, op).Ok? ==> OnlyBox(v, After(v, op), id) && id in After(v, op).boxes
                              && After(v, op).boxes[id] == Entry(m, source))
      && (!ValidFields(m) ==> Step(v, op) == Err(Invalid))
      && (ValidFields(m) && |source| != m.virtualSize ==> Step(v, op) == Err(SizeDiffers))
      && (ValidFields(m) && |source| == m.virtualSize && !Unnamed(v, m.name) ==> Step(v, op) == Err(Conflict))
  {
  }

  /** `clone_box`: the bytes, labels and tags of the source, a new generation and no name. */
  lemma CloneEffect(v: View, id: BoxId, from: BoxId)
    requires Leasable(v, from)
    ensures var op, s := Clone(id, from), v.boxes[from];
      var m := Fresh(s.meta.manifestDigest, s.meta.platform, s.meta.virtualSize, None, s.meta.labels, s.meta.tags);
      && (Step(v, op).Ok? <==> ValidFields(m) && |s.bytes| == m.virtualSize && id !in v.boxes)
      && (Step(v, op).Ok? ==> OnlyBox(v, After(v, op), id) && id in After(v, op).boxes
                              && After(v, op).boxes[id] == Entry(m, s.bytes))
  {
  }

  /** `reset`: the bytes of the source, Ready, a generation on, and the other fields as before. */
  lemma ResetEffect(v: View, b: BoxId, source: seq<byte>)
    requires Leasable(v, b)
    ensures var op, m := Reset(b, source), v.boxes[b].meta;
      && (Step(v, op).Ok? <==> |source| == m.virtualSize)
      && (Step(v, op).Err? ==> Step(v, op) == Err(SizeDiffers))
      && (Step(v, op).Ok? ==>
            && OnlyBox(v, After(v, op), b) && b in After(v, op).boxes && After(v, op).boxes[b].bytes == source
            && var now := After(v, op).boxes[b].meta;
               now.state == Ready && now.generation == Min(m.generation + 1, U64_MAX)
               && now.(state := m.state, generation := m.generation) == m)
  {
  }

  /** `delete`: the Box is gone, and everything else is as before. */
  lemma DeleteEffect(v: View, b: BoxId)
    requires Leasable(v, b)
    ensures var op := Delete(b);
      Step(v, op).Ok? && OnlyBox(v, After(v, op), b) && b !in After(v, op).boxes
  {
  }

  /** No other Box has the name an update asks for. */
  predicate UnnamedElsewhere(v: View, name: Option<string>, b: BoxId) {
    forall x :: x in v.boxes && x != b ==> !SameName(v.boxes[x].meta.name, name)
  }

  /** `update`: the name, each label and each tag; the disk and the other fields stay. */
  lemma UpdateEffect(v: View, b: BoxId, u: UpdateRequest)
    requires Leasable(v, b)
    ensures var op, m := UpdateBox(b, u), v.boxes[b].meta;
      && (Step(v, op).Ok? <==> ValidUpdate(u) && UnnamedElsewhere(v, u.name, b))
      && (!ValidUpdate(u) ==> Step(v, op) == Err(Invalid))
      && (ValidUpdate(u) && !UnnamedElsewhere(v, u.name, b) ==> Step(v, op) == Err(Conflict))
      && (Step(v, op).Ok? ==>
            && OnlyBox(v, After(v, op), b) && b in After(v, op).boxes && After(v, op).boxes[b].bytes == v.boxes[b].bytes
            && UpdatedFields(m, After(v, op).boxes[b].meta, u))
  {
    if Step(v, UpdateBox(b, u)).Ok? {
      UpdatedIs(v.boxes[b].meta, u);
    }
  }

  ghost predicate UpdatedFields(m: Metadata, now: Metadata, u: UpdateRequest) {
    && (u.clearName ==> now.name == None)
    && (!u.clearName && u.name.Some? ==> now.name == u.name)
    && (!u.clearName && u.name.None? ==> now.name == m.name)
    && (forall k :: k in u.setLabels ==> k in now.labels && now.labels[k] == u.setLabels[k])
    && (forall k :: k in m.labels && k !in u.removeLabels && k !in u.setLabels ==>
          k in now.labels && now.labels[k] == m.labels[k])
    && (forall k :: k in now.labels ==> k in u.setLabels || (k in m.labels && k !in u.removeLabels))
    && (forall t :: t in u.addTags || (t in m.tags && t !in u.removeTags) ==> t in now.tags)
    && (forall t :: t in now.tags ==> t in u.addTags || (t in m.tags && t !in u.removeTags))
    && now.(name := m.name, labels := m.labels, tags := m.tags) == m
  }

  lemma UpdatedIs(m: Metadata, u: UpdateRequest)
    ensures UpdatedFields(m, Updated(m, u), u)
  {
  }

  /** An update that contradicts itself is refused: a name given and cleared, a label or a tag both set and removed. */
  lemma ContradictoryUpdate(v: View, b: BoxId, u: UpdateRequest)
    requires || (u.name.Some? && u.clearName) || (exists k :: k in u.setLabels && k in u.removeLabels)
             || (exists t :: t in u.addTags && t in u.removeTags)
    ensures Step(v, UpdateBox(b, u)) == Err(Invalid)
  {
  }

  /** What a lease transition asks for: the state it expects and the one it sets. */
  predicate IsTransition(expected: BoxState, next: BoxState) {
    || (expected == Ready && next == Dirty) || (expected == Dirty && next == Ready)
    || (expected == Dirty && next == NeedsRepair)
  }

  lemma TransitionEffect(v: View, b: BoxId, expected: BoxState, next: BoxState)
    requires b in v.boxes
    ensures var op, m := Transition(b, expected, next), v.boxes[b].meta;
      && (Step(v, op).Ok? <==> m.state == expected && IsTransition(expected, next))
      && (Step(v, op).Err? ==> Step(v, op) == Err(WrongState))
      && (Step(v, op).Ok? ==>
            && OnlyBox(v, After(v, op), b) && b in After(v, op).boxes && After(v, op).boxes[b].bytes == v.boxes[b].bytes
            && After(v, op).boxes[b].meta.state == next && After(v, op).boxes[b].meta.(state := m.state) == m)
  {
  }

  /** Everything but one checkpoint is as before. */
  predicate OnlyCheckpoint(v: View, w: View, c: CheckpointId) {
    && w.boxes == v.boxes
    && (forall x :: x in v.checkpoints && x != c ==> x in w.checkpoints && w.checkpoints[x] == v.checkpoints[x])
    && forall x :: x in w.checkpoints && x != c ==> x in v.checkpoints
  }

  /** A checkpoint of a Ready Box: its bytes and provenance, with the name, labels and tags asked for. */
  lemma CheckpointEffect(v: View, c: CheckpointId, b: BoxId, s: SaveRequest)
    requires Leasable(v, b)
    ensures var op, m := Checkpoint(c, b, s), v.boxes[b].meta;
      && (Step(v, op).Ok? <==>
            ValidName(s.name) && ValidLabels(s.labels) && ValidTags(s.tags) && m.state == Ready && c !in v.checkpoints)
      && (ValidSave(s) && m.state != Ready ==> Step(v, op) == Err(SourceNotReady))
      && (Step(v, op).Ok? ==>
            && OnlyCheckpoint(v, After(v, op), c) && c in After(v, op).checkpoints
            && After(v, op).checkpoints[c].bytes == v.boxes[b].bytes
            && var now := After(v, op).checkpoints[c].meta;
               && now.sourceBox == b && now.sourceGeneration == m.generation && now.manifestDigest == m.manifestDigest
               && now.platform == m.platform && now.virtualSize == m.virtualSize
               && now.name == s.name && now.labels == s.labels && now.tags == s.tags)
  {
  }

  /** A fork: the bytes of the checkpoint, its provenance, and its labels and tags unless others are given. */
  lemma ForkEffect(v: View, id: BoxId, c: CheckpointId, f: ForkRequest)
    requires c in v.checkpoints
    ensures var op, s := Fork(id, c, f), v.checkpoints[c];
      var m := Fresh(s.meta.manifestDigest, s.meta.platform, s.meta.virtualSize, f.name,
                     match f.labels case Some(l) => l case None => s.meta.labels,
                     match f.tags case Some(t) => t case None => s.meta.tags);
      && (Step(v, op).Ok? <==>
            ValidFork(f) && ValidFields(m) && |s.bytes| == m.virtualSize && Unnamed(v, f.name) && id !in v.boxes)
      && (Step(v, op).Ok? ==> OnlyBox(v, After(v, op), id) && id in After(v, op).boxes
                              && After(v, op).boxes[id] == Entry(m, s.bytes))
  {
  }

  lemma DeleteCheckpointEffect(v: View, c: CheckpointId)
    requires c in v.checkpoints
    ensures var op := DeleteCheckpoint(c);
      Step(v, op).Ok? && OnlyCheckpoint(v, After(v, op), c) && c !in After(v, op).checkpoints
  {
  }

  /** The Box an operation starts from, if it needs one that exists. */
  function Source(op: Op): Option<BoxId> {
    match op
    case Clone(_, from) => Some(from)
    case Reset(b, _) => Some(b)
    case Delete(b) => Some(b)
    case UpdateBox(b, u) => if ValidUpdate(u) then Some(b) else None
    case Checkpoint(_, b, s) => if ValidSave(s) then Some(b) else None
    case _ => None
  }

  /** An operation on a Box that is missing or needs repair changes nothing and says so. */
  lemma UnleasableIsRefused(v: View, op: Op)
    requires Source(op).Some? && !Leasable(v, Source(op).value)
    requires op.UpdateBox? ==> UnnamedElsewhere(v, op.update.name, op.box)
    ensures Step(v, op) == Err(if Source(op).value in v.boxes then Repair else NotFound) && After(v, op) == v
  {
  }

  /** A guest's write needs a Dirty Box and a range inside its disk. */
  lemma WriteIff(v: View, b: BoxId, at: nat, data: seq<byte>)
    ensures Step(v, GuestWrite(b, at, data)).Ok?
      <==> b in v.boxes && v.boxes[b].meta.state == Dirty && at + |data| <= |v.boxes[b].bytes|
  {
  }
}
