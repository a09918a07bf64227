/** The size index of the root filesystems: what a reconciliation repairs, and when a second one has nothing to do. */
module CacheReconcile {
  import opened Base
  import opened Digests
  import opened Reference
  import opened CacheModel
  import opened CacheRemove

  datatype IssueKind = IndexMissing | IndexInvalid | IndexStale | IncompleteRootfs | InvalidRootfsName

  /** An issue with a listed directory: its kind, the directory, and a fresh scan if one was made. */
  datatype Issue = Issue(kind: IssueKind, root: string, scan: Option<Usage>)

  datatype ReconcileReport = ReconcileReport(
    checked: nat, repairs: nat, removals: nat, written: nat, removed: nat,
    issues: seq<Issue>, orphans: set<string>, applied: bool)

  /** The index entry a ready rootfs should have. */
  function Scan(d: Digest, usage: Usage): Metadata { Metadata(SCHEMA, Show(d), usage) }

  // One listed directory.

  /** What the run finds about one entry of the rootfs directory. */
  function IssueOf(c: Cache, name: string): Option<Issue> {
    if name !in c.roots || !c.roots[name].directory then None
    else if ParseDigest(name).None? then Some(Issue(InvalidRootfsName, name, None))
    else if !Ready(c, name) then Some(Issue(IncompleteRootfs, name, None))
    else
      var d, usage := ParseDigest(name).value, c.roots[name].usage;
      match IndexOf(c, d)
      case Missing => Some(Issue(IndexMissing, name, Some(usage)))
      case Mangled => Some(Issue(IndexInvalid, name, Some(usage)))
      case Current(m) => if m != Scan(d, usage) then Some(Issue(IndexStale, name, Some(usage))) else None
  }

  predicate NeedsRepair(c: Cache, name: string) {
    Ready(c, name) && IndexOf(c, ParseDigest(name).value) != Current(Scan(ParseDigest(name).value, c.roots[name].usage))
  }

  predicate NeedsRemoval(c: Cache, name: string) {
    Valid(c, name) && !Ready(c, name) && IndexOf(c, ParseDigest(name).value) != Missing
  }

  /** The index after one directory has been dealt with; what is needed was read before the run. */
  function Reindexed(c: Cache, index: map<string, IndexFile>, name: string): map<string, IndexFile> {
    if NeedsRepair(c, name) then
      var d := ParseDigest(name).value;
      index[JsonName(d) := Indexed(Scan(d, c.roots[name].usage))]
    else if NeedsRemoval(c, name) then index - {JsonName(ParseDigest(name).value)}
    else index
  }

  function ReindexedAll(c: Cache, order: seq<string>): map<string, IndexFile> {
    if order == [] then c.index else Reindexed(c, ReindexedAll(c, order[..|order| - 1]), order[|order| - 1])
  }

  // The whole run.

  /** `file_stem`: the name without its last extension. */
  function Stem(name: string): string {
    var dot := RFind(name, '.');
    if dot.None? || dot.value == 0 then name else name[..dot.value]
  }

  predicate Belongs(c: Cache, name: string) {
    && ParseDigest(Stem(name)).Some?
    && exists n :: n in c.roots && Valid(c, n) && ParseDigest(n) == ParseDigest(Stem(name))
  }

  function Orphans(c: Cache, index: map<string, IndexFile>): set<string> {
    set n | n in index && !Belongs(c, n)
  }

  /** The cache after an applied reconciliation. */
  function Reconciled(c: Cache, order: seq<string>): Cache {
    var index := ReindexedAll(c, order);
    c.(index := index - Orphans(c, index))
  }

  function IssuesOf(c: Cache, order: seq<string>): seq<Issue> {
    if order == [] then []
    else
      var n := |order| - 1;
      IssuesOf(c, order[..n]) + match IssueOf(c, order[n]) case Some(i) => [i] case None => []
  }

  function Count(c: Cache, order: seq<string>, p: (Cache, string) -> bool): nat {
    if order == [] then 0 else Count(c, order[..|order| - 1], p) + if p(c, order[|order| - 1]) then 1 else 0
  }

  /** How many index entries are removed for incomplete root filesystems: a second one of a digest finds nothing. */
  function RemovedFor(c: Cache, order: seq<string>): nat {
    if order == [] then 0
    else
      var n := |order| - 1;
      var removes := NeedsRemoval(c, order[n]) && JsonName(ParseDigest(order[n]).value) in ReindexedAll(c, order[..n]);
      RemovedFor(c, order[..n]) + if removes then 1 else 0
  }

  /** The report: issues and required counts do not depend on whether the run is applied. */
  function ReportOf(c: Cache, order: seq<string>, apply: bool): ReconcileReport {
    var repairs, orphans := Count(c, order, NeedsRepair), Orphans(c, c.index);
    ReconcileReport(
      Count(c, order, Ready), repairs, Count(c, order, NeedsRemoval) + |orphans|,
      if apply then repairs else 0, if apply then RemovedFor(c, order) + |orphans| else 0,
      IssuesOf(c, order), orphans, apply)
  }

  // Orphans are the same before and after the directories are dealt with.

  lemma JsonNameBelongs(c: Cache, d: Digest)
    ensures ParseDigest(Stem(JsonName(d))) == Some(d)
    ensures Belongs(c, JsonName(d)) <==> exists n :: n in c.roots && Valid(c, n) && ParseDigest(n) == Some(d)
  {
    var name := JsonName(d);
    assert name == Hex(d) + ['.'] + "json";
    RFindIs(Hex(d), '.', "json");
    assert name[..64] == Hex(d);
    DigestRoundTrip(d);
  }

  lemma ReindexedKeepsOrphans(c: Cache, index: map<string, IndexFile>, name: string)
    ensures Orphans(c, Reindexed(c, index, name)) == Orphans(c, index)
  {
    if Valid(c, name) {
      JsonNameBelongs(c, ParseDigest(name).value);
      assert Belongs(c, JsonName(ParseDigest(name).value));
    }
  }

  lemma {:induction false} SameOrphans(c: Cache, order: seq<string>)
    ensures Orphans(c, ReindexedAll(c, order)) == Orphans(c, c.index)
  {
    if order != [] {
      SameOrphans(c, order[..|order| - 1]);
      ReindexedKeepsOrphans(c, ReindexedAll(c, order[..|order| - 1]), order[|order| - 1]);
    }
  }

  // The fixpoint.

  /** Two directories of one digest ask for the same index entry. */
  predicate Agree(c: Cache, a: string, b: string) {
    Ready(c, a) == Ready(c, b) && (Ready(c, a) ==> c.roots[a].usage == c.roots[b].usage)
  }

  ghost predicate Consistent(c: Cache) {
    forall a, b :: Valid(c, a) && Valid(c, b) && ParseDigest(a) == ParseDigest(b) ==> Agree(c, a, b)
  }

  /** The index holds for a directory exactly what it should. */
  predicate Served(c: Cache, index: map<string, IndexFile>, name: string) {
    Valid(c, name) ==>
      var d := ParseDigest(name).value;
      if Ready(c, name) then JsonName(d) in index && index[JsonName(d)] == Indexed(Scan(d, c.roots[name].usage))
      else JsonName(d) !in index
  }

  lemma ServedMeansNothingNeeded(c: Cache, index: map<string, IndexFile>, name: string)
    ensures Served(c, index, name)
      <==> !NeedsRepair(c.(index := index), name) && !NeedsRemoval(c.(index := index), name)
  {
  }

  lemma ReindexServes(c: Cache, index: map<string, IndexFile>, name: string)
    requires Valid(c, name) ==>
      (JsonName(ParseDigest(name).value) in index <==> JsonName(ParseDigest(name).value) in c.index)
    requires Valid(c, name) && JsonName(ParseDigest(name).value) in index ==>
      index[JsonName(ParseDigest(name).value)] == c.index[JsonName(ParseDigest(name).value)]
    ensures Served(c, Reindexed(c, index, name), name)
  {
    ServedMeansNothingNeeded(c, c.index, name);
    assert c.(index := c.index) == c;
  }

  /** Dealing with a directory does not spoil another one, of another digest or in agreement with it. */
  lemma ReindexKeepsServed(c: Cache, index: map<string, IndexFile>, done: string, name: string)
    requires Served(c, index, done) && Valid(c, done)
    requires Valid(c, name) && ParseDigest(name) == ParseDigest(done) ==> Agree(c, done, name)
    ensures Served(c, Reindexed(c, index, name), done)
  {
    if Valid(c, name) && ParseDigest(name) != ParseDigest(done) {
      var a, b := ParseDigest(name).value, ParseDigest(done).value;
      if JsonName(a) == JsonName(b) {
        JsonNameInjective(a, b);
        assert false;
      }
    }
  }

  /** The entry of a digest no dealt-with directory has is the one found at the start. */
  lemma {:induction false} Untouched(c: Cache, order: seq<string>, d: Digest)
    requires forall n :: n in order && Valid(c, n) ==> ParseDigest(n) != Some(d)
    ensures JsonName(d) in ReindexedAll(c, order) <==> JsonName(d) in c.index
    ensures JsonName(d) in c.index ==> ReindexedAll(c, order)[JsonName(d)] == c.index[JsonName(d)]
  {
    if order != [] {
      var rest, name := order[..|order| - 1], order[|order| - 1];
      Untouched(c, rest, d);
      if Valid(c, name) {
        var e := ParseDigest(name).value;
        assert JsonName(e) != JsonName(d) by {
          if JsonName(e) == JsonName(d) { JsonNameInjective(e, d); }
        }
      }
    }
  }

  lemma {:induction false} AllServed(c: Cache, order: seq<string>, name: string)
    requires Consistent(c) && name in order && Valid(c, name)
    ensures Served(c, ReindexedAll(c, order), name)
  {
    var rest, last := order[..|order| - 1], order[|order| - 1];
    var d := ParseDigest(name).value;
    assert order == rest + [last];
    if n :| n in rest && Valid(c, n) && ParseDigest(n) == Some(d) {
      AllServed(c, rest, n);
      ReindexKeepsServed(c, ReindexedAll(c, rest), n, last);
      assert Agree(c, n, name);
    } else {
      assert last == name;
      Untouched(c, rest, d);
      ReindexServes(c, ReindexedAll(c, rest), last);
    }
  }

  /** Nothing is left to do in a cache. */
  ghost predicate Settled(c: Cache) {
    && (forall n :: !NeedsRepair(c, n) && !NeedsRemoval(c, n))
    && Orphans(c, c.index) == {}
  }

  lemma OrphansGone(c: Cache, order: seq<string>)
    ensures Orphans(Reconciled(c, order), Reconciled(c, order).index) == {}
  {
    var r := Reconciled(c, order);
    forall n ensures Belongs(r, n) <==> Belongs(c, n) {
      assert forall m :: Valid(r, m) <==> Valid(c, m);
    }
  }

  lemma DroppingOrphansServes(c: Cache, index: map<string, IndexFile>, name: string)
    requires Valid(c, name)
    ensures Served(c, index - Orphans(c, index), name) <==> Served(c, index, name)
  {
    JsonNameBelongs(c, ParseDigest(name).value);
  }

  /** Disagreeing directories can never both be served. */
  lemma Disagreement(c: Cache, index: map<string, IndexFile>, a: string, b: string)
    requires Valid(c, a) && Valid(c, b) && ParseDigest(a) == ParseDigest(b) && !Agree(c, a, b)
    ensures !Served(c, index, a) || !Served(c, index, b)
  {
  }

  lemma NeededAfter(c: Cache, order: seq<string>, name: string)
    ensures Valid(c, name) ==>
      (Served(c, Reconciled(c, order).index, name) <==>
       !NeedsRepair(Reconciled(c, order), name) && !NeedsRemoval(Reconciled(c, order), name))
    ensures !Valid(c, name) ==> !NeedsRepair(Reconciled(c, order), name) && !NeedsRemoval(Reconciled(c, order), name)
  {
    ServedMeansNothingNeeded(c, Reconciled(c, order).index, name);
    assert Reconciled(c, order) == c.(index := Reconciled(c, order).index);
  }

  /** After an applied run a second one has nothing to do, exactly when directories of one digest agree. */
  lemma ReconcileFixpoint(c: Cache, order: seq<string>)
    requires Lists(order, c.roots.Keys)
    ensures Settled(Reconciled(c, order)) <==> Consistent(c)
  {
    var r := Reconciled(c, order);
    OrphansGone(c, order);
    if Consistent(c) {
      forall n ensures !NeedsRepair(r, n) && !NeedsRemoval(r, n) {
        NeededAfter(c, order, n);
        if Valid(c, n) {
          AllServed(c, order, n);
          DroppingOrphansServes(c, ReindexedAll(c, order), n);
        }
      }
    } else {
      var a, b :| Valid(c, a) && Valid(c, b) && ParseDigest(a) == ParseDigest(b) && !Agree(c, a, b);
      Disagreement(c, r.index, a, b);
      NeededAfter(c, order, a);
      NeededAfter(c, order, b);
    }
  }

  /** What the applied run leaves in the index: a fresh scan for a ready rootfs, nothing for any other digest. */
  lemma IndexAgreesWithScan(c: Cache, order: seq<string>, d: Digest)
    requires Lists(order, c.roots.Keys) && Consistent(c)
    ensures forall n :: Ready(c, n) && ParseDigest(n) == Some(d) ==>
      IndexOf(Reconciled(c, order), d) == Current(Scan(d, c.roots[n].usage))
    ensures (forall n :: Valid(c, n) && ParseDigest(n) == Some(d) ==> !Ready(c, n)) ==>
      IndexOf(Reconciled(c, order), d) == Missing
  {
    var r := Reconciled(c, order);
    forall n | Valid(c, n) && ParseDigest(n) == Some(d) ensures Served(c, r.index, n) {
      AllServed(c, order, n);
      DroppingOrphansServes(c, ReindexedAll(c, order), n);
    }
    if !exists n :: Valid(c, n) && ParseDigest(n) == Some(d) {
      JsonNameBelongs(c, d);
    }
  }

  /** A settled cache is reported as such, and a run over it changes nothing. */
  lemma {:induction false} SettledRun(c: Cache, order: seq<string>)
    requires Settled(c)
    ensures ReindexedAll(c, order) == c.index && Reconciled(c, order) == c
    ensures Count(c, order, NeedsRepair) == 0 && Count(c, order, NeedsRemoval) == 0
  {
    if order == [] {
      assert c.index - {} == c.index;
    } else {
      SettledRun(c, order[..|order| - 1]);
    }
  }

  /** Two directories can share a digest: one named by its bare text, one with the algorithm in front. */
  lemma TwoNamesOfOneDigest(d: Digest, a: Usage, b: Usage, order: seq<string>)
    requires a != b && Lists(order, {Hex(d), Show(d)})
    ensures
      var marker := Some(Show(d));
      var roots := map[Hex(d) := Rootfs(true, marker, None, a, 0), Show(d) := Rootfs(true, marker, None, b, 0)];
      var c := Cache(map[], roots, map[], map[], map[], NoDefault);
      !Settled(Reconciled(c, order))
  {
    var marker := Some(Show(d));
    assert |Hex(d)| == 64 && |Show(d)| == 71;
    var roots := map[Hex(d) := Rootfs(true, marker, None, a, 0), Show(d) := Rootfs(true, marker, None, b, 0)];
    var c := Cache(map[], roots, map[], map[], map[], NoDefault);
    DigestRoundTrip(d);
    assert c.roots.Keys == {Hex(d), Show(d)};
    assert Valid(c, Hex(d)) && Valid(c, Show(d)) && !Agree(c, Hex(d), Show(d));
    ReconcileFixpoint(c, order);
  }
}
