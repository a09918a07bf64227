/** The operations of the image cache as the code runs them, proved against the specifications of each. */
module CacheStore {
  import opened Base
  import opened Digests
  import opened CacheModel
  import CachePrune
  import CacheRemove
  import CacheReconcile

  // Reading.

  /** `read_records`: the names of the listed records, or the error of one that cannot be read. */
  method ReadRecords(c: Cache) returns (r: Result<set<string>, CacheError>)
    ensures r.Ok? <==> RecordsReadable(c)
    ensures r.Ok? ==> r.value == set n | n in c.records && Listed(c, n)
    ensures r.Err? ==> exists n :: Listed(c, n) && ReadRecord(c.records[n]) == Err(r.error)
  {
    var todo, names := c.records.Keys, {};
    while todo != {}
      invariant todo <= c.records.Keys
      invariant names == set n | n in c.records && n !in todo && Listed(c, n)
      invariant forall n :: n in c.records && n !in todo && Listed(c, n) ==> ReadRecord(c.records[n]).Ok?
    {
      var n :| n in todo;
      if Listed(c, n) {
        var record := ReadRecord(c.records[n]);
        if record.Err? {
          return Err(record.error);
        }
        names := names + {n};
      }
      todo := todo - {n};
    }
    return Ok(names);
  }

  /** The digests of the ready entries of the rootfs directory. */
  method CollectReady(c: Cache) returns (ready: set<Digest>)
    ensures ready == CachePrune.ReadyDigests(c)
  {
    var todo := c.roots.Keys;
    ready := {};
    while todo != {}
      invariant todo <= c.roots.Keys
      invariant ready == set n | n in c.roots && n !in todo && Ready(c, n) :: ParseDigest(n).value
    {
      var n :| n in todo;
      if Ready(c, n) {
        ready := ready + {ParseDigest(n).value};
      }
      todo := todo - {n};
    }
  }

  /** The digests of a manifest's layers. */
  method ParseLayers(texts: seq<string>) returns (r: Option<set<Digest>>)
    ensures r == CachePrune.ParseAll(texts)
  {
    var digests: set<Digest> := {};
    for i := 0 to |texts|
      invariant CachePrune.ParseAll(texts[..i]) == Some(digests)
    {
      var d := ParseDigest(texts[i]);
      assert texts[..i + 1][..i] == texts[..i];
      if d.None? {
        ParseAllFails(texts, i + 1);
        return None;
      }
      digests := digests + {d.value};
    }
    assert texts[..|texts|] == texts;
    return Some(digests);
  }

  lemma {:induction false} ParseAllFails(texts: seq<string>, n: nat)
    requires n <= |texts| && CachePrune.ParseAll(texts[..n]).None?
    ensures CachePrune.ParseAll(texts).None?
    decreases |texts|
  {
    if n == |texts| {
      assert texts[..n] == texts;
    } else {
      assert texts[..|texts| - 1][..n] == texts[..n];
      ParseAllFails(texts[..|texts| - 1], n);
    }
  }

  method ReadManifest(env: Env, c: Cache, d: Digest) returns (r: Result<set<Digest>, CacheError>)
    ensures r == CachePrune.ManifestRefs(env, c, d)
  {
    if Hex(d) !in c.blobs {
      return Err(MissingManifest(d));
    }
    if c.blobs[Hex(d)].NotABlob? || env.sha(c.blobs[Hex(d)].bytes) != d {
      return Err(InvalidManifest(d));
    }
    var manifest := env.manifest(c.blobs[Hex(d)].bytes);
    if manifest.None? {
      return Err(JsonError);
    }
    var config := ParseDigest(manifest.value.config);
    if config.None? {
      return Err(InvalidDigest);
    }
    var layers := ParseLayers(manifest.value.layers);
    if layers.None? {
      return Err(InvalidDigest);
    }
    return Ok({d, config.value} + layers.value);
  }

  /** `reachable_blobs`: the union of what the manifests keep, or the error of one of them. */
  method ReachableBlobs(env: Env, c: Cache, manifests: set<Digest>) returns (r: Result<set<Digest>, CacheError>)
    ensures r.Ok? <==> forall d :: d in manifests ==> CachePrune.ManifestRefs(env, c, d).Ok?
    ensures r.Ok? ==> forall x :: x in r.value <==> exists d :: d in manifests && CachePrune.Keeps(env, c, d, x)
    ensures r.Err? ==> exists d :: d in manifests && CachePrune.ManifestRefs(env, c, d) == Err(r.error)
  {
    var todo, reachable: set<Digest> := manifests, {};
    while todo != {}
      invariant todo <= manifests
      invariant forall d :: d in manifests && d !in todo ==> CachePrune.ManifestRefs(env, c, d).Ok?
      invariant forall x ::
        x in reachable <==> exists d :: d in manifests && d !in todo && CachePrune.Keeps(env, c, d, x)
    {
      var d :| d in todo;
      var refs := ReadManifest(env, c, d);
      if refs.Err? {
        return Err(refs.error);
      }
      var before := todo;
      todo := todo - {d};
      forall x
        ensures x in reachable + refs.value
          <==> exists e :: e in manifests && e !in todo && CachePrune.Keeps(env, c, e, x)
      {
        assert x in refs.value ==> CachePrune.Keeps(env, c, d, x);
        assert forall e :: e in manifests && e !in todo ==> e == d || e !in before;
      }
      reachable := reachable + refs.value;
    }
    return Ok(reachable);
  }

  /** Removing files one by one. */
  method RemoveAll<V>(m: map<string, V>, names: set<string>) returns (r: map<string, V>)
    ensures r == m - names
  {
    r := m;
    var todo := names;
    while todo != {}
      invariant todo <= names && r == m - (names - todo)
    {
      var n :| n in todo;
      r := r - {n};
      todo := todo - {n};
    }
  }

  /** A sum that saturates at every addition. */
  method SumSizes(names: set<string>, size: Sizes) returns (total: nat)
    ensures total == Min(Total(names, size), U64_MAX)
  {
    total := 0;
    var todo := names;
    assert names - todo == {};
    while todo != {}
      invariant todo <= names && total == Min(Total(names - todo, size), U64_MAX)
    {
      var n :| n in todo;
      ghost var done := names - todo;
      todo := todo - {n};
      assert names - todo - {n} == done;
      TotalWithout(names - todo, size, n);
      total := SatAdd(total, size(n));
    }
    assert names - todo == names;
  }

  /** A plain sum. */
  method SumPlain(names: set<string>, size: Sizes) returns (total: nat)
    ensures total == Total(names, size)
  {
    total := 0;
    var todo := names;
    assert names - todo == {};
    while todo != {}
      invariant todo <= names && total == Total(names - todo, size)
    {
      var n :| n in todo;
      ghost var done := names - todo;
      todo := todo - {n};
      assert names - todo - {n} == done;
      TotalWithout(names - todo, size, n);
      total := total + size(n);
    }
    assert names - todo == names;
  }

  /** The rootfs of one digest that goes, if any. */
  lemma RootOfDigest(env: Env, c: Cache, order: seq<string>, target: CacheRemove.Target, d: Digest, n: string)
    ensures n in c.roots && EntryDigest(env, n) == d && CacheRemove.RootGoes(env, c, order, target, n)
      <==> CacheRemove.Dropped(c, target, d) && CacheRemove.FirstRoot(env, c, order, d) == Some(n)
  {
  }

  /** The root filesystems to remove: the first listed one of every affected digest that nothing else names. */
  method SelectRoots(env: Env, c: Cache, order: seq<string>, target: CacheRemove.Target, affected: set<Digest>)
    returns (roots: set<string>)
    requires forall d :: d in affected <==> CacheRemove.Affected(c, target, d)
    ensures roots == CacheRemove.RemovedRoots(env, c, order, target)
  {
    roots := {};
    var todo := affected;
    while todo != {}
      invariant todo <= affected
      invariant forall n :: n in roots <==>
        n in c.roots && EntryDigest(env, n) !in todo && CacheRemove.RootGoes(env, c, order, target, n)
    {
      var d :| d in todo;
      forall n ensures n in c.roots && EntryDigest(env, n) == d && CacheRemove.RootGoes(env, c, order, target, n)
        <==> CacheRemove.Dropped(c, target, d) && CacheRemove.FirstRoot(env, c, order, d) == Some(n)
      {
        RootOfDigest(env, c, order, target, d, n);
      }
      if target.ByDigest? || !CacheRemove.StillNamed(c, target, d) {
        var first := CacheRemove.FirstRoot(env, c, order, d);
        if first.Some? {
          roots := roots + {first.value};
        }
      }
      todo := todo - {d};
    }
  }

  /** A removal succeeds when its target parses, every listed record is valid and something matches. */
  predicate CanRemove(env: Env, c: Cache, order: seq<string>, text: string) {
    var target := CacheRemove.ParseTarget(text);
    target.Ok? && RecordsReadable(c) && !CacheRemove.NotFound(env, c, order, target.value)
  }

  datatype PruneReport = PruneReport(blobs: nat, roots: nat, records: nat, reclaimed: nat, applied: bool)

  datatype PrunePlan = PrunePlan(
    blobs: set<string>, roots: set<string>, index: set<string>, records: set<string>, staging: set<string>)

  ghost function PlanOf(env: Env, c: Cache): PrunePlan {
    PrunePlan(CachePrune.UnreachableBlobs(env, c), CachePrune.IncompleteRoots(c), CachePrune.IncompleteIndex(c),
              CachePrune.StaleRecords(c), CachePrune.AbandonedStaging(c))
  }

  /** The blob files that are not kept, found by a walk over the blob directory. */
  method CollectBlobs(env: Env, c: Cache, reachable: set<Digest>) returns (names: set<string>)
    requires forall x :: x in reachable <==> CachePrune.Reachable(env, c, x)
    ensures names == CachePrune.UnreachableBlobs(env, c)
  {
    names := {};
    var todo := c.blobs.Keys;
    while todo != {}
      invariant todo <= c.blobs.Keys
      invariant names == set n | n in c.blobs && n !in todo && CachePrune.Unreachable(env, c, n)
    {
      var n :| n in todo;
      if c.blobs[n].Blob? {
        var d := ParseDigest(n);
        if !(d.Some? && d.value in reachable) {
          names := names + {n};
        }
      }
      todo := todo - {n};
    }
  }

  method CollectStale(c: Cache, listed: set<string>, complete: set<Digest>) returns (names: set<string>)
    requires listed == set n | n in c.records && Listed(c, n)
    requires complete == CachePrune.ReadyDigests(c)
    ensures names == CachePrune.StaleRecords(c)
  {
    names := {};
    var todo := listed;
    while todo != {}
      invariant todo <= listed
      invariant names == set n | n in listed && n !in todo && CachePrune.Stale(c, n)
    {
      var n :| n in todo;
      if CachePrune.StaleFile(c.records[n], complete) {
        names := names + {n};
      }
      todo := todo - {n};
    }
  }

  /** Everything prune reads and decides before it removes anything. */
  method PlanPrune(env: Env, c: Cache) returns (r: Result<PrunePlan, CacheError>)
    ensures r.Ok? <==> CachePrune.PruneOk(env, c)
    ensures r.Ok? ==> r.value == PlanOf(env, c)
  {
    var complete := CollectReady(c);
    var reachable := ReachableBlobs(env, c, complete);
    if reachable.Err? {
      return Err(reachable.error);
    }
    var blobs := CollectBlobs(env, c, reachable.value);
    var listed := ReadRecords(c);
    if listed.Err? {
      return Err(listed.error);
    }
    var stale := CollectStale(c, listed.value, complete);
    var incomplete := set n | n in c.roots && c.roots[n].directory && !Ready(c, n);
    assert incomplete == CachePrune.IncompleteRoots(c);
    var index := set n | n in incomplete && ParseDigest(n).Some? :: JsonName(ParseDigest(n).value);
    var abandoned := set n | n in c.staging && c.staging[n].directory && CachePrune.IsStagingName(n);
    return Ok(PrunePlan(blobs, incomplete, index, stale, abandoned));
  }

  method ReclaimedBytes(ghost env: Env, c: Cache, plan: PrunePlan) returns (total: nat)
    requires plan == PlanOf(env, c)
    ensures total == CachePrune.Reclaimed(env, c)
  {
    var blobs := SumPlain(plan.blobs, BlobSizes(c));
    var roots := SumSizes(plan.roots, RootSizes(c));
    var records := SumPlain(plan.records, RecordSizes(c));
    var staging := SumSizes(plan.staging, StagingSizes(c));
    total := SatAdd(SatAdd(SatAdd(blobs, roots), records), staging);
  }

  datatype RemovePlan = RemovePlan(
    records: set<string>, roots: set<string>, index: set<string>, report: CacheRemove.RemoveReport)

  ghost function RemovalOf(env: Env, c: Cache, order: seq<string>, target: CacheRemove.Target, apply: bool)
    : RemovePlan
  {
    RemovePlan(CacheRemove.RemovedRecords(c, target), CacheRemove.RemovedRoots(env, c, order, target),
               CacheRemove.RemovedIndex(env, c, order, target), CacheRemove.ReportOf(env, c, order, target, apply))
  }

  method AffectedDigests(c: Cache, target: CacheRemove.Target, removed: set<string>) returns (affected: set<Digest>)
    requires removed == CacheRemove.RemovedRecords(c, target)
    ensures forall d :: d in affected <==> CacheRemove.Affected(c, target, d)
  {
    if target.ByDigest? {
      return {target.digest};
    }
    affected := {};
    var todo := removed;
    while todo != {}
      invariant todo <= removed
      invariant forall d :: d in affected <==> exists n :: n in removed && n !in todo && Names(c, n, d)
    {
      var n :| n in todo;
      ReadRecordHasManifest(c.records[n]);
      var digest := ManifestOf(ReadRecord(c.records[n]).value);
      assert Names(c, n, digest);
      ghost var before := todo;
      todo := todo - {n};
      assert forall m :: m in removed && m !in todo ==> m == n || m !in before;
      affected := affected + {digest};
    }
  }

  method SelectRecords(c: Cache, target: CacheRemove.Target) returns (r: Result<set<string>, CacheError>)
    ensures r.Ok? <==> RecordsReadable(c)
    ensures r.Ok? ==> r.value == CacheRemove.RemovedRecords(c, target)
  {
    var listed := ReadRecords(c);
    if listed.Err? {
      return Err(listed.error);
    }
    return Ok(set n | n in listed.value && CacheRemove.Matches(c, target, n));
  }

  /** Everything a removal reads and decides, and its report, before it removes anything. */
  method PlanRemoval(env: Env, c: Cache, order: seq<string>, target: CacheRemove.Target, apply: bool)
    returns (r: Result<RemovePlan, CacheError>)
    ensures r.Ok? <==> RecordsReadable(c) && !CacheRemove.NotFound(env, c, order, target)
    ensures r.Ok? ==> r.value == RemovalOf(env, c, order, target, apply)
    ensures r.Err? && RecordsReadable(c) ==> r.error == TargetNotFound
  {
    var selected := SelectRecords(c, target);
    if selected.Err? {
      return Err(selected.error);
    }
    var removed := selected.value;
    if removed == {} && (target.ByReference? || CacheRemove.FirstRoot(env, c, order, target.digest).None?) {
      return Err(TargetNotFound);
    }
    var affected := AffectedDigests(c, target, removed);
    var roots := SelectRoots(env, c, order, target, affected);
    var reclaimed := SumSizes(roots, RootSizes(c));
    var report := CacheRemove.RemoveReport(CacheRemove.RemovedReferences(c, target), roots, reclaimed, apply);
    return Ok(RemovePlan(removed, roots, CacheRemove.RemovedIndex(env, c, order, target), report));
  }

  class ImageCache {
    const env: Env
    var records: map<string, RecordFile>
    var roots: map<string, Rootfs>
    var index: map<string, IndexFile>
    var blobs: map<string, BlobFile>
    var staging: map<string, Staging>
    var default: DefaultFile

    function State(): Cache
      reads this
    {
      Cache(records, roots, index, blobs, staging, default)
    }

    method Prune(apply: bool) returns (r: Result<PruneReport, CacheError>)
      modifies this
      ensures r.Ok? <==> CachePrune.PruneOk(env, old(State()))
      ensures State() == if r.Ok? && apply then CachePrune.Pruned(env, old(State())) else old(State())
      ensures r.Ok? ==>
        var plan := PlanOf(env, old(State()));
        r.value == PruneReport(|plan.blobs|, |plan.roots| + |plan.staging|, |plan.records|,
                               CachePrune.Reclaimed(env, old(State())), apply)
    {
      var result := PlanPrune(env, State());
      if result.Err? {
        return Err(result.error);
      }
      var plan := result.value;
      var reclaimed := ReclaimedBytes(env, State(), plan);
      if apply {
        blobs := RemoveAll(blobs, plan.blobs);
        roots := RemoveAll(roots, plan.roots);
        index := RemoveAll(index, plan.index);
        records := RemoveAll(records, plan.records);
        staging := RemoveAll(staging, plan.staging);
      }
      return Ok(PruneReport(|plan.blobs|, |plan.roots| + |plan.staging|, |plan.records|, reclaimed, apply));
    }

    method Remove(text: string, order: seq<string>, apply: bool)
        returns (r: Result<CacheRemove.RemoveReport, CacheError>)
      requires CacheRemove.Lists(order, roots.Keys)
      modifies this
      ensures r.Ok? <==> CanRemove(env, old(State()), order, text)
      ensures State() ==
        if r.Ok? && apply then CacheRemove.Removed(env, old(State()), order, CacheRemove.ParseTarget(text).value)
        else old(State())
      ensures r.Ok? ==>
        r.value == CacheRemove.ReportOf(env, old(State()), order, CacheRemove.ParseTarget(text).value, apply)
    {
      var target := CacheRemove.ParseTarget(text);
      if target.Err? {
        return Err(target.error);
      }
      var result := PlanRemoval(env, State(), order, target.value, apply);
      if result.Err? {
        return Err(result.error);
      }
      if apply {
        records := RemoveAll(records, result.value.records);
        roots := RemoveAll(roots, result.value.roots);
        index := RemoveAll(index, result.value.index);
      }
      return Ok(result.value.report);
    }

    /** One directory of a reconciliation: the index is written or cleared if it must be and may be. */
    method ReconcileRoot(c: Cache, name: string, apply: bool) returns (repair: bool, removal: bool, removed: bool)
      modifies this`index
      ensures repair == CacheReconcile.NeedsRepair(c, name) && removal == CacheReconcile.NeedsRemoval(c, name)
      ensures index == if apply then CacheReconcile.Reindexed(c, old(index), name) else old(index)
      ensures removed <==> apply && removal && JsonName(ParseDigest(name).value) in old(index)
    {
      repair, removal, removed := false, false, false;
      if Ready(c, name) {
        var d := ParseDigest(name).value;
        var actual := CacheReconcile.Scan(d, c.roots[name].usage);
        repair := IndexOf(c, d) != Current(actual);
        if repair && apply {
          index := index[JsonName(d) := Indexed(actual)];
        }
      } else if Valid(c, name) && IndexOf(c, ParseDigest(name).value) != Missing {
        removal := true;
        var entry := JsonName(ParseDigest(name).value);
        if apply && entry in index {
          index := index - {entry};
          removed := true;
        }
      }
    }

    /** The walk over the rootfs directory. */
    method ReconcileRoots(c: Cache, order: seq<string>, apply: bool)
      returns (checked: nat, repairs: nat, removals: nat, removed: nat, issues: seq<CacheReconcile.Issue>)
      requires index == c.index
      modifies this`index
      ensures checked == CacheReconcile.Count(c, order, Ready)
      ensures repairs == CacheReconcile.Count(c, order, CacheReconcile.NeedsRepair)
      ensures removals == CacheReconcile.Count(c, order, CacheReconcile.NeedsRemoval)
      ensures removed == if apply then CacheReconcile.RemovedFor(c, order) else 0
      ensures issues == CacheReconcile.IssuesOf(c, order)
      ensures index == if apply then CacheReconcile.ReindexedAll(c, order) else c.index
    {
      checked, repairs, removals, removed, issues := 0, 0, 0, 0, [];
      for i := 0 to |order|
        invariant checked == CacheReconcile.Count(c, order[..i], Ready)
        invariant repairs == CacheReconcile.Count(c, order[..i], CacheReconcile.NeedsRepair)
        invariant removals == CacheReconcile.Count(c, order[..i], CacheReconcile.NeedsRemoval)
        invariant removed == if apply then CacheReconcile.RemovedFor(c, order[..i]) else 0
        invariant issues == CacheReconcile.IssuesOf(c, order[..i])
        invariant index == if apply then CacheReconcile.ReindexedAll(c, order[..i]) else c.index
      {
        var name := order[i];
        assert order[..i + 1][..i] == order[..i];
        var issue := CacheReconcile.IssueOf(c, name);
        issues := issues + if issue.Some? then [issue.value] else [];
        var repair, removal, gone := ReconcileRoot(c, name, apply);
        checked := checked + if Ready(c, name) then 1 else 0;
        repairs := repairs + if repair then 1 else 0;
        removals := removals + if removal then 1 else 0;
        removed := removed + if gone then 1 else 0;
      }
      assert order[..|order|] == order;
    }

    method Reconcile(order: seq<string>, apply: bool) returns (report: CacheReconcile.ReconcileReport)
      requires CacheRemove.Lists(order, roots.Keys)
      modifies this`index
      ensures report == CacheReconcile.ReportOf(old(State()), order, apply)
      ensures State() == if apply then CacheReconcile.Reconciled(old(State()), order) else old(State())
    {
      var c := State();
      var checked, repairs, removals, removed, issues := ReconcileRoots(c, order, apply);
      CacheReconcile.SameOrphans(c, order);
      var orphans := CollectOrphans(c, index);
      if apply {
        index := RemoveAll(index, orphans);
        removed := removed + |orphans|;
      }
      report := CacheReconcile.ReconcileReport(
        checked, repairs, removals + |orphans|, if apply then repairs else 0, removed, issues, orphans, apply);
    }
  }

  /** The index entries of no listed directory, found by a walk over the index directory. */
  method CollectOrphans(c: Cache, index: map<string, IndexFile>) returns (orphans: set<string>)
    ensures orphans == CacheReconcile.Orphans(c, index)
  {
    orphans := {};
    var todo := index.Keys;
    while todo != {}
      invariant todo <= index.Keys
      invariant orphans == set n | n in index && n !in todo && !CacheReconcile.Belongs(c, n)
    {
      var n :| n in todo;
      if !CacheReconcile.Belongs(c, n) {
        orphans := orphans + {n};
      }
      todo := todo - {n};
    }
  }
}
