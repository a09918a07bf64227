/** What a reconciliation reports: the kind of each issue by the files it is about, and how the counts add up. */
module CacheIssues {
  import opened Base
  import opened Digests
  import opened CacheModel
  import opened CacheReconcile

  /** The directory's name is a digest and a marker of it holds that digest. */
  ghost predicate Whole(c: Cache, name: string, d: Digest) {
    && name in c.roots && c.roots[name].directory && ParseDigest(name) == Some(d)
    && (c.roots[name].current == Some(Show(d)) || c.roots[name].legacy == Some(Show(d)))
  }

  /** The index entry of a digest is a file of the current schema that names the digest, with this usage. */
  predicate Indexes(c: Cache, d: Digest, usage: Usage) {
    JsonName(d) in c.index && c.index[JsonName(d)] == Indexed(Metadata(1, Show(d), usage))
  }

  /** The issue of a directory whose name is no digest, or that is not whole. */
  lemma BadDirectory(c: Cache, name: string)
    requires name in c.roots && c.roots[name].directory
    ensures ParseDigest(name).None? <==> IssueOf(c, name) == Some(Issue(InvalidRootfsName, name, None))
    ensures ParseDigest(name).Some? ==>
      (!Whole(c, name, ParseDigest(name).value) <==> IssueOf(c, name) == Some(Issue(IncompleteRootfs, name, None)))
  {
  }

  /** The issue of a whole directory is about its index entry: none, a bad one, an old one, or there is no issue. */
  lemma WholeDirectory(c: Cache, name: string, d: Digest)
    requires Whole(c, name, d)
    ensures var usage := c.roots[name].usage;
      && (JsonName(d) !in c.index <==> IssueOf(c, name) == Some(Issue(IndexMissing, name, Some(usage))))
      && (Indexes(c, d, usage) <==> IssueOf(c, name) == None)
      && ((exists u :: u != usage && Indexes(c, d, u)) <==>
            IssueOf(c, name) == Some(Issue(IndexStale, name, Some(usage))))
      && (JsonName(d) in c.index && (forall u :: !Indexes(c, d, u)) <==>
            IssueOf(c, name) == Some(Issue(IndexInvalid, name, Some(usage))))
  {
    if JsonName(d) in c.index && c.index[JsonName(d)].Indexed? {
      var m := c.index[JsonName(d)].value;
      assert m == Metadata(m.schema, m.manifest, m.usage);
      assert IndexOf(c, d).Current? <==> Indexes(c, d, m.usage);
    }
  }

  /** What is no directory has no issue. */
  lemma NoDirectory(c: Cache, name: string)
    requires name in c.roots ==> !c.roots[name].directory
    ensures IssueOf(c, name) == None
  {
  }

  // Counts.

  /** The directories that need a new index entry are those with an issue that comes with a scan. */
  lemma RepairIsScanned(c: Cache, name: string)
    ensures NeedsRepair(c, name) <==> IssueOf(c, name).Some? && IssueOf(c, name).value.scan.Some?
  {
  }

  function Scanned(issues: seq<Issue>): nat {
    if issues == [] then 0 else Scanned(issues[..|issues| - 1]) + if issues[|issues| - 1].scan.Some? then 1 else 0
  }

  lemma ScannedSnoc(issues: seq<Issue>, i: Issue)
    ensures Scanned(issues + [i]) == Scanned(issues) + if i.scan.Some? then 1 else 0
  {
    assert (issues + [i])[..|issues|] == issues;
  }

  /** The repairs a report asks for are exactly the issues it lists with a scan. */
  lemma {:induction false} RepairsAreReported(c: Cache, order: seq<string>)
    ensures Count(c, order, NeedsRepair) == Scanned(IssuesOf(c, order))
  {
    if order != [] {
      var n := |order| - 1;
      RepairsAreReported(c, order[..n]);
      RepairIsScanned(c, order[n]);
      match IssueOf(c, order[n])
      case Some(i) => ScannedSnoc(IssuesOf(c, order[..n]), i);
      case None => assert IssuesOf(c, order[..n]) + [] == IssuesOf(c, order[..n]);
    }
  }

  /** The report of a run, and what an applied one adds to that of a preview. */
  lemma ReportAddsUp(c: Cache, order: seq<string>)
    ensures var dry, wet := ReportOf(c, order, false), ReportOf(c, order, true);
      && dry.repairs == Scanned(dry.issues) && dry.written == 0 && dry.removed == 0 && !dry.applied && wet.applied
      && wet.checked == dry.checked && wet.repairs == dry.repairs && wet.removals == dry.removals
      && wet.issues == dry.issues && wet.orphans == dry.orphans && wet.written == wet.repairs
      && wet.removed <= wet.removals
  {
    RepairsAreReported(c, order);
    RemovedAtMost(c, order);
  }

  lemma {:induction false} RemovedAtMost(c: Cache, order: seq<string>)
    ensures RemovedFor(c, order) <= Count(c, order, NeedsRemoval)
  {
    if order != [] {
      RemovedAtMost(c, order[..|order| - 1]);
    }
  }

  /** The index entries that belong to no directory are those whose name is not that of a valid one's digest. */
  lemma OrphanIff(c: Cache, name: string, d: Digest)
    requires name in c.index && name == JsonName(d)
    ensures name in Orphans(c, c.index) <==>
      forall n :: n in c.roots && c.roots[n].directory ==> ParseDigest(n) != Some(d)
  {
    JsonNameBelongs(c, d);
  }

  /** The size counted for a rootfs: what its index entry says, if that is current, and else a walk. */
  lemma SizeCounted(c: Cache, name: string, usage: Usage)
    requires name in c.roots
    ensures ParseDigest(name).Some? && Indexes(c, ParseDigest(name).value, usage) ==> RootSize(c, name) == usage.logical
    ensures ParseDigest(name).None? || (forall u :: !Indexes(c, ParseDigest(name).value, u)) ==>
      RootSize(c, name) == c.roots[name].size
  {
    if ParseDigest(name).Some? && JsonName(ParseDigest(name).value) in c.index {
      var d := ParseDigest(name).value;
      if c.index[JsonName(d)].Indexed? {
        var m := c.index[JsonName(d)].value;
        assert m == Metadata(m.schema, m.manifest, m.usage);
        assert IndexOf(c, d).Current? <==> Indexes(c, d, m.usage);
      }
    }
  }
}
