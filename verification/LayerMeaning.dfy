/**
 What a whole layer means, change by change, and the methods that apply a layer in place.
 */
module LayerMeaning {
  import opened Base
  import opened Layer

  function AppliedAll(fs: Fs, es: seq<Entry>): Result<Fs, LayerError>
    decreases |es|
  {
    if es == [] then Ok(fs) else
      match AppliedAll(fs, es[..|es| - 1])
      case Err(e) => Err(e)
      case Ok(t) => Applied(t, es[|es| - 1])
  }

  function Changes(es: seq<Entry>): (cs: seq<Change>)
    ensures |cs| == |es|
  {
    seq(|es|, i requires 0 <= i < |es| => ChangeOf(es[i]))
  }

  /** What a path shows after a list of changes: the verdict of the last, on what was there before. */
  function Meaning(lower: Fs, cs: seq<Change>, q: Path): Shown
    decreases |cs|
  {
    if cs == [] then Show(lower, q) else
      var c, before := cs[|cs| - 1], cs[..|cs| - 1];
      Verdict(c, q, Meaning(lower, before, q), Meaning(lower, before, SourceOf(c)))
  }

  lemma AppliedSnoc(fs: Fs, es: seq<Entry>)
    requires es != [] && AppliedAll(fs, es).Ok?
    ensures var before := AppliedAll(fs, es[..|es| - 1]);
      before.Ok? && Applied(before.value, es[|es| - 1]) == AppliedAll(fs, es)
  {
  }

  lemma MeaningSnoc(lower: Fs, es: seq<Entry>, q: Path)
    requires es != []
    ensures var before, c := Changes(es[..|es| - 1]), ChangeOf(es[|es| - 1]);
      Meaning(lower, Changes(es), q) == Verdict(c, q, Meaning(lower, before, q), Meaning(lower, before, SourceOf(c)))
  {
    assert Changes(es)[..|es| - 1] == Changes(es[..|es| - 1]);
  }

  /** Every layer that applies successfully has that meaning, hard links counting as copies. */
  lemma {:induction false} LayerHasMeaning(fs: Fs, es: seq<Entry>, q: Path)
    requires WellFormed(fs) && AppliedAll(fs, es).Ok?
    ensures WellFormed(AppliedAll(fs, es).value) && fs.inodes <= AppliedAll(fs, es).value.inodes
    ensures Show(AppliedAll(fs, es).value, q) == Meaning(fs, Changes(es), q)
    decreases |es|
  {
    if es != [] {
      var e, before := es[|es| - 1], es[..|es| - 1];
      AppliedSnoc(fs, es);
      LayerHasMeaning(fs, before, q);
      LayerHasMeaning(fs, before, SourceOf(ChangeOf(e)));
      EntryMeaning(AppliedAll(fs, before).value, e, q);
      MeaningSnoc(fs, es, q);
    }
  }

  // The methods that apply a layer in place, and their budget.

  datatype Limits = Limits(maxExpanded: nat, maxFile: nat, maxEntries: nat)

  function FileBytes(es: seq<Entry>): nat {
    if es == [] then 0 else
      FileBytes(es[..|es| - 1]) + if es[|es| - 1].kind.Regular? then es[|es| - 1].size else 0
  }

  lemma OneMoreEntry(fs: Fs, es: seq<Entry>, i: nat)
    requires i < |es|
    ensures AppliedAll(fs, es[..i]).Ok? ==> AppliedAll(fs, es[..i + 1]) == Applied(AppliedAll(fs, es[..i]).value, es[i])
    ensures FileBytes(es[..i + 1]) == FileBytes(es[..i]) + if es[i].kind.Regular? then es[i].size else 0
  {
    assert es[..i + 1][..i] == es[..i];
  }

  /** A limit refuses the entry, after so many bytes and entries. */
  predicate Exceeds(limits: Limits, expanded: nat, entries: nat, e: Entry) {
    || entries + 1 > limits.maxEntries
    || (e.kind.Regular? && (e.size > limits.maxFile || SatAdd(expanded, e.size) > limits.maxExpanded))
  }

  /** All entries together are within the limits. */
  predicate Fits(limits: Limits, expanded: nat, entries: nat, es: seq<Entry>) {
    && entries + |es| <= limits.maxEntries
    && SatAdd(expanded, FileBytes(es)) <= limits.maxExpanded
    && forall i :: 0 <= i < |es| && es[i].kind.Regular? ==> es[i].size <= limits.maxFile
  }

  /** Entries fit together exactly when none is refused in its turn. */
  lemma FitsOneMore(limits: Limits, expanded: nat, entries: nat, es: seq<Entry>, i: nat)
    requires i < |es| && Fits(limits, expanded, entries, es[..i])
    ensures Fits(limits, expanded, entries, es[..i + 1])
      <==> !Exceeds(limits, SatAdd(expanded, FileBytes(es[..i])), entries + i, es[i])
  {
    OneMoreEntry(Fs(map[], []), es, i);
    var more := es[..i + 1];
    assert forall k :: 0 <= k < |more| ==> more[k] == es[k];
    assert forall k :: 0 <= k < i ==> es[..i][k] == more[k];
    assert more[i] == es[i];
  }

  /** What holds of all entries holds of the first of them. */
  lemma {:induction false} FirstEntries(fs: Fs, limits: Limits, expanded: nat, entries: nat, es: seq<Entry>, i: nat)
    requires i <= |es|
    ensures AppliedAll(fs, es).Ok? ==> AppliedAll(fs, es[..i]).Ok?
    ensures FileBytes(es[..i]) <= FileBytes(es)
    ensures Fits(limits, expanded, entries, es) ==> Fits(limits, expanded, entries, es[..i])
    decreases |es|
  {
    if i < |es| {
      var before := es[..|es| - 1];
      FirstEntries(fs, limits, expanded, entries, before, i);
      assert before[..i] == es[..i];
    } else {
      assert es[..i] == es;
    }
  }

  class Budget {
    const limits: Limits
    var expanded: nat
    var entries: nat

    ghost predicate Valid()
      reads this
    {
      && limits.maxExpanded <= U64_MAX && limits.maxEntries <= U64_MAX
      && expanded <= limits.maxExpanded && entries <= limits.maxEntries
    }

    constructor (limits: Limits)
      requires limits.maxExpanded <= U64_MAX && limits.maxEntries <= U64_MAX
      ensures Valid() && this.limits == limits && expanded == 0 && entries == 0
    {
      this.limits := limits;
      expanded, entries := 0, 0;
    }

    /** Counts an entry, and the size of a file, unless a limit would be passed. */
    method Charge(e: Entry) returns (r: Result<(), LayerError>)
      requires Valid() && e.size <= U64_MAX
      modifies this
      ensures r.Ok? ==> Valid() && entries == old(entries) + 1
      ensures r.Ok? ==> expanded == SatAdd(old(expanded), if e.kind.Regular? then e.size else 0)
      ensures r.Ok? && e.kind.Regular? ==> e.size <= limits.maxFile
      ensures r.Err? <==> Exceeds(limits, old(expanded), old(entries), e)
    {
      if entries + 1 > U64_MAX {
        return Err(EntryLimit);
      }
      entries := entries + 1;
      if entries > limits.maxEntries {
        return Err(EntryLimit);
      }
      if !e.kind.Regular? {
        return Ok(());
      }
      if e.size > limits.maxFile {
        return Err(FileSizeLimit);
      }
      var attempted := SatAdd(expanded, e.size);
      if attempted > limits.maxExpanded {
        return Err(ExpandedLimit);
      }
      expanded := attempted;
      r := Ok(());
    }
  }

  /** A root filesystem being built. */
  class Rootfs {
    var fs: Fs

    constructor ()
      ensures WellFormed(fs) && fs == Fs(map[[] := Dir], [])
    {
      fs := Fs(map[[] := Dir], []);
    }

    /** `ensure_safe_parents`: walks down, making directories of whatever is missing or a file. */
    method EnsureSafeParents(dir: Path) returns (r: Result<(), LayerError>)
      modifies this
      ensures fs.inodes == old(fs.inodes)
      ensures r.Ok? <==> Ensured(old(fs.tree), dir, 0).Ok?
      ensures r.Ok? ==> fs.tree == Ensured(old(fs.tree), dir, 0).value
      ensures r.Err? ==> Ensured(old(fs.tree), dir, 0) == Err(r.error)
    {
      var k := 0;
      while k < |dir|
        invariant 0 <= k <= |dir| && fs.inodes == old(fs.inodes)
        invariant Ensured(fs.tree, dir, k) == Ensured(old(fs.tree), dir, 0)
      {
        var current := dir[..k + 1];
        if current !in fs.tree {
          fs := fs.(tree := fs.tree[current := Dir]);
        } else if fs.tree[current].Link? {
          return Err(SymlinkParent(current));
        } else if fs.tree[current] != Dir {
          fs := fs.(tree := Removed(fs.tree, current)[current := Dir]);
        }
        k := k + 1;
      }
      r := Ok(());
    }

    method ApplyWhiteout(p: Path) returns (r: Result<(), LayerError>)
      requires IsWhiteout(p)
      modifies this
      ensures r.Ok? <==> WhitedOut(old(fs), p).Ok?
      ensures r.Ok? ==> fs == WhitedOut(old(fs), p).value
    {
      var name := p[|p| - 1];
      var parents := EnsureSafeParents(Parent(p));
      if parents.Err? {
        return parents;
      }
      if name == OPAQUE {
        fs := fs.(tree := Emptied(fs.tree, Parent(p)));
      } else if |name| == |WHITEOUT| {
        return Err(UnsafePath);
      } else if IsDots(name[|WHITEOUT|..]) {
        return Err(NotRemovable);
      } else {
        fs := fs.(tree := Removed(fs.tree, Parent(p) + [name[|WHITEOUT|..]]));
      }
      r := Ok(());
    }

    method HardLinkTo(p: Path, target: seq<Component>) returns (r: Result<(), LayerError>)
      modifies this
      ensures r.Ok? <==> Linked(old(fs), old(fs.tree), p, target).Ok?
      ensures r.Ok? ==> fs == Linked(old(fs), old(fs.tree), p, target).value
    {
      var source := Validated(target);
      if source.Err? {
        return Err(source.error);
      }
      var from := source.value;
      var parents := EnsureSafeParents(if from == [] then [] else Parent(from));
      if parents.Err? {
        return parents;
      }
      fs := fs.(tree := Removed(fs.tree, p));
      if from !in fs.tree || fs.tree[from] == Dir {
        return Err(NoLinkTarget);
      }
      fs := fs.(tree := fs.tree[p := fs.tree[from]]);
      r := Ok(());
    }

    method Unpack(p: Path, kind: Kind) returns (r: Result<(), LayerError>)
      modifies this
      ensures r.Ok? <==> Unpacked(old(fs), old(fs.tree), p, kind).Ok?
      ensures r.Ok? ==> fs == Unpacked(old(fs), old(fs.tree), p, kind).value
    {
      match kind
      case HardLink(Some(target)) =>
        r := HardLinkTo(p, target);
      case DirectoryEntry =>
        if p !in fs.tree {
          fs := fs.(tree := fs.tree[p := Dir]);
        } else if fs.tree[p] != Dir {
          return Err(NotADirectory);
        }
        r := Ok(());
      case Regular(bytes) =>
        fs := fs.(tree := Removed(fs.tree, p));
        fs := Fs(fs.tree[p := File(|fs.inodes|)], fs.inodes + [bytes]);
        r := Ok(());
      case Symlink(Some(target)) =>
        fs := fs.(tree := Removed(fs.tree, p));
        fs := fs.(tree := fs.tree[p := Link(target)]);
        r := Ok(());
      case _ =>
        r := Err(UnsupportedEntryType);
    }

    method ApplyEntry(e: Entry) returns (r: Result<(), LayerError>)
      modifies this
      ensures r.Ok? <==> Applied(old(fs), e).Ok?
      ensures r.Ok? ==> fs == Applied(old(fs), e).value
    {
      var path := Validated(e.path);
      if path.Err? {
        return Err(path.error);
      }
      var p := path.value;
      if p == [] {
        return Ok(());
      }
      if IsWhiteout(p) {
        r := ApplyWhiteout(p);
        return;
      }
      if e.kind.Unsupported? {
        return Err(UnsupportedEntryType);
      }
      var parents := EnsureSafeParents(Parent(p));
      if parents.Err? {
        return parents;
      }
      var bad := LinkError(e.kind, p);
      if bad.Some? {
        return Err(bad.value);
      }
      r := Unpack(p, e.kind);
    }

    /** One turn of the loop: the entry is charged to the budget and then applied. */
    method ApplyCharged(e: Entry, budget: Budget) returns (r: Result<(), LayerError>)
      requires budget.Valid() && e.size <= U64_MAX
      modifies this, budget
      ensures r.Ok? ==> Applied(old(fs), e) == Ok(fs) && budget.Valid() && budget.entries == old(budget.entries) + 1
      ensures r.Ok? ==> budget.expanded == SatAdd(old(budget.expanded), if e.kind.Regular? then e.size else 0)
      ensures r.Ok? <==>
        !Exceeds(budget.limits, old(budget.expanded), old(budget.entries), e) && Applied(old(fs), e).Ok?
    {
      r := budget.Charge(e);
      if r.Ok? {
        r := ApplyEntry(e);
      }
    }

    /** Applies the entries in order; succeeds exactly when all of them apply and fit the budget together. */
    method ApplyTar(es: seq<Entry>, budget: Budget) returns (r: Result<(), LayerError>)
      requires budget.Valid() && forall i :: 0 <= i < |es| ==> es[i].size <= U64_MAX
      modifies this, budget
      ensures r.Ok? <==> AppliedAll(old(fs), es).Ok?
                         && Fits(budget.limits, old(budget.expanded), old(budget.entries), es)
      ensures r.Ok? ==> AppliedAll(old(fs), es) == Ok(fs)
      ensures r.Ok? ==> budget.Valid() && budget.entries == old(budget.entries) + |es|
      ensures r.Ok? ==> budget.expanded == SatAdd(old(budget.expanded), FileBytes(es))
    {
      for i := 0 to |es|
        invariant budget.Valid() && AppliedAll(old(fs), es[..i]) == Ok(fs)
        invariant Fits(budget.limits, old(budget.expanded), old(budget.entries), es[..i])
        invariant budget.entries == old(budget.entries) + i
        invariant budget.expanded == SatAdd(old(budget.expanded), FileBytes(es[..i]))
      {
        OneMoreEntry(old(fs), es, i);
        FitsOneMore(budget.limits, old(budget.expanded), old(budget.entries), es, i);
        FirstEntries(old(fs), budget.limits, old(budget.expanded), old(budget.entries), es, i + 1);
        r := ApplyCharged(es[i], budget);
        if r.Err? {
          return;
        }
      }
      assert es[..|es|] == es;
      r := Ok(());
    }
  }
}
