/** When an entry of a layer applies, said by what paths show, and when a whole layer does. */
module LayerAcceptance {
  import opened Base
  import opened Layer
  import opened LayerMeaning

  /** What every path shows. */
  type View = Path -> Shown

  function ViewOf(fs: Fs): View { (q: Path) => Show(fs, q) }

  // Paths.

  /** Only names and dots: no way up and no root. */
  predicate Plain(cs: seq<Component>) { forall i :: 0 <= i < |cs| ==> cs[i].Normal? || cs[i].CurDir? }

  /** The names of a path, in order. */
  function Names(cs: seq<Component>): Path {
    if cs == [] then []
    else Names(cs[..|cs| - 1]) + if cs[|cs| - 1].Normal? then [cs[|cs| - 1].name] else []
  }

  lemma {:induction false} ValidatedIff(cs: seq<Component>)
    ensures Validated(cs) == if Plain(cs) then Ok(Names(cs)) else Err(UnsafePath)
    decreases |cs|
  {
    if cs != [] {
      var n := |cs| - 1;
      ValidatedIff(cs[..n]);
      assert Plain(cs) <==> Plain(cs[..n]) && (cs[n].Normal? || cs[n].CurDir?);
      assert Names(cs[..n]) + [] == Names(cs[..n]);
    }
  }

  lemma {:induction false} PlainStaysDeep(cs: seq<Component>, depth: nat)
    requires Plain(cs)
    ensures Depth(cs, depth, false).Some? && !Absolute(cs)
    decreases |cs|
  {
    if cs != [] {
      PlainStaysDeep(cs[1..], if cs[0].Normal? then depth + 1 else depth);
    }
  }

  // Parents.

  /** No prefix of the path that is longer than `k` shows a link. */
  predicate NoLink(v: View, dir: Path, k: nat) { forall j :: k < j <= |dir| ==> !v(dir[..j]).LinkTo? }

  /** The directories of a path can be made exactly when no prefix of it is a link. */
  lemma {:induction false} EnsuredIff(fs: Fs, dir: Path, k: nat)
    requires WellFormed(fs) && k <= |dir| && dir[..k] in fs.tree && fs.tree[dir[..k]] == Dir
    ensures Ensured(fs.tree, dir, k).Ok? <==> NoLink(ViewOf(fs), dir, k)
    decreases |dir| - k
  {
    if k < |dir| {
      var current := dir[..k + 1];
      assert Parent(current) == dir[..k];
      if current in fs.tree && fs.tree[current].Link? {
        assert ViewOf(fs)(dir[..k + 1]).LinkTo?;
      } else if current in fs.tree && fs.tree[current] == Dir {
        EnsuredIff(fs, dir, k + 1);
        NoLinkCons(ViewOf(fs), ViewOf(fs), dir, k);
      } else {
        var t := if current !in fs.tree then fs.tree[current := Dir] else Removed(fs.tree, current)[current := Dir];
        MadeDirectory(fs, current, t);
        EnsuredIff(Fs(t, fs.inodes), dir, k + 1);
        NoLinkCons(ViewOf(fs), ViewOf(Fs(t, fs.inodes)), dir, k);
      }
    }
  }

  lemma NoLinkCons(v: View, w: View, dir: Path, k: nat)
    requires k < |dir| && !v(dir[..k + 1]).LinkTo?
    requires forall q :: q != dir[..k + 1] ==> w(q) == v(q)
    ensures NoLink(v, dir, k) <==> NoLink(w, dir, k + 1)
  {
    forall j | k + 1 < j <= |dir| ensures w(dir[..j]) == v(dir[..j]) {
      assert |dir[..j]| != |dir[..k + 1]|;
    }
  }

  // One entry.

  /** Where a hard link can be made: its source shows a file or a link that is neither below it nor above it. */
  predicate LinkFits(v: View, p: Path, target: seq<Component>) {
    && Plain(target)
    && var source := Names(target);
       && source != [] && NoLink(v, Parent(source), 0)
       && (v(source).Content? || v(source).LinkTo?) && !Under(p, source) && !Under(source, p)
  }

  /** What an addition at a path needs, besides parents that are no links. */
  predicate KindFits(v: View, p: Path, kind: Kind)
    requires p != []
  {
    match kind
    case Regular(_) => true
    case DirectoryEntry => v(p) == Nothing || v(p) == Directory
    case Symlink(Some(target)) => Lead(Parent(p), target).Some?
    case HardLink(Some(target)) => LinkFits(v, p, target)
    case _ => false
  }

  /** A whiteout names something, and neither its own directory nor the one above. */
  predicate WhiteoutFits(p: Path)
    requires IsWhiteout(p)
  {
    p[|p| - 1] == OPAQUE || (Stripped(p) != "" && !IsDots(Stripped(p)))
  }

  /** When an entry applies. */
  predicate Applies(v: View, e: Entry) {
    && Plain(e.path)
    && var p := Names(e.path);
       p != [] ==>
         && NoLink(v, Parent(p), 0)
         && if IsWhiteout(p) then WhiteoutFits(p) else KindFits(v, p, e.kind)
  }

  /** The target of a symlink is a path as the library splits it. */
  predicate ProperTarget(e: Entry) { e.kind.Symlink? && e.kind.target.Some? ==> Proper(e.kind.target.value) }

  lemma RootParents(fs: Fs, dir: Path)
    requires WellFormed(fs)
    ensures Ensured(fs.tree, dir, 0).Ok? <==> NoLink(ViewOf(fs), dir, 0)
  {
    assert dir[..0] == [];
    EnsuredIff(fs, dir, 0);
  }

  lemma WhiteoutIff(fs: Fs, p: Path)
    requires WellFormed(fs) && IsWhiteout(p)
    ensures WhitedOut(fs, p).Ok? <==> NoLink(ViewOf(fs), Parent(p), 0) && WhiteoutFits(p)
  {
    RootParents(fs, Parent(p));
  }

  lemma DirectoryIff(fs: Fs, p: Path)
    requires WellFormed(fs) && p != [] && Ensured(fs.tree, Parent(p), 0).Ok?
    ensures Unpacked(fs, Ensured(fs.tree, Parent(p), 0).value, p, DirectoryEntry).Ok?
      <==> Show(fs, p) == Nothing || Show(fs, p) == Directory
  {
    ParentsShow(fs, Parent(p));
    var t := Fs(Ensured(fs.tree, Parent(p), 0).value, fs.inodes);
    assert !Under(p, Parent(p));
    assert Show(t, p) == Show(fs, p);
  }

  /** The parents of a hard link's source, once those of the link have been made. */
  lemma SourceParents(fs: Fs, t: Fs, dir: Path, above: Path)
    requires WellFormed(t) && NoLink(ViewOf(fs), dir, 0)
    requires forall q :: Show(t, q) == if Under(q, dir) then Directory else Show(fs, q)
    ensures Ensured(t.tree, above, 0).Ok? <==> NoLink(ViewOf(fs), above, 0)
  {
    RootParents(t, above);
    forall j | 0 < j <= |above| ensures Show(t, above[..j]).LinkTo? <==> Show(fs, above[..j]).LinkTo? {
      var q := above[..j];
      if Under(q, dir) {
        assert q == dir[..j];
      }
    }
  }

  lemma HardLinkIff(fs: Fs, p: Path, target: seq<Component>)
    requires WellFormed(fs) && p != [] && Ensured(fs.tree, Parent(p), 0).Ok?
    ensures Linked(fs, Ensured(fs.tree, Parent(p), 0).value, p, target).Ok? <==> LinkFits(ViewOf(fs), p, target)
  {
    ValidatedIff(target);
    if Plain(target) {
      var t := Fs(Ensured(fs.tree, Parent(p), 0).value, fs.inodes);
      ParentsShow(fs, Parent(p));
      RootParents(fs, Parent(p));
      if Names(target) == [] {
        RootIsNoSource(t, p);
      } else {
        SourceIff(fs, t, p, Names(target));
      }
    }
  }

  lemma RootIsNoSource(t: Fs, p: Path)
    requires WellFormed(t)
    ensures !([] in Removed(t.tree, p) && Removed(t.tree, p)[[]] != Dir)
  {
  }

  lemma SourceIff(fs: Fs, t: Fs, p: Path, source: Path)
    requires WellFormed(fs) && WellFormed(t) && p != [] && source != [] && t.inodes == fs.inodes
    requires NoLink(ViewOf(fs), Parent(p), 0)
    requires forall q :: Show(t, q) == if Under(q, Parent(p)) then Directory else Show(fs, q)
    ensures (Ensured(t.tree, Parent(source), 0).Ok?
             && var cut := Removed(Ensured(t.tree, Parent(source), 0).value, p); source in cut && cut[source] != Dir)
      <==> NoLink(ViewOf(fs), Parent(source), 0) && (Show(fs, source).Content? || Show(fs, source).LinkTo?)
           && !Under(p, source) && !Under(source, p)
  {
    SourceParents(fs, t, Parent(p), Parent(source));
    if Ensured(t.tree, Parent(source), 0).Ok? {
      ParentsShow(t, Parent(source));
      var u := Fs(Ensured(t.tree, Parent(source), 0).value, t.inodes);
      assert !Under(source, Parent(source));
      assert Show(u, source) == if Under(source, Parent(p)) then Directory else Show(fs, source);
      assert Under(source, p) <==> source == p || Under(source, Parent(p));
      assert Under(p, p);
    }
  }

  lemma KindIff(fs: Fs, p: Path, kind: Kind)
    requires WellFormed(fs) && p != [] && Ensured(fs.tree, Parent(p), 0).Ok? && !kind.Unsupported?
    requires kind.Symlink? && kind.target.Some? ==> Proper(kind.target.value)
    ensures LinkError(kind, p).None? && Unpacked(fs, Ensured(fs.tree, Parent(p), 0).value, p, kind).Ok?
      <==> KindFits(ViewOf(fs), p, kind)
  {
    match kind
    case DirectoryEntry => DirectoryIff(fs, p);
    case Symlink(Some(target)) => SymlinkStaysInside(p, target);
    case HardLink(Some(target)) =>
      HardLinkIff(fs, p, target);
      if Plain(target) {
        PlainStaysDeep(target, 0);
      }
    case _ =>
  }

  /** An entry applies exactly when what paths show allows it. */
  lemma AppliedIff(fs: Fs, e: Entry)
    requires WellFormed(fs) && ProperTarget(e)
    ensures Applied(fs, e).Ok? <==> Applies(ViewOf(fs), e)
    ensures !Plain(e.path) ==> Applied(fs, e) == Err(UnsafePath)
  {
    ValidatedIff(e.path);
    if Plain(e.path) && Names(e.path) != [] {
      var p := Names(e.path);
      RootParents(fs, Parent(p));
      if IsWhiteout(p) {
        WhiteoutIff(fs, p);
      } else if !e.kind.Unsupported? && Ensured(fs.tree, Parent(p), 0).Ok? {
        KindIff(fs, p, e.kind);
      }
    }
  }

  /** A directory that is already there is kept: its entry applies and nothing shows otherwise. */
  lemma RepeatedDirectory(fs: Fs, e: Entry, q: Path)
    requires WellFormed(fs) && Plain(e.path) && Names(e.path) != [] && e.kind == DirectoryEntry
    requires !IsWhiteout(Names(e.path)) && Show(fs, Names(e.path)) == Directory
    ensures Applied(fs, e).Ok? && Show(Applied(fs, e).value, q) == Show(fs, q)
  {
    var p := Names(e.path);
    ValidatedIff(e.path);
    forall j | 0 < j <= |p| ensures Show(fs, p[..j]) == Directory {
      PrefixIsDirectory(fs, p, j);
    }
    assert forall j :: 0 < j <= |Parent(p)| ==> Parent(p)[..j] == p[..j];
    AppliedIff(fs, e);
    EntryMeaning(fs, e, q);
    if Under(q, p) {
      assert q == p[..|q|];
      PrefixIsDirectory(fs, p, |q|);
    }
  }

  lemma {:induction false} PrefixIsDirectory(fs: Fs, p: Path, j: nat)
    requires WellFormed(fs) && Show(fs, p) == Directory && j <= |p|
    ensures Show(fs, p[..j]) == Directory
    decreases |p| - j
  {
    if j < |p| {
      PrefixIsDirectory(fs, p, j + 1);
      assert Parent(p[..j + 1]) == p[..j];
    } else {
      assert p[..j] == p;
    }
  }

  // A whole layer.

  /** What paths show after the first entries of a layer. */
  function ViewAfter(lower: Fs, es: seq<Entry>, i: nat): View
    requires i <= |es|
  {
    (q: Path) => Meaning(lower, Changes(es[..i]), q)
  }

  /** Every entry applies to what the entries before it mean. */
  predicate AllApply(lower: Fs, es: seq<Entry>) {
    forall i :: 0 <= i < |es| ==> Applies(ViewAfter(lower, es, i), es[i])
  }

  lemma AppliesSame(v: View, w: View, e: Entry)
    requires forall q :: v(q) == w(q)
    ensures Applies(v, e) <==> Applies(w, e)
  {
    var p := Names(e.path);
    if p != [] {
      assert NoLink(v, Parent(p), 0) <==> NoLink(w, Parent(p), 0);
      if e.kind.HardLink? && e.kind.target.Some? && Names(e.kind.target.value) != [] {
        var source := Names(e.kind.target.value);
        assert NoLink(v, Parent(source), 0) <==> NoLink(w, Parent(source), 0);
      }
    }
  }

  lemma LastApplies(lower: Fs, es: seq<Entry>)
    requires WellFormed(lower) && es != [] && ProperTarget(es[|es| - 1]) && AppliedAll(lower, es[..|es| - 1]).Ok?
    ensures AppliedAll(lower, es).Ok? <==> Applies(ViewAfter(lower, es, |es| - 1), es[|es| - 1])
  {
    var before, e := es[..|es| - 1], es[|es| - 1];
    var fs := AppliedAll(lower, before).value;
    LayerHasMeaning(lower, before, []);
    forall q ensures ViewOf(fs)(q) == ViewAfter(lower, es, |es| - 1)(q) {
      LayerHasMeaning(lower, before, q);
    }
    AppliedIff(fs, e);
    AppliesSame(ViewOf(fs), ViewAfter(lower, es, |es| - 1), e);
  }

  lemma AllApplySnoc(lower: Fs, es: seq<Entry>)
    requires es != []
    ensures AllApply(lower, es)
      <==> AllApply(lower, es[..|es| - 1]) && Applies(ViewAfter(lower, es, |es| - 1), es[|es| - 1])
  {
    var before := es[..|es| - 1];
    forall i | 0 <= i < |before|
      ensures Applies(ViewAfter(lower, before, i), before[i]) <==> Applies(ViewAfter(lower, es, i), es[i])
    {
      assert before[..i] == es[..i] && before[i] == es[i];
      AppliesSame(ViewAfter(lower, before, i), ViewAfter(lower, es, i), es[i]);
    }
  }

  /** A layer applies exactly when each of its entries applies to what the layer means up to there. */
  lemma {:induction false} LayerAppliesIff(lower: Fs, es: seq<Entry>)
    requires WellFormed(lower) && forall i :: 0 <= i < |es| ==> ProperTarget(es[i])
    ensures AppliedAll(lower, es).Ok? <==> AllApply(lower, es)
    decreases |es|
  {
    if es != [] {
      LayerAppliesIff(lower, es[..|es| - 1]);
      AllApplySnoc(lower, es);
      if AppliedAll(lower, es[..|es| - 1]).Ok? {
        LastApplies(lower, es);
      }
    }
  }
}
