/**
 Sequential application compared with the changeset of the OCI image specification (the Applying
 Changesets and Whiteouts sections of layer.md): the lower tree without the whited-out subtrees,
 overlaid by the additions. The comparison is for layers in any order, path by path, and exact.
 */
module LayerChangeset {
  import opened Base
  import opened Layer
  import opened LayerMeaning

  // What a change is about.

  predicate IsWhiteoutChange(c: Change) { c.Whiteout? || c.Opaque? }

  predicate Hides(c: Change, q: Path) {
    (c.Whiteout? && Under(c.path, q)) || (c.Opaque? && Below(c.path, q))
  }

  /** A whiteout creates the directories that lead to it. */
  predicate Leads(c: Change, q: Path) {
    (c.Whiteout? && c.path != [] && Under(q, Parent(c.path))) || (c.Opaque? && Under(q, c.path))
  }

  predicate IsTarget(c: Change, q: Path) { (c.Put? || c.LinkCopy?) && q == c.path }

  /** A file or link has nothing below it. */
  predicate Clears(c: Change, q: Path) { (c.Put? || c.LinkCopy?) && Below(c.path, q) }

  predicate MakesDirectory(c: Change, q: Path) {
    || (c.MakeDir? && Under(q, c.path))
    || (c.Put? && Below(q, c.path))
    || (c.LinkCopy? && !IsTarget(c, q) && !Clears(c, q) && (Below(q, c.path) || Below(q, c.source)))
  }

  predicate Concerns(c: Change, q: Path) {
    IsTarget(c, q) || Clears(c, q) || MakesDirectory(c, q) || Hides(c, q) || Leads(c, q)
  }

  /** The last change that concerns a path. */
  function LastConcern(cs: seq<Change>, q: Path): (r: Option<nat>)
    ensures r.Some? ==> r.value < |cs| && Concerns(cs[r.value], q)
    decreases |cs|
  {
    if cs == [] then None
    else if Concerns(cs[|cs| - 1], q) then Some(|cs| - 1)
    else LastConcern(cs[..|cs| - 1], q)
  }

  lemma {:induction false} LastConcernIsLast(cs: seq<Change>, q: Path, j: nat)
    requires j < |cs| && Concerns(cs[j], q)
    ensures LastConcern(cs, q).Some? && j <= LastConcern(cs, q).value
    decreases |cs|
  {
    if !Concerns(cs[|cs| - 1], q) {
      assert cs[..|cs| - 1][j] == cs[j];
      LastConcernIsLast(cs[..|cs| - 1], q, j);
    }
  }

  // The changeset, declaratively.

  predicate Hidden(ws: seq<Change>, q: Path) { exists i :: 0 <= i < |ws| && Hides(ws[i], q) }

  /**
   A path shows what the last addition that concerns it says; a hard link shows what its source shows
   by the additions before. A path of no addition shows the lower tree, unless a whiteout hides it.
   */
  function Declared(lower: Fs, ws: seq<Change>, additions: seq<Change>, q: Path): Shown
    decreases |additions|
  {
    match LastConcern(additions, q)
    case None => if Hidden(ws, q) then Nothing else Show(lower, q)
    case Some(i) =>
      var c := additions[i];
      if IsTarget(c, q) then if c.Put? then c.shown else Declared(lower, ws, additions[..i], c.source)
      else if Clears(c, q) then Nothing else Directory
  }

  function Whiteouts(cs: seq<Change>): (ws: seq<Change>)
    decreases |cs|
  {
    if cs == [] then []
    else Whiteouts(cs[..|cs| - 1]) + if IsWhiteoutChange(cs[|cs| - 1]) then [cs[|cs| - 1]] else []
  }

  function Additions(cs: seq<Change>): (adds: seq<Change>)
    decreases |cs|
  {
    if cs == [] then []
    else Additions(cs[..|cs| - 1]) + if IsWhiteoutChange(cs[|cs| - 1]) then [] else [cs[|cs| - 1]]
  }

  // When the order of the layer does not matter.

  /** The hard links from a path lead to a file of the lower tree that the layer whites out. */
  predicate Lost(ws: seq<Change>, additions: seq<Change>, q: Path)
    decreases |additions|
  {
    match LastConcern(additions, q)
    case None => Hidden(ws, q)
    case Some(i) => additions[i].LinkCopy? && IsTarget(additions[i], q) && Lost(ws, additions[..i], additions[i].source)
  }

  /** The additions leave nothing at a path. */
  predicate BroughtNothing(ws: seq<Change>, additions: seq<Change>, q: Path) {
    match LastConcern(additions, q)
    case None => true
    case Some(i) =>
      var c := additions[i];
      Clears(c, q) || (c.LinkCopy? && IsTarget(c, q) && Lost(ws, additions[..i], c.source))
  }

  /** The path is a directory even without the whiteout that creates it. */
  predicate StandsAnyway(lower: Fs, ws: seq<Change>, additions: seq<Change>, q: Path) {
    match LastConcern(additions, q)
    case None => !Hidden(ws, q) && Show(lower, q) == Directory
    case Some(i) => MakesDirectory(additions[i], q)
  }

  /**
   What the last change that concerns a path must meet: a whiteout that hides it finds nothing an
   earlier addition brought, a whiteout that leads to it finds a directory, and a hard link does not
   copy a lower file the layer whites out.
   */
  predicate Undisturbed(lower: Fs, ws: seq<Change>, cs: seq<Change>, q: Path) {
    match LastConcern(cs, q)
    case None => true
    case Some(i) =>
      var c, additions := cs[i], Additions(cs[..i]);
      if Hides(c, q) then BroughtNothing(ws, additions, q)
      else if Leads(c, q) then StandsAnyway(lower, ws, additions, q)
      else c.LinkCopy? && IsTarget(c, q) ==> !Lost(ws, additions, c.source)
  }

  // How each notion follows the list.

  lemma LastConcernSnoc(cs: seq<Change>, c: Change, q: Path)
    ensures LastConcern(cs + [c], q) == if Concerns(c, q) then Some(|cs|) else LastConcern(cs, q)
  {
    assert (cs + [c])[..|cs|] == cs;
  }

  lemma DeclaredSnoc(lower: Fs, ws: seq<Change>, additions: seq<Change>, c: Change, q: Path)
    ensures Declared(lower, ws, additions + [c], q) ==
      if !Concerns(c, q) then Declared(lower, ws, additions, q)
      else if IsTarget(c, q) then if c.Put? then c.shown else Declared(lower, ws, additions, c.source)
      else if Clears(c, q) then Nothing else Directory
  {
    var longer := additions + [c];
    LastConcernSnoc(additions, c, q);
    assert longer[..|additions|] == additions && longer[|additions|] == c;
    var r := LastConcern(additions, q);
    if !Concerns(c, q) && r.Some? {
      assert longer[..r.value] == additions[..r.value] && longer[r.value] == additions[r.value];
    }
  }

  lemma LostSnoc(ws: seq<Change>, additions: seq<Change>, c: Change, q: Path)
    ensures Lost(ws, additions + [c], q) ==
      if !Concerns(c, q) then Lost(ws, additions, q)
      else c.LinkCopy? && IsTarget(c, q) && Lost(ws, additions, c.source)
  {
    var longer := additions + [c];
    LastConcernSnoc(additions, c, q);
    assert longer[..|additions|] == additions && longer[|additions|] == c;
    var r := LastConcern(additions, q);
    if !Concerns(c, q) && r.Some? {
      assert longer[..r.value] == additions[..r.value] && longer[r.value] == additions[r.value];
    }
  }

  /** The application shows the verdict of the last change that concerns the path. */
  lemma {:induction false} MeaningIs(lower: Fs, cs: seq<Change>, q: Path)
    ensures LastConcern(cs, q).None? ==> Meaning(lower, cs, q) == Show(lower, q)
    ensures LastConcern(cs, q).Some? ==>
      var i := LastConcern(cs, q).value;
      Meaning(lower, cs, q) == Verdict(cs[i], q, Meaning(lower, cs[..i], q), Meaning(lower, cs[..i], SourceOf(cs[i])))
    decreases |cs|
  {
    if cs != [] && !Concerns(cs[|cs| - 1], q) {
      var before := cs[..|cs| - 1];
      MeaningIs(lower, before, q);
      NoConcern(cs[|cs| - 1], q, Meaning(lower, before, q), Meaning(lower, before, SourceOf(cs[|cs| - 1])));
      var r := LastConcern(before, q);
      if r.Some? {
        assert before[..r.value] == cs[..r.value];
      }
    }
  }

  lemma NoConcern(c: Change, q: Path, here: Shown, source: Shown)
    requires !Concerns(c, q)
    ensures Verdict(c, q, here, source) == here
  {
  }

  lemma AdditionsSnoc(cs: seq<Change>, i: nat)
    requires i < |cs|
    ensures Additions(cs[..i + 1])
         == if IsWhiteoutChange(cs[i]) then Additions(cs[..i]) else Additions(cs[..i]) + [cs[i]]
  {
    assert cs[..i + 1][..i] == cs[..i];
    assert Additions(cs[..i]) + [] == Additions(cs[..i]);
  }

  /** A last change that does not concern the path makes no difference to what is declared there. */
  lemma SkipLast(lower: Fs, ws: seq<Change>, cs: seq<Change>, q: Path)
    requires cs != [] && !Concerns(cs[|cs| - 1], q)
    ensures var before := cs[..|cs| - 1];
      && Declared(lower, ws, Additions(cs), q) == Declared(lower, ws, Additions(before), q)
      && Lost(ws, Additions(cs), q) == Lost(ws, Additions(before), q)
  {
    var before, c := cs[..|cs| - 1], cs[|cs| - 1];
    AdditionsSnoc(cs, |cs| - 1);
    assert cs[..|cs|] == cs;
    if !IsWhiteoutChange(c) {
      DeclaredSnoc(lower, ws, Additions(before), c, q);
      LostSnoc(ws, Additions(before), c, q);
    }
  }

  /** How much of a layer matters to a path. */
  function Reach(cs: seq<Change>, q: Path): (n: nat)
    ensures n <= |cs|
  {
    var r := LastConcern(cs, q);
    if r.Some? then r.value + 1 else 0
  }

  /** The additions of a layer up to the last change that concerns a path decide what is declared there. */
  lemma {:induction false} AdditionsUpTo(lower: Fs, ws: seq<Change>, cs: seq<Change>, q: Path)
    ensures Declared(lower, ws, Additions(cs), q) == Declared(lower, ws, Additions(cs[..Reach(cs, q)]), q)
    ensures Lost(ws, Additions(cs), q) == Lost(ws, Additions(cs[..Reach(cs, q)]), q)
    decreases |cs|
  {
    if Reach(cs, q) == |cs| {
      assert cs[..|cs|] == cs;
    } else {
      var before := cs[..|cs| - 1];
      SkipLast(lower, ws, cs, q);
      AdditionsUpTo(lower, ws, before, q);
      assert Reach(before, q) == Reach(cs, q);
      assert before[..Reach(cs, q)] == cs[..Reach(cs, q)];
    }
  }

  // What applied layers are like.

  predicate IsFile(s: Shown) { s.Content? || s.LinkTo? }

  /** Files are put, and hard links find a file. */
  ghost predicate Sound(lower: Fs, cs: seq<Change>) {
    forall i :: 0 <= i < |cs| ==> SoundAt(lower, cs, i)
  }

  predicate SoundAt(lower: Fs, cs: seq<Change>, i: nat)
    requires i < |cs|
  {
    && (cs[i].Put? ==> IsFile(cs[i].shown))
    && (cs[i].LinkCopy? ==> IsFile(Meaning(lower, cs[..i], cs[i].source)))
  }

  lemma SoundPrefix(lower: Fs, cs: seq<Change>, n: nat)
    requires Sound(lower, cs) && n <= |cs|
    ensures Sound(lower, cs[..n])
  {
    forall i | 0 <= i < n ensures SoundAt(lower, cs[..n], i) {
      assert SoundAt(lower, cs, i);
      assert cs[..n][..i] == cs[..i];
    }
  }

  lemma NoAdditionDeclared(lower: Fs, ws: seq<Change>, q: Path)
    ensures Declared(lower, ws, [], q) == if Hidden(ws, q) then Nothing else Show(lower, q)
    ensures Lost(ws, [], q) == Hidden(ws, q)
  {
  }

  /** A path of no change. */
  lemma FileBelow(lower: Fs, ws: seq<Change>, cs: seq<Change>, q: Path)
    requires LastConcern(cs, q).None?
    ensures Meaning(lower, cs, q) == Show(lower, q) && Lost(ws, Additions(cs), q) == Hidden(ws, q)
    ensures Declared(lower, ws, Additions(cs), q) == if Hidden(ws, q) then Nothing else Show(lower, q)
  {
    MeaningIs(lower, cs, q);
    AdditionsUpTo(lower, ws, cs, q);
    assert cs[..0] == [];
    NoAdditionDeclared(lower, ws, q);
  }

  /** A path that shows a file the layer put or linked there. */
  lemma FileStep(lower: Fs, ws: seq<Change>, cs: seq<Change>, q: Path, i: nat)
    requires Sound(lower, cs) && LastConcern(cs, q) == Some(i) && IsFile(Meaning(lower, cs, q))
    ensures var c, rest := cs[i], Additions(cs[..i]);
      && IsTarget(c, q) && !IsWhiteoutChange(c) && Sound(lower, cs[..i])
      && Declared(lower, ws, Additions(cs), q) == (if c.Put? then c.shown else Declared(lower, ws, rest, c.source))
      && Meaning(lower, cs, q) == (if c.Put? then c.shown else Meaning(lower, cs[..i], c.source))
      && Lost(ws, Additions(cs), q) == (c.LinkCopy? && Lost(ws, rest, c.source))
  {
    FileMeaning(lower, cs, q, i);
    TargetDeclared(lower, ws, cs, q, i);
    SoundPrefix(lower, cs, i);
  }

  lemma FileMeaning(lower: Fs, cs: seq<Change>, q: Path, i: nat)
    requires LastConcern(cs, q) == Some(i) && IsFile(Meaning(lower, cs, q))
    ensures IsTarget(cs[i], q) && !IsWhiteoutChange(cs[i])
    ensures Meaning(lower, cs, q) == if cs[i].Put? then cs[i].shown else Meaning(lower, cs[..i], cs[i].source)
  {
    MeaningIs(lower, cs, q);
    FileIsTarget(cs[i], q, Meaning(lower, cs[..i], q), Meaning(lower, cs[..i], SourceOf(cs[i])));
  }

  lemma TargetDeclared(lower: Fs, ws: seq<Change>, cs: seq<Change>, q: Path, i: nat)
    requires LastConcern(cs, q) == Some(i) && IsTarget(cs[i], q)
    ensures var c, rest := cs[i], Additions(cs[..i]);
      && Declared(lower, ws, Additions(cs), q) == (if c.Put? then c.shown else Declared(lower, ws, rest, c.source))
      && Lost(ws, Additions(cs), q) == (c.LinkCopy? && Lost(ws, rest, c.source))
  {
    AdditionsUpTo(lower, ws, cs, q);
    AdditionsSnoc(cs, i);
    DeclaredSnoc(lower, ws, Additions(cs[..i]), cs[i], q);
    LostSnoc(ws, Additions(cs[..i]), cs[i], q);
  }

  /** A path that shows a file is declared to show that file, or nothing if its links are lost. */
  lemma {:induction false} FileDeclared(lower: Fs, ws: seq<Change>, cs: seq<Change>, q: Path)
    requires Sound(lower, cs) && IsFile(Meaning(lower, cs, q))
    ensures Declared(lower, ws, Additions(cs), q)
      == if Lost(ws, Additions(cs), q) then Nothing else Meaning(lower, cs, q)
    decreases |cs|
  {
    var r := LastConcern(cs, q);
    if r.None? {
      FileBelow(lower, ws, cs, q);
    } else {
      FileStep(lower, ws, cs, q, r.value);
      if cs[r.value].LinkCopy? {
        FileDeclared(lower, ws, cs[..r.value], cs[r.value].source);
      }
    }
  }

  /** Only an addition of a file or a link shows a file where it concerns a path. */
  lemma FileIsTarget(c: Change, q: Path, here: Shown, source: Shown)
    requires Concerns(c, q) && IsFile(Verdict(c, q, here, source))
    ensures IsTarget(c, q) && !IsWhiteoutChange(c)
  {
  }

  // Agreement.

  lemma WhiteoutIsListed(cs: seq<Change>, i: nat, q: Path)
    requires i < |cs| && Hides(cs[i], q)
    ensures Hidden(Whiteouts(cs), q)
    decreases |cs|
  {
    var before := cs[..|cs| - 1];
    var ws, kept := Whiteouts(cs), Whiteouts(before);
    if i == |cs| - 1 {
      assert ws[|ws| - 1] == cs[i];
    } else {
      assert before[i] == cs[i];
      WhiteoutIsListed(before, i, q);
      var k :| 0 <= k < |kept| && Hides(kept[k], q);
      assert ws[k] == kept[k];
    }
  }

  lemma {:induction false} ListedIsWhiteout(cs: seq<Change>, q: Path) returns (i: nat)
    requires Hidden(Whiteouts(cs), q)
    ensures i < |cs| && Hides(cs[i], q)
    decreases |cs|
  {
    var before := cs[..|cs| - 1];
    var ws, kept := Whiteouts(cs), Whiteouts(before);
    var k :| 0 <= k < |ws| && Hides(ws[k], q);
    if k < |kept| {
      assert kept[k] == ws[k];
      i := ListedIsWhiteout(before, q);
    } else {
      i := |cs| - 1;
    }
  }

  /** The last change that concerns the path hides it. */
  lemma HidesCase(lower: Fs, ws: seq<Change>, cs: seq<Change>, q: Path, i: nat)
    requires Sound(lower, cs) && LastConcern(cs, q) == Some(i) && Hides(cs[i], q) && Hidden(ws, q)
    ensures Declared(lower, ws, Additions(cs), q) == Nothing <==> BroughtNothing(ws, Additions(cs[..i]), q)
  {
    AdditionsUpTo(lower, ws, cs, q);
    AdditionsSnoc(cs, i);
    SoundPrefix(lower, cs, i);
    DeclaredNothing(lower, ws, cs[..i], q);
  }

  /** The last change that concerns the path makes it a directory on the way to a whiteout. */
  lemma LeadsCase(lower: Fs, ws: seq<Change>, cs: seq<Change>, q: Path, i: nat)
    requires Sound(lower, cs) && LastConcern(cs, q) == Some(i) && Leads(cs[i], q)
    ensures Declared(lower, ws, Additions(cs), q) == Directory <==> StandsAnyway(lower, ws, Additions(cs[..i]), q)
  {
    AdditionsUpTo(lower, ws, cs, q);
    AdditionsSnoc(cs, i);
    SoundPrefix(lower, cs, i);
    DeclaredDirectory(lower, ws, cs[..i], q);
  }

  /** How the last change of a layer bears on its last addition that concerns a path. */
  lemma LastOfAdditions(cs: seq<Change>, q: Path)
    requires cs != []
    ensures var before, c := cs[..|cs| - 1], cs[|cs| - 1];
      && Additions(before) <= Additions(cs)
      && LastConcern(Additions(cs), q) ==
         (if !IsWhiteoutChange(c) && Concerns(c, q) then Some(|Additions(before)|)
          else LastConcern(Additions(before), q))
      && (!IsWhiteoutChange(c) ==> Additions(cs) == Additions(before) + [c])
  {
    var before, c := cs[..|cs| - 1], cs[|cs| - 1];
    AdditionsSnoc(cs, |cs| - 1);
    assert cs[..|cs|] == cs;
    LastConcernSnoc(Additions(before), c, q);
  }

  /** The last addition that concerns a path comes from the layer, with the additions before it. */
  lemma {:induction false} LastAddition(cs: seq<Change>, q: Path) returns (i: nat)
    requires LastConcern(Additions(cs), q).Some?
    ensures i < |cs| && !IsWhiteoutChange(cs[i]) && Concerns(cs[i], q)
    ensures var k := LastConcern(Additions(cs), q).value;
      Additions(cs)[k] == cs[i] && Additions(cs)[..k] == Additions(cs[..i])
    decreases |cs|
  {
    LastOfAdditions(cs, q);
    var before, c := cs[..|cs| - 1], cs[|cs| - 1];
    if !IsWhiteoutChange(c) && Concerns(c, q) {
      i := |cs| - 1;
    } else {
      i := LastAddition(before, q);
      assert before[..i] == cs[..i];
      var k := LastConcern(Additions(before), q).value;
      assert Additions(cs)[..k] == Additions(before)[..k];
    }
  }

  /** What the source of a hard link of the layer is declared to show. */
  lemma SourceDeclared(lower: Fs, ws: seq<Change>, cs: seq<Change>, i: nat)
    requires Sound(lower, cs) && i < |cs| && cs[i].LinkCopy?
    ensures var shown := Declared(lower, ws, Additions(cs[..i]), cs[i].source);
      (shown == Nothing <==> Lost(ws, Additions(cs[..i]), cs[i].source)) && shown != Directory
  {
    assert SoundAt(lower, cs, i);
    SoundPrefix(lower, cs, i);
    FileDeclared(lower, ws, cs[..i], cs[i].source);
  }

  lemma DeclaredNothing(lower: Fs, ws: seq<Change>, cs: seq<Change>, q: Path)
    requires Sound(lower, cs) && Hidden(ws, q)
    ensures Declared(lower, ws, Additions(cs), q) == Nothing <==> BroughtNothing(ws, Additions(cs), q)
  {
    if LastConcern(Additions(cs), q).Some? {
      var i := LastAddition(cs, q);
      assert SoundAt(lower, cs, i);
      if cs[i].LinkCopy? {
        SourceDeclared(lower, ws, cs, i);
      }
    }
  }

  lemma DeclaredDirectory(lower: Fs, ws: seq<Change>, cs: seq<Change>, q: Path)
    requires Sound(lower, cs)
    ensures Declared(lower, ws, Additions(cs), q) == Directory <==> StandsAnyway(lower, ws, Additions(cs), q)
  {
    if LastConcern(Additions(cs), q).Some? {
      var i := LastAddition(cs, q);
      assert SoundAt(lower, cs, i);
      if cs[i].LinkCopy? {
        SourceDeclared(lower, ws, cs, i);
      }
    }
  }

  /** The last change that concerns the path is an addition. */
  lemma AdditionCase(lower: Fs, ws: seq<Change>, cs: seq<Change>, q: Path, i: nat)
    requires Sound(lower, cs) && LastConcern(cs, q) == Some(i) && !IsWhiteoutChange(cs[i])
    ensures Meaning(lower, cs, q) == Declared(lower, ws, Additions(cs), q) <==> Undisturbed(lower, ws, cs, q)
  {
    var c := cs[i];
    MeaningIs(lower, cs, q);
    AdditionsUpTo(lower, ws, cs, q);
    AdditionsSnoc(cs, i);
    DeclaredSnoc(lower, ws, Additions(cs[..i]), c, q);
    assert SoundAt(lower, cs, i);
    if c.LinkCopy? && IsTarget(c, q) {
      SoundPrefix(lower, cs, i);
      FileDeclared(lower, ws, cs[..i], c.source);
    }
  }

  /** Path by path, for changes in any order: the application agrees with the changeset exactly where undisturbed. */
  lemma AgreesIff(lower: Fs, cs: seq<Change>, q: Path)
    requires Sound(lower, cs)
    ensures Meaning(lower, cs, q) == Declared(lower, Whiteouts(cs), Additions(cs), q)
      <==> Undisturbed(lower, Whiteouts(cs), cs, q)
  {
    var ws, r := Whiteouts(cs), LastConcern(cs, q);
    if r.None? {
      MeaningIs(lower, cs, q);
      AdditionsUpTo(lower, ws, cs, q);
      NoAdditionDeclared(lower, ws, q);
      assert cs[..0] == [];
      if Hidden(ws, q) {
        var i := ListedIsWhiteout(cs, q);
        LastConcernIsLast(cs, q, i);
      }
    } else if !IsWhiteoutChange(cs[r.value]) {
      AdditionCase(lower, ws, cs, q, r.value);
    } else {
      MeaningIs(lower, cs, q);
      if Hides(cs[r.value], q) {
        WhiteoutIsListed(cs, r.value, q);
        HidesCase(lower, ws, cs, q, r.value);
      } else {
        LeadsCase(lower, ws, cs, q, r.value);
      }
    }
  }

  // Entries of a layer.

  lemma {:induction false} PrefixApplies(lower: Fs, es: seq<Entry>, n: nat)
    requires n <= |es| && AppliedAll(lower, es).Ok?
    ensures AppliedAll(lower, es[..n]).Ok?
    decreases |es|
  {
    if n == |es| {
      assert es[..n] == es;
    } else {
      assert es[..|es| - 1][..n] == es[..n];
      PrefixApplies(lower, es[..|es| - 1], n);
    }
  }

  lemma LinkFindsFile(fs: Fs, e: Entry)
    requires WellFormed(fs) && Applied(fs, e).Ok? && ChangeOf(e).LinkCopy?
    ensures IsFile(Show(fs, ChangeOf(e).source))
  {
    var p := Validated(e.path).value;
    EntryMeaning(fs, e, p);
    assert Applied(fs, e).value.tree[p] != Dir;
  }

  lemma PutsFile(e: Entry)
    ensures ChangeOf(e).Put? ==> IsFile(ChangeOf(e).shown)
  {
  }

  lemma AppliedIsSound(lower: Fs, es: seq<Entry>)
    requires WellFormed(lower) && AppliedAll(lower, es).Ok?
    ensures Sound(lower, Changes(es))
  {
    forall i | 0 <= i < |es| ensures SoundAt(lower, Changes(es), i) {
      PutsFile(es[i]);
      if ChangeOf(es[i]).LinkCopy? {
        AppliedLinkFindsFile(lower, es, i);
      }
    }
  }

  lemma AppliedLinkFindsFile(lower: Fs, es: seq<Entry>, i: nat)
    requires WellFormed(lower) && AppliedAll(lower, es).Ok? && i < |es| && ChangeOf(es[i]).LinkCopy?
    ensures IsFile(Meaning(lower, Changes(es)[..i], ChangeOf(es[i]).source))
  {
    PrefixApplies(lower, es, i + 1);
    PrefixApplies(lower, es, i);
    OneMoreEntry(lower, es, i);
    LayerHasMeaning(lower, es[..i], ChangeOf(es[i]).source);
    LinkFindsFile(AppliedAll(lower, es[..i]).value, es[i]);
    assert Changes(es)[..i] == Changes(es[..i]);
  }

  /** The layer as the specification takes it: its whiteouts, then its additions. */
  function Changeset(lower: Fs, es: seq<Entry>, q: Path): Shown {
    Declared(lower, Whiteouts(Changes(es)), Additions(Changes(es)), q)
  }

  /** For every layer that applies, in whatever order it lists its entries, and for every path. */
  lemma ChangesetAppliedIff(lower: Fs, es: seq<Entry>, q: Path)
    requires WellFormed(lower) && AppliedAll(lower, es).Ok?
    ensures Show(AppliedAll(lower, es).value, q) == Changeset(lower, es, q)
      <==> Undisturbed(lower, Whiteouts(Changes(es)), Changes(es), q)
  {
    LayerHasMeaning(lower, es, q);
    AppliedIsSound(lower, es);
    AgreesIff(lower, Changes(es), q);
  }

  // Layers with their whiteouts first.

  predicate WhiteoutsFirst(cs: seq<Change>, n: nat) {
    && n <= |cs| && (forall i :: 0 <= i < n ==> IsWhiteoutChange(cs[i]))
    && forall i :: n <= i < |cs| ==> !IsWhiteoutChange(cs[i])
  }

  /** No directory a whiteout creates was missing from the lower tree or is itself whited out. */
  ghost predicate ParentsStand(lower: Fs, ws: seq<Change>) {
    forall q :: StandsAt(lower, ws, q)
  }

  predicate StandsAt(lower: Fs, ws: seq<Change>, q: Path) {
    var r := LastConcern(ws, q);
    r.Some? && Leads(ws[r.value], q) ==> Show(lower, q) == Directory && !Hidden(ws, q)
  }

  lemma {:induction false} AllWhiteouts(ws: seq<Change>)
    requires forall i :: 0 <= i < |ws| ==> IsWhiteoutChange(ws[i])
    ensures Whiteouts(ws) == ws && Additions(ws) == []
    decreases |ws|
  {
    if ws != [] {
      AllWhiteouts(ws[..|ws| - 1]);
      assert ws[..|ws| - 1] + [ws[|ws| - 1]] == ws;
    }
  }

  lemma {:induction false} FirstWhiteouts(cs: seq<Change>, n: nat)
    requires WhiteoutsFirst(cs, n)
    ensures Whiteouts(cs) == cs[..n]
    decreases |cs|
  {
    if n == |cs| {
      assert cs[..n] == cs;
      AllWhiteouts(cs);
    } else {
      FirstWhiteouts(cs[..|cs| - 1], n);
      assert cs[..|cs| - 1][..n] == cs[..n];
    }
  }

  predicate WhiteoutsAgreeAt(lower: Fs, ws: seq<Change>, q: Path) {
    Meaning(lower, ws, q) == Declared(lower, ws, [], q)
  }

  /** Whiteouts alone do what the specification says exactly when the directories they create stand. */
  lemma WhiteoutsAgreeIff(lower: Fs, ws: seq<Change>)
    requires forall i :: 0 <= i < |ws| ==> IsWhiteoutChange(ws[i])
    ensures (forall q :: WhiteoutsAgreeAt(lower, ws, q)) <==> ParentsStand(lower, ws)
  {
    forall q ensures WhiteoutsAgreeAt(lower, ws, q) <==> StandsAt(lower, ws, q) {
      WhiteoutsAgreeThere(lower, ws, q);
    }
  }

  lemma WhiteoutsAgreeThere(lower: Fs, ws: seq<Change>, q: Path)
    requires forall i :: 0 <= i < |ws| ==> IsWhiteoutChange(ws[i])
    ensures WhiteoutsAgreeAt(lower, ws, q) <==> StandsAt(lower, ws, q)
  {
    UndisturbedWhiteouts(lower, ws, q);
    WhiteoutsAreSound(lower, ws);
    AgreesIff(lower, ws, q);
    AllWhiteouts(ws);
  }

  lemma WhiteoutsAreSound(lower: Fs, ws: seq<Change>)
    requires forall i :: 0 <= i < |ws| ==> IsWhiteoutChange(ws[i])
    ensures Sound(lower, ws)
  {
  }

  lemma UndisturbedWhiteouts(lower: Fs, ws: seq<Change>, q: Path)
    requires forall i :: 0 <= i < |ws| ==> IsWhiteoutChange(ws[i])
    ensures Undisturbed(lower, ws, ws, q) <==> StandsAt(lower, ws, q)
  {
    var r := LastConcern(ws, q);
    if r.Some? {
      AllWhiteouts(ws[..r.value]);
    }
  }

  /** A path of a layer with its whiteouts first is undisturbed if the parents of the whiteouts stand. */
  lemma FirstIsUndisturbed(lower: Fs, cs: seq<Change>, n: nat, q: Path)
    requires WhiteoutsFirst(cs, n) && ParentsStand(lower, cs[..n]) && Sound(lower, cs)
    ensures Undisturbed(lower, Whiteouts(cs), cs, q)
  {
    FirstWhiteouts(cs, n);
    var r := LastConcern(cs, q);
    if r.Some? {
      var i, c := r.value, cs[r.value];
      if i < n {
        AllWhiteouts(cs[..i]);
        FirstDecides(cs, n, q);
        assert StandsAt(lower, cs[..n], q);
      } else if c.LinkCopy? && IsTarget(c, q) {
        assert SoundAt(lower, cs, i);
        SoundPrefix(lower, cs, i);
        SourceStands(lower, cs[..i], n, cs[..n], c.source);
      }
    }
  }

  /** A change among the first decides only where no later one does. */
  lemma {:induction false} FirstDecides(cs: seq<Change>, n: nat, q: Path)
    requires n <= |cs| && LastConcern(cs, q).Some? && LastConcern(cs, q).value < n
    ensures LastConcern(cs[..n], q) == LastConcern(cs, q)
    decreases |cs|
  {
    if n == |cs| {
      assert cs[..n] == cs;
    } else {
      assert cs[..|cs| - 1][..n] == cs[..n];
      FirstDecides(cs[..|cs| - 1], n, q);
    }
  }

  /** A file found after all whiteouts is not lost to one of them. */
  lemma {:induction false} SourceStands(lower: Fs, cs: seq<Change>, n: nat, ws: seq<Change>, q: Path)
    requires n <= |cs| && ws == cs[..n] && (forall i :: 0 <= i < n ==> IsWhiteoutChange(cs[i]))
    requires Sound(lower, cs) && IsFile(Meaning(lower, cs, q))
    ensures !Lost(ws, Additions(cs), q)
    decreases |cs|
  {
    var r := LastConcern(cs, q);
    if r.None? {
      FileBelow(lower, ws, cs, q);
      NotHidden(cs, ws, n, q);
    } else {
      var i := r.value;
      FileStep(lower, ws, cs, q, i);
      if cs[i].LinkCopy? {
        assert cs[..i][..n] == cs[..n];
        SourceStands(lower, cs[..i], n, ws, cs[i].source);
      }
    }
  }

  lemma NotHidden(cs: seq<Change>, ws: seq<Change>, n: nat, q: Path)
    requires n <= |cs| && ws == cs[..n] && LastConcern(cs, q).None?
    ensures !Hidden(ws, q)
  {
    forall i | 0 <= i < |ws| ensures !Hides(ws[i], q) {
      if Hides(ws[i], q) {
        LastConcernIsLast(cs, q, i);
        assert false;
      }
    }
  }

  /** A layer with its whiteouts first, whose parents stand in the lower tree, is applied as specified. */
  lemma ChangesetApplied(lower: Fs, es: seq<Entry>, n: nat, q: Path)
    requires WellFormed(lower) && AppliedAll(lower, es).Ok?
    requires WhiteoutsFirst(Changes(es), n) && ParentsStand(lower, Changes(es)[..n])
    ensures Show(AppliedAll(lower, es).value, q) == Changeset(lower, es, q)
  {
    AppliedIsSound(lower, es);
    FirstIsUndisturbed(lower, Changes(es), n, q);
    ChangesetAppliedIff(lower, es, q);
  }

  // A layer whose only whiteout comes last.

  lemma {:induction false} AllAdditions(cs: seq<Change>)
    requires forall i :: 0 <= i < |cs| ==> !IsWhiteoutChange(cs[i])
    ensures Whiteouts(cs) == [] && Additions(cs) == cs
    decreases |cs|
  {
    if cs != [] {
      AllAdditions(cs[..|cs| - 1]);
      assert cs[..|cs| - 1] + [cs[|cs| - 1]] == cs;
    }
  }

  /** What one late whiteout leaves as the specification has it. */
  predicate LateWhiteoutFits(lower: Fs, additions: seq<Change>, w: Change, q: Path) {
    if Hides(w, q) then BroughtNothing([w], additions, q)
    else if Leads(w, q) then StandsAnyway(lower, [w], additions, q)
    else
      match LastConcern(additions, q)
      case Some(i) =>
        additions[i].LinkCopy? && IsTarget(additions[i], q) ==> !Lost([w], additions[..i], additions[i].source)
      case None => true
  }

  lemma LateIsOnlyWhiteout(additions: seq<Change>, w: Change)
    requires IsWhiteoutChange(w) && forall i :: 0 <= i < |additions| ==> !IsWhiteoutChange(additions[i])
    ensures Whiteouts(additions + [w]) == [w]
  {
    AllAdditions(additions);
    assert (additions + [w])[..|additions|] == additions;
    assert [] + [w] == [w];
  }

  lemma AdditionsBeforeLate(additions: seq<Change>, w: Change, i: nat)
    requires i <= |additions| && forall i :: 0 <= i < |additions| ==> !IsWhiteoutChange(additions[i])
    ensures Additions((additions + [w])[..i]) == additions[..i]
  {
    assert (additions + [w])[..i] == additions[..i];
    AllAdditions(additions[..i]);
  }

  lemma LateConcerned(lower: Fs, additions: seq<Change>, w: Change, q: Path)
    requires IsWhiteoutChange(w) && Concerns(w, q) && Additions((additions + [w])[..|additions|]) == additions
    ensures Undisturbed(lower, [w], additions + [w], q) <==> LateWhiteoutFits(lower, additions, w, q)
  {
    LastConcernSnoc(additions, w, q);
    assert (additions + [w])[|additions|] == w;
  }

  lemma LateUnconcerned(lower: Fs, additions: seq<Change>, w: Change, q: Path)
    requires !Concerns(w, q) && forall i :: 0 <= i < |additions| ==> !IsWhiteoutChange(additions[i])
    ensures Undisturbed(lower, [w], additions + [w], q) <==> LateWhiteoutFits(lower, additions, w, q)
  {
    LastConcernSnoc(additions, w, q);
    var r := LastConcern(additions, q);
    if r.Some? {
      assert (additions + [w])[r.value] == additions[r.value];
      AdditionsBeforeLate(additions, w, r.value);
    }
  }

  lemma LateWhiteoutIs(lower: Fs, additions: seq<Change>, w: Change, q: Path)
    requires IsWhiteoutChange(w) && forall i :: 0 <= i < |additions| ==> !IsWhiteoutChange(additions[i])
    ensures Undisturbed(lower, Whiteouts(additions + [w]), additions + [w], q)
      <==> LateWhiteoutFits(lower, additions, w, q)
  {
    LateIsOnlyWhiteout(additions, w);
    if Concerns(w, q) {
      AdditionsBeforeLate(additions, w, |additions|);
      assert additions[..|additions|] == additions;
      LateConcerned(lower, additions, w, q);
    } else {
      LateUnconcerned(lower, additions, w, q);
    }
  }

  /** An applied layer that ends in its only whiteout agrees with the specification exactly where that one fits. */
  lemma LateWhiteoutIff(lower: Fs, es: seq<Entry>, q: Path)
    requires WellFormed(lower) && es != [] && AppliedAll(lower, es).Ok?
    requires var cs, n := Changes(es), |es| - 1;
      IsWhiteoutChange(cs[n]) && forall i :: 0 <= i < n ==> !IsWhiteoutChange(cs[i])
    ensures var cs, n := Changes(es), |es| - 1;
      Show(AppliedAll(lower, es).value, q) == Changeset(lower, es, q) <==> LateWhiteoutFits(lower, cs[..n], cs[n], q)
  {
    var cs, n := Changes(es), |es| - 1;
    ChangesetAppliedIff(lower, es, q);
    assert cs == cs[..n] + [cs[n]];
    LateWhiteoutIs(lower, cs[..n], cs[n], q);
  }

  // An applied layer that disagrees: it adds a file and whites it out.

  const EMPTY := Fs(map[[] := Dir], [])

  const ADD := Entry([Normal("a")], Regular([1]), 1)

  const UNDO := Entry([Normal(".wh.a")], Regular([]), 0)

  lemma OneComponent(name: string)
    ensures Validated([Normal(name)]) == Ok([name])
  {
    assert [Normal(name)][..0] == [];
    assert Validated([]) == Ok([]);
    assert [] + [name] == [name];
  }

  lemma AddChange()
    ensures ChangeOf(ADD) == Put(["a"], Content([1]))
    ensures Applied(EMPTY, ADD) == Ok(Fs(map[[] := Dir, ["a"] := File(0)], [[1]]))
  {
    OneComponent("a");
    assert "a"[0] != WHITEOUT[0];
    assert Parent(["a"]) == [];
    assert Ensured(EMPTY.tree, [], 0) == Ok(EMPTY.tree);
    assert Removed(EMPTY.tree, ["a"]) == EMPTY.tree;
    assert EMPTY.tree[["a"] := File(0)] == map[[] := Dir, ["a"] := File(0)];
    assert EMPTY.inodes + [[1]] == [[1]];
  }

  lemma UndoChange()
    ensures ChangeOf(UNDO) == Whiteout(["a"])
    ensures var fs := Fs(map[[] := Dir, ["a"] := File(0)], [[1]]);
      Applied(fs, UNDO).Ok? && Show(Applied(fs, UNDO).value, ["a"]) == Nothing
  {
    var fs := Fs(map[[] := Dir, ["a"] := File(0)], [[1]]);
    OneComponent(".wh.a");
    assert WHITEOUT <= ".wh.a" && ".wh.a"[4..] == "a" && |OPAQUE| == 12;
    assert Parent([".wh.a"]) == [] && [] + ["a"] == ["a"];
    assert Ensured(fs.tree, [], 0) == Ok(fs.tree);
    assert ["a"][..1] == ["a"];
    assert Under(["a"], ["a"]);
  }

  /** A whiteout after an addition of the same layer removes it, though it should hide lower layers only. */
  lemma LateWhiteoutRemovesAddition()
    ensures AppliedAll(EMPTY, [ADD, UNDO]).Ok?
    ensures Show(AppliedAll(EMPTY, [ADD, UNDO]).value, ["a"]) == Nothing
    ensures Changeset(EMPTY, [ADD, UNDO], ["a"]) == Content([1])
  {
    AddChange();
    UndoChange();
    SampleChangeset();
    TwoEntries(EMPTY, ADD, UNDO, Fs(map[[] := Dir, ["a"] := File(0)], [[1]]));
  }

  lemma TwoEntries(fs: Fs, first: Entry, second: Entry, t: Fs)
    requires Applied(fs, first) == Ok(t)
    ensures AppliedAll(fs, [first, second]) == Applied(t, second)
  {
    var es := [first, second];
    assert es[..0] == [] && AppliedAll(fs, es[..0]) == Ok(fs);
    OneMoreEntry(fs, es, 0);
    OneMoreEntry(fs, es, 1);
    assert es[..2] == es;
  }

  lemma SampleChangeset()
    ensures Changeset(EMPTY, [ADD, UNDO], ["a"]) == Content([1])
  {
    AddChange();
    UndoChange();
    assert Changes([ADD, UNDO]) == [ChangeOf(ADD)] + [ChangeOf(UNDO)];
    AdditionIsDeclared(EMPTY, ChangeOf(ADD), ChangeOf(UNDO));
  }

  lemma AdditionIsDeclared(lower: Fs, add: Change, w: Change)
    requires add.Put? && IsWhiteoutChange(w)
    ensures Declared(lower, Whiteouts([add] + [w]), Additions([add] + [w]), add.path) == add.shown
  {
    AdditionsSnoc([add] + [w], 1);
    assert ([add] + [w])[..2] == [add] + [w];
    AdditionsBeforeLate([add], w, 1);
    assert [add][..1] == [] + [add];
    DeclaredSnoc(lower, Whiteouts([add] + [w]), [], add, add.path);
  }
}
