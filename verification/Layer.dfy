/**
 Application of an OCI layer to a root filesystem tree, entry by entry, and what a whole layer means.

 Files are inodes: a hard link shares one, and nothing ever rewrites one, so the table of inodes only
 grows.
 */
module Layer {
  import opened Base

  type Path = seq<string>

  datatype Node = Dir | File(inode: nat) | Link(target: seq<Component>)

  datatype Component = Normal(name: string) | CurDir | ParentDir | RootDir

  type Tree = map<Path, Node>

  datatype Fs = Fs(tree: Tree, inodes: seq<seq<byte>>)

  function Parent(p: Path): Path
    requires p != []
  {
    p[..|p| - 1]
  }

  /** The root is a directory, everything else lies in a directory, and files name inodes. */
  predicate WellFormed(fs: Fs) {
    && [] in fs.tree && fs.tree[[]] == Dir
    && (forall p :: p in fs.tree && p != [] ==> Parent(p) in fs.tree && fs.tree[Parent(p)] == Dir)
    && (forall p :: p in fs.tree && fs.tree[p].File? ==> fs.tree[p].inode < |fs.inodes|)
  }

  /** What a path shows: nothing, a directory, the bytes of a file, or a link. */
  datatype Shown = Nothing | Directory | Content(bytes: seq<byte>) | LinkTo(target: seq<Component>)

  function Show(fs: Fs, p: Path): Shown {
    if p !in fs.tree then Nothing else
      match fs.tree[p]
      case Dir => Directory
      case File(i) => if i < |fs.inodes| then Content(fs.inodes[i]) else Nothing
      case Link(t) => LinkTo(t)
  }

  datatype LayerError =
    | UnsafePath | SymlinkParent(path: Path) | UnsafeLink | MissingLinkTarget | UnsupportedEntryType
    | EntryLimit | FileSizeLimit | ExpandedLimit | NotADirectory | NoLinkTarget | NotRemovable

  // Changes to the tree.

  /** `q` is `p` or lies below it. */
  predicate Under(p: Path, q: Path) { |p| <= |q| && q[..|p|] == p }

  predicate Below(p: Path, q: Path) { |p| < |q| && q[..|p|] == p }

  /** `remove_existing`: the path and everything below it. */
  function Removed(t: Tree, p: Path): Tree { map q | q in t && !Under(p, q) :: t[q] }

  /** Removes the children of a directory. */
  function Emptied(t: Tree, p: Path): Tree { map q | q in t && !Below(p, q) :: t[q] }

  /** `ensure_safe_parents`, from the k-th component on. */
  function Ensured(t: Tree, dir: Path, k: nat): Result<Tree, LayerError>
    requires k <= |dir|
    decreases |dir| - k
  {
    if k == |dir| then Ok(t) else
      var current := dir[..k + 1];
      if current !in t then Ensured(t[current := Dir], dir, k + 1)
      else
        match t[current]
        case Link(_) => Err(SymlinkParent(current))
        case File(_) => Ensured(Removed(t, current)[current := Dir], dir, k + 1)
        case Dir => Ensured(t, dir, k + 1)
  }

  /** Below a path that is not a directory there is nothing. */
  lemma {:induction false} NothingBelow(fs: Fs, p: Path, q: Path)
    requires WellFormed(fs) && (p !in fs.tree || fs.tree[p] != Dir) && Below(p, q)
    ensures q !in fs.tree
    decreases |q|
  {
    if |p| < |Parent(q)| {
      assert Parent(q)[..|p|] == p;
      NothingBelow(fs, p, Parent(q));
    } else {
      assert Parent(q) == p;
    }
  }

  /** Making one directory, in place of nothing or of a file. */
  lemma MadeDirectory(fs: Fs, p: Path, t: Tree)
    requires WellFormed(fs) && p != [] && Parent(p) in fs.tree && fs.tree[Parent(p)] == Dir
    requires p !in fs.tree || fs.tree[p] != Dir
    requires t == Removed(fs.tree, p)[p := Dir] || (p !in fs.tree && t == fs.tree[p := Dir])
    ensures WellFormed(Fs(t, fs.inodes))
    ensures forall q :: Show(Fs(t, fs.inodes), q) == if q == p then Directory else Show(fs, q)
  {
    forall q | q in fs.tree && q != p
      ensures !Under(p, q)
    {
      if Below(p, q) {
        NothingBelow(fs, p, q);
        assert false;
      }
    }
    assert forall q :: q != p ==> (q in t <==> q in fs.tree) && (q in t ==> t[q] == fs.tree[q]);
    assert forall q :: q in t && q != [] && q != p ==> Parent(q) in fs.tree && Parent(q) != p;
  }

  /** Making the directories of a path turns its prefixes into directories and touches nothing else. */
  lemma {:induction false} EnsuredShows(fs: Fs, dir: Path, k: nat)
    requires WellFormed(fs) && k <= |dir| && Ensured(fs.tree, dir, k).Ok?
    requires dir[..k] in fs.tree && fs.tree[dir[..k]] == Dir
    ensures var t := Fs(Ensured(fs.tree, dir, k).value, fs.inodes);
            && WellFormed(t)
            && forall q :: Show(t, q) == if k < |q| && Under(q, dir) then Directory else Show(fs, q)
    decreases |dir| - k
  {
    if k < |dir| {
      var current := dir[..k + 1];
      assert Parent(current) == dir[..k];
      if current in fs.tree && fs.tree[current] == Dir {
        EnsuredShows(fs, dir, k + 1);
        assert Show(fs, current) == Directory;
      } else {
        var t := if current !in fs.tree then fs.tree[current := Dir] else Removed(fs.tree, current)[current := Dir];
        MadeDirectory(fs, current, t);
        EnsuredShows(Fs(t, fs.inodes), dir, k + 1);
      }
    }
  }

  // Entries of a layer.

  datatype Kind =
    | Regular(bytes: seq<byte>)
    | DirectoryEntry
    | Symlink(target: Option<seq<Component>>)
    | HardLink(target: Option<seq<Component>>)
    | Unsupported

  datatype Entry = Entry(path: seq<Component>, kind: Kind, size: nat)

  /** `validated_path`: only normal components remain, and going up or absolute is refused. */
  function Validated(cs: seq<Component>): Result<Path, LayerError> {
    if cs == [] then Ok([]) else
      match Validated(cs[..|cs| - 1])
      case Err(e) => Err(e)
      case Ok(p) =>
        match cs[|cs| - 1]
        case Normal(name) => Ok(p + [name])
        case CurDir => Ok(p)
        case _ => Err(UnsafePath)
  }

  const WHITEOUT := ".wh."
  const OPAQUE := ".wh..wh..opq"

  predicate IsWhiteout(p: Path) { p != [] && WHITEOUT <= p[|p| - 1] }

  /** What one entry does to the tree, where it succeeds. */
  datatype Change =
    | NoChange
    | Whiteout(path: Path)
    | Opaque(path: Path)
    | MakeDir(path: Path)
    | Put(path: Path, shown: Shown)
    | LinkCopy(path: Path, source: Path)

  function ChangeOf(e: Entry): Change {
    match Validated(e.path)
    case Err(_) => NoChange
    case Ok(p) =>
      if p == [] then NoChange
      else if IsWhiteout(p) then
        var name := p[|p| - 1];
        if name == OPAQUE then Opaque(Parent(p)) else Whiteout(Parent(p) + [name[|WHITEOUT|..]])
      else UnpackedAs(p, e.kind)
  }

  /** What the unpacking of an entry of this kind does. */
  function UnpackedAs(p: Path, kind: Kind): Change {
    match kind
    case Regular(bytes) => Put(p, Content(bytes))
    case DirectoryEntry => MakeDir(p)
    case Symlink(Some(target)) => Put(p, LinkTo(target))
    case HardLink(Some(target)) =>
      (match Validated(target) case Ok(source) => LinkCopy(p, source) case Err(_) => NoChange)
    case _ => NoChange
  }

  /** What a path shows after a change, given what it and the change's source showed before. */
  function Verdict(c: Change, q: Path, here: Shown, source: Shown): Shown {
    match c
    case NoChange => here
    case Whiteout(p) =>
      if Under(p, q) then Nothing else if p != [] && Under(q, Parent(p)) then Directory else here
    case Opaque(p) => if Below(p, q) then Nothing else if Under(q, p) then Directory else here
    case MakeDir(p) => if Under(q, p) then Directory else here
    case Put(p, shown) =>
      if q == p then shown else if Below(p, q) then Nothing else if Below(q, p) then Directory else here
    case LinkCopy(p, from) =>
      if q == p then source else if Below(p, q) then Nothing
      else if Below(q, p) || Below(q, from) then Directory else here
  }

  function SourceOf(c: Change): Path { if c.LinkCopy? then c.source else [] }

  // Links.

  /** `validate_link` walks the target and never lets the depth fall below the root. */
  function Depth(target: seq<Component>, depth: nat, symlink: bool): Option<nat> {
    if target == [] then Some(depth) else
      match target[0]
      case Normal(_) => Depth(target[1..], depth + 1, symlink)
      case CurDir => Depth(target[1..], depth, symlink)
      case ParentDir => if depth > 0 then Depth(target[1..], depth - 1, symlink) else None
      case RootDir => if symlink then Depth(target[1..], depth, symlink) else None
  }

  predicate Absolute(target: seq<Component>) { target != [] && target[0] == RootDir }

  function LinkError(kind: Kind, p: Path): Option<LayerError>
    requires p != []
  {
    match kind
    case Symlink(None) => Some(MissingLinkTarget)
    case HardLink(None) => Some(MissingLinkTarget)
    case Symlink(Some(t)) =>
      if Depth(t, if Absolute(t) then 0 else |Parent(p)|, true).Some? then None else Some(UnsafeLink)
    case HardLink(Some(t)) =>
      if Absolute(t) || Depth(t, 0, false).None? then Some(UnsafeLink) else None
    case _ => None
  }

  /** Where a link leads, read from a directory; None if it climbs above the root. */
  function Lead(from: Path, target: seq<Component>): Option<Path>
    decreases |target|
  {
    if target == [] then Some(from) else
      match target[0]
      case Normal(name) => Lead(from + [name], target[1..])
      case CurDir => Lead(from, target[1..])
      case ParentDir => if from == [] then None else Lead(Parent(from), target[1..])
      case RootDir => Lead([], target[1..])
  }

  /** A RootDir component can only come first. */
  predicate Proper(target: seq<Component>) { forall i :: 0 < i < |target| ==> target[i] != RootDir }

  lemma {:induction false} DepthIsLead(from: Path, target: seq<Component>)
    requires forall i :: 0 <= i < |target| ==> target[i] != RootDir
    ensures Depth(target, |from|, true).Some? <==> Lead(from, target).Some?
    decreases |target|
  {
    if target != [] {
      match target[0]
      case Normal(name) => DepthIsLead(from + [name], target[1..]);
      case CurDir => DepthIsLead(from, target[1..]);
      case ParentDir => if from != [] { DepthIsLead(Parent(from), target[1..]); }
      case RootDir =>
    }
  }

  /** A symlink is accepted exactly when, read from its directory, it stays inside the root. */
  lemma SymlinkStaysInside(p: Path, target: seq<Component>)
    requires p != [] && Proper(target)
    ensures LinkError(Symlink(Some(target)), p).None? <==> Lead(Parent(p), target).Some?
  {
    if Absolute(target) {
      DepthIsLead([], target[1..]);
    } else {
      DepthIsLead(Parent(p), target);
    }
  }

  // One entry.

  /** The names of the directory itself and of the directory above it. The model refuses to remove these. */
  predicate IsDots(name: string) { name == "." || name == ".." }

  /** What a whiteout file name names once its prefix is gone. */
  function Stripped(p: Path): string
    requires IsWhiteout(p)
  {
    p[|p| - 1][|WHITEOUT|..]
  }

  function ComponentOf(name: string): Component {
    if name == "." then CurDir else if name == ".." then ParentDir else Normal(name)
  }

  lemma LeadOne(from: Path, name: string)
    ensures Lead(from, [ComponentOf(name)]) ==
      if name == "." then Some(from)
      else if name == ".." then (if from == [] then None else Some(Parent(from)))
      else Some(from + [name])
  {
    var c := ComponentOf(name);
    assert [c][0] == c && [c][1..] == [];
    assert forall q :: Lead(q, []) == Some(q);
  }

  /** The path that a whiteout joins to its directory, resolved; None if it is outside the root. */
  function WhiteoutTarget(p: Path): Option<Path>
    requires IsWhiteout(p)
  {
    Lead(Parent(p), [ComponentOf(Stripped(p))])
  }

  /** A whiteout stays inside its directory exactly when it names neither `.` nor `..`. */
  lemma WhiteoutStaysInside(p: Path)
    requires IsWhiteout(p)
    ensures WhiteoutTarget(p).Some? && Below(Parent(p), WhiteoutTarget(p).value) <==> !IsDots(Stripped(p))
    ensures !IsDots(Stripped(p)) ==> WhiteoutTarget(p) == Some(Parent(p) + [Stripped(p)])
  {
    LeadOne(Parent(p), Stripped(p));
  }

  const PARENT_WHITEOUT := ".wh..."

  /** The other case exists: the file `.wh...` names the directory above its own, which may be outside the root. */
  lemma ParentWhiteoutLeaves(dir: Path)
    ensures var p := dir + [PARENT_WHITEOUT];
      && IsWhiteout(p) && Stripped(p) == ".."
      && WhiteoutTarget(p) == if dir == [] then None else Some(Parent(dir))
  {
    var p := dir + [PARENT_WHITEOUT];
    assert Parent(p) == dir && p[|p| - 1] == PARENT_WHITEOUT;
    assert WHITEOUT <= PARENT_WHITEOUT && PARENT_WHITEOUT[|WHITEOUT|..] == "..";
    LeadOne(dir, "..");
  }

  /** A whiteout that is accepted removes what it names, in its own directory. */
  lemma AcceptedWhiteoutStaysInside(fs: Fs, p: Path)
    requires IsWhiteout(p) && WhitedOut(fs, p).Ok? && p[|p| - 1] != OPAQUE
    ensures Ensured(fs.tree, Parent(p), 0).Ok?
    ensures WhiteoutTarget(p).Some? && Below(Parent(p), WhiteoutTarget(p).value)
    ensures var t := Ensured(fs.tree, Parent(p), 0).value;
      WhitedOut(fs, p).value == Fs(Removed(t, WhiteoutTarget(p).value), fs.inodes)
  {
    WhiteoutStaysInside(p);
  }

  function WhitedOut(fs: Fs, p: Path): Result<Fs, LayerError>
    requires IsWhiteout(p)
  {
    var name := p[|p| - 1];
    match Ensured(fs.tree, Parent(p), 0)
    case Err(e) => Err(e)
    case Ok(t) =>
      if name == OPAQUE then Ok(Fs(Emptied(t, Parent(p)), fs.inodes))
      else if |name| == |WHITEOUT| then Err(UnsafePath)
      else if IsDots(name[|WHITEOUT|..]) then Err(NotRemovable)
      else Ok(Fs(Removed(t, Parent(p) + [name[|WHITEOUT|..]]), fs.inodes))
  }

  function Linked(fs: Fs, t: Tree, p: Path, target: seq<Component>): Result<Fs, LayerError> {
    match Validated(target)
    case Err(e) => Err(e)
    case Ok(source) =>
      match Ensured(t, if source == [] then [] else Parent(source), 0)
      case Err(e) => Err(e)
      case Ok(u) =>
        var cut := Removed(u, p);
        if source in cut && cut[source] != Dir then Ok(Fs(cut[p := cut[source]], fs.inodes))
        else Err(NoLinkTarget)
  }

  /** `entry.unpack` at a path whose parents are directories. */
  function Unpacked(fs: Fs, t: Tree, p: Path, kind: Kind): Result<Fs, LayerError> {
    match kind
    case HardLink(Some(target)) => Linked(fs, t, p, target)
    case DirectoryEntry =>
      if p !in t then Ok(Fs(t[p := Dir], fs.inodes))
      else if t[p] == Dir then Ok(Fs(t, fs.inodes)) else Err(NotADirectory)
    case Regular(bytes) => Ok(Fs(Removed(t, p)[p := File(|fs.inodes|)], fs.inodes + [bytes]))
    case Symlink(Some(target)) => Ok(Fs(Removed(t, p)[p := Link(target)], fs.inodes))
    case _ => Err(UnsupportedEntryType)
  }

  function Applied(fs: Fs, e: Entry): Result<Fs, LayerError> {
    match Validated(e.path)
    case Err(err) => Err(err)
    case Ok(p) =>
      if p == [] then Ok(fs)
      else if IsWhiteout(p) then WhitedOut(fs, p)
      else if e.kind.Unsupported? then Err(UnsupportedEntryType)
      else
        match Ensured(fs.tree, Parent(p), 0)
        case Err(err) => Err(err)
        case Ok(t) =>
          var bad := LinkError(e.kind, p);
          if bad.Some? then Err(bad.value) else Unpacked(fs, t, p, e.kind)
  }

  // What one entry does.

  lemma ParentsShow(fs: Fs, dir: Path)
    requires WellFormed(fs) && Ensured(fs.tree, dir, 0).Ok?
    ensures var t := Fs(Ensured(fs.tree, dir, 0).value, fs.inodes);
            && WellFormed(t) && dir in t.tree && t.tree[dir] == Dir
            && forall q :: Show(t, q) == if Under(q, dir) then Directory else Show(fs, q)
  {
    assert dir[..0] == [];
    EnsuredShows(fs, dir, 0);
    assert Show(Fs(Ensured(fs.tree, dir, 0).value, fs.inodes), dir) == Directory;
  }

  lemma RemovedShows(fs: Fs, p: Path)
    requires WellFormed(fs) && p != []
    ensures WellFormed(Fs(Removed(fs.tree, p), fs.inodes))
    ensures forall q :: Show(Fs(Removed(fs.tree, p), fs.inodes), q) == if Under(p, q) then Nothing else Show(fs, q)
  {
    var t := Removed(fs.tree, p);
    forall q | q in t && q != []
      ensures Parent(q) in t && t[Parent(q)] == Dir
    {
      assert Under(p, Parent(q)) ==> Under(p, q);
    }
  }

  lemma EmptiedShows(fs: Fs, p: Path)
    requires WellFormed(fs)
    ensures WellFormed(Fs(Emptied(fs.tree, p), fs.inodes))
    ensures forall q :: Show(Fs(Emptied(fs.tree, p), fs.inodes), q) == if Below(p, q) then Nothing else Show(fs, q)
  {
    var t := Emptied(fs.tree, p);
    forall q | q in t && q != []
      ensures Parent(q) in t && t[Parent(q)] == Dir
    {
      assert Below(p, Parent(q)) ==> Below(p, q);
    }
  }

  /** Putting a node where nothing is, in a directory. */
  lemma PlacedShows(fs: Fs, p: Path, node: Node, inodes: seq<seq<byte>>)
    requires WellFormed(fs) && p != [] && Parent(p) in fs.tree && fs.tree[Parent(p)] == Dir
    requires p !in fs.tree && fs.inodes <= inodes && (node.File? ==> node.inode < |inodes|)
    ensures var t := Fs(fs.tree[p := node], inodes);
            && WellFormed(t)
            && forall q :: q != p ==> Show(t, q) == Show(fs, q)
  {
    assert forall i :: 0 <= i < |fs.inodes| ==> inodes[i] == fs.inodes[i];
  }

  lemma WhitedOutShows(fs: Fs, p: Path, q: Path)
    requires WellFormed(fs) && IsWhiteout(p) && WhitedOut(fs, p).Ok?
    ensures WellFormed(WhitedOut(fs, p).value)
    ensures var name := p[|p| - 1];
            var c := if name == OPAQUE then Opaque(Parent(p)) else Whiteout(Parent(p) + [name[|WHITEOUT|..]]);
            Show(WhitedOut(fs, p).value, q) == Verdict(c, q, Show(fs, q), Nothing)
  {
    var name := p[|p| - 1];
    ParentsShow(fs, Parent(p));
    var t := Fs(Ensured(fs.tree, Parent(p), 0).value, fs.inodes);
    if name == OPAQUE {
      EmptiedShows(t, Parent(p));
    } else {
      var target := Parent(p) + [name[|WHITEOUT|..]];
      assert Parent(target) == Parent(p);
      RemovedShows(t, target);
    }
  }

  /** A new file or link replaces what was there, with everything below it. */
  lemma ReplacedShows(fs: Fs, p: Path, node: Node, inodes: seq<seq<byte>>, q: Path)
    requires WellFormed(fs) && p != [] && Ensured(fs.tree, Parent(p), 0).Ok?
    requires fs.inodes <= inodes && node != Dir && (node.File? ==> node.inode < |inodes|)
    ensures var u := Fs(Removed(Ensured(fs.tree, Parent(p), 0).value, p)[p := node], inodes);
            && WellFormed(u)
            && Show(u, q) == Verdict(Put(p, Show(u, p)), q, Show(fs, q), Nothing)
  {
    ParentsShow(fs, Parent(p));
    var t := Fs(Ensured(fs.tree, Parent(p), 0).value, fs.inodes);
    RemovedShows(t, p);
    assert !Under(p, Parent(p));
    PlacedShows(Fs(Removed(t.tree, p), fs.inodes), p, node, inodes);
    assert Below(q, p) <==> Under(q, Parent(p));
  }

  lemma DirectoryShows(fs: Fs, p: Path, q: Path)
    requires WellFormed(fs) && p != [] && Ensured(fs.tree, Parent(p), 0).Ok?
    requires Unpacked(fs, Ensured(fs.tree, Parent(p), 0).value, p, DirectoryEntry).Ok?
    ensures var u := Unpacked(fs, Ensured(fs.tree, Parent(p), 0).value, p, DirectoryEntry).value;
            WellFormed(u) && Show(u, q) == Verdict(MakeDir(p), q, Show(fs, q), Nothing)
  {
    ParentsShow(fs, Parent(p));
    var t := Fs(Ensured(fs.tree, Parent(p), 0).value, fs.inodes);
    if p !in t.tree {
      PlacedShows(t, p, Dir, fs.inodes);
    }
    assert Under(q, p) <==> q == p || Under(q, Parent(p));
    assert Show(t, p) == Show(fs, p);
  }

  /** A hard link shows what its source showed, as a copy would. */
  lemma LinkedShows(fs: Fs, p: Path, target: seq<Component>, q: Path)
    requires WellFormed(fs) && p != [] && Ensured(fs.tree, Parent(p), 0).Ok?
    requires Linked(fs, Ensured(fs.tree, Parent(p), 0).value, p, target).Ok?
    ensures var u := Linked(fs, Ensured(fs.tree, Parent(p), 0).value, p, target).value;
            var source := Validated(target).value;
            && WellFormed(u)
            && Show(u, q) == Verdict(LinkCopy(p, source), q, Show(fs, q), Show(fs, source))
  {
    var source := Validated(target).value;
    var t := Fs(Ensured(fs.tree, Parent(p), 0).value, fs.inodes);
    ParentsShow(fs, Parent(p));
    var above := if source == [] then [] else Parent(source);
    ParentsShow(t, above);
    var u := Fs(Ensured(t.tree, above, 0).value, fs.inodes);
    RemovedShows(u, p);
    var cut := Fs(Removed(u.tree, p), fs.inodes);
    LinkSourceKept(fs, t, u, p, source);
    PlacedShows(cut, p, cut.tree[source], fs.inodes);
    LinkVerdict(fs, t, u, cut, p, source, q);
  }

  /** A source that is still there and no directory was not touched on the way. */
  lemma LinkSourceKept(fs: Fs, t: Fs, u: Fs, p: Path, source: Path)
    requires p != [] && source in Removed(u.tree, p) && u.tree[source] != Dir
    requires WellFormed(u) && Parent(p) in t.tree && t.tree[Parent(p)] == Dir
    requires forall q :: Show(t, q) == if Under(q, Parent(p)) then Directory else Show(fs, q)
    requires forall q :: Show(u, q) == if source != [] && Under(q, Parent(source)) then Directory else Show(t, q)
    ensures source != [] && source != p && Show(u, source) == Show(fs, source)
    ensures Parent(p) in Removed(u.tree, p) && u.tree[Parent(p)] == Dir
  {
    assert source != [] by { assert u.tree[[]] == Dir; }
    assert Show(u, source) != Directory;
    assert !Under(source, Parent(source));
    assert Show(t, Parent(p)) == Directory && Show(u, Parent(p)) == Directory;
    assert !Under(p, Parent(p));
  }

  lemma LinkVerdict(fs: Fs, t: Fs, u: Fs, cut: Fs, p: Path, source: Path, q: Path)
    requires p != [] && source != [] && source != p && source in cut.tree && p !in cut.tree
    requires Show(t, q) == if Under(q, Parent(p)) then Directory else Show(fs, q)
    requires Show(u, q) == if Under(q, Parent(source)) then Directory else Show(t, q)
    requires Show(cut, q) == if Under(p, q) then Nothing else Show(u, q)
    requires cut.inodes == fs.inodes && cut.tree[source] != Dir && Show(cut, source) == Show(fs, source)
    ensures Show(Fs(cut.tree[p := cut.tree[source]], fs.inodes), q)
         == Verdict(LinkCopy(p, source), q, Show(fs, q), Show(fs, source))
  {
    assert Below(q, p) <==> Under(q, Parent(p));
    assert Below(q, source) <==> Under(q, Parent(source));
    assert Under(p, q) <==> q == p || Below(p, q);
  }

  /** One entry, if it succeeds, does at every path what its change says. */
  lemma EntryMeaning(fs: Fs, e: Entry, q: Path)
    requires WellFormed(fs) && Applied(fs, e).Ok?
    ensures WellFormed(Applied(fs, e).value) && fs.inodes <= Applied(fs, e).value.inodes
    ensures Show(Applied(fs, e).value, q)
         == Verdict(ChangeOf(e), q, Show(fs, q), Show(fs, SourceOf(ChangeOf(e))))
  {
    var p := Validated(e.path).value;
    if p != [] && IsWhiteout(p) {
      WhitedOutShows(fs, p, q);
    } else if p != [] {
      AdditionMeaning(fs, e, p, q);
    }
  }

  /** An addition that succeeds is unpacked below parents that are directories. */
  lemma AdditionUnpacks(fs: Fs, e: Entry, p: Path)
    requires Applied(fs, e).Ok? && Validated(e.path) == Ok(p) && p != [] && !IsWhiteout(p)
    ensures Ensured(fs.tree, Parent(p), 0).Ok?
    ensures Applied(fs, e) == Unpacked(fs, Ensured(fs.tree, Parent(p), 0).value, p, e.kind)
    ensures ChangeOf(e) == UnpackedAs(p, e.kind)
  {
  }

  lemma AdditionMeaning(fs: Fs, e: Entry, p: Path, q: Path)
    requires WellFormed(fs) && Applied(fs, e).Ok?
    requires Validated(e.path) == Ok(p) && p != [] && !IsWhiteout(p)
    ensures WellFormed(Applied(fs, e).value) && fs.inodes <= Applied(fs, e).value.inodes
    ensures Show(Applied(fs, e).value, q)
         == Verdict(ChangeOf(e), q, Show(fs, q), Show(fs, SourceOf(ChangeOf(e))))
  {
    AdditionUnpacks(fs, e, p);
    UnpackedMeaning(fs, p, e.kind, q);
  }

  lemma UnpackedMeaning(fs: Fs, p: Path, kind: Kind, q: Path)
    requires WellFormed(fs) && p != [] && Ensured(fs.tree, Parent(p), 0).Ok?
    requires Unpacked(fs, Ensured(fs.tree, Parent(p), 0).value, p, kind).Ok?
    ensures var u, c := Unpacked(fs, Ensured(fs.tree, Parent(p), 0).value, p, kind).value, UnpackedAs(p, kind);
            && WellFormed(u) && fs.inodes <= u.inodes
            && Show(u, q) == Verdict(c, q, Show(fs, q), Show(fs, SourceOf(c)))
  {
    match kind
    case Regular(bytes) => ReplacedShows(fs, p, File(|fs.inodes|), fs.inodes + [bytes], q);
    case Symlink(Some(target)) => ReplacedShows(fs, p, Link(target), fs.inodes, q);
    case DirectoryEntry => DirectoryShows(fs, p, q);
    case HardLink(Some(target)) => LinkedShows(fs, p, target, q);
    case _ =>
  }
}
