/** What the names people type stand for: the default registry, the library prefix, the default tag, and case. */
module ReferenceNames {
  import opened Base
  import opened Text
  import opened Reference

  /** How the part after a name is written. */
  datatype Suffix = NoSuffix | ColonTag(tag: string) | AtTag(tag: string) | AtDigest(hex: string)

  predicate ValidSuffix(x: Suffix) {
    match x
    case NoSuffix => true
    case ColonTag(tag) => ValidTag(tag)
    case AtTag(tag) => ValidTag(tag)
    case AtDigest(hex) => |hex| == 64 && forall i :: 0 <= i < 64 ==> IsHexDigit(hex[i])
  }

  function SuffixText(x: Suffix): string {
    match x
    case NoSuffix => ""
    case ColonTag(tag) => ":" + tag
    case AtTag(tag) => "@" + tag
    case AtDigest(hex) => "@" + ("sha256:" + hex)
  }

  /** The tag is `latest` unless one is given, and a digest is in lower case. */
  function Selects(x: Suffix): Selector {
    match x
    case NoSuffix => Tag("latest")
    case ColonTag(tag) => Tag(tag)
    case AtTag(tag) => Tag(tag)
    case AtDigest(hex) => Digest("sha256:" + Lower(hex))
  }

  /** What makes the first part of a name a registry: a dot, a colon, or being `localhost`. */
  predicate IsHost(part: string) {
    part == "localhost" || exists i :: 0 <= i < |part| && (part[i] == '.' || part[i] == ':')
  }

  lemma HostIff(part: string)
    ensures LooksLikeRegistry(part) <==> IsHost(part)
  {
  }

  // Case.

  lemma {:induction false} LowerSplit(s: string)
    ensures |Split(Lower(s))| == |Split(s)|
    ensures forall i :: 0 <= i < |Split(s)| ==> Split(Lower(s))[i] == Lower(Split(s)[i])
  {
    if s != [] {
      var t := Lower(s);
      assert t[1..] == Lower(s[1..]);
      LowerSplit(s[1..]);
      var rest, low := Split(s[1..]), Split(t[1..]);
      assert t[0] == '/' <==> s[0] == '/';
      if s[0] != '/' {
        assert Lower([s[0]] + rest[0]) == [t[0]] + low[0];
      } else {
        assert Lower([]) == [];
      }
    }
  }

  lemma PathCharIs(c: char)
    requires IsPathChar(AsciiLower(c))
    ensures !IsWhitespace(c) && c != '@' && c != ':' && (AsciiLower(c) == '/' <==> c == '/')
  {
  }

  /** The characters of a path that is valid in lower case. */
  lemma PathText(path: string)
    requires ValidRepository(Lower(path))
    ensures path != [] && path[0] != '/' && !HasWhitespace(path) && !HasDoubleSlash(path)
    ensures '@' !in path && ':' !in path
  {
    var low := Lower(path);
    LowText(low);
    forall i | 0 <= i < |path|
      ensures !IsWhitespace(path[i]) && path[i] != '@' && path[i] != ':' && (low[i] == '/' <==> path[i] == '/')
    {
      assert low[i] == AsciiLower(path[i]);
      PathCharIs(path[i]);
    }
  }

  lemma LowText(low: string)
    requires ValidRepository(low)
    ensures low != [] && low[0] != '/' && !HasDoubleSlash(low) && forall i :: 0 <= i < |low| ==> IsPathChar(low[i])
  {
    assert forall i :: 0 <= i < |Split(low)| ==> ValidPart(Split(low)[i]);
    RepositoryText(low);
  }

  lemma PathParts(path: string)
    requires ValidRepository(Lower(path))
    ensures forall i :: 0 <= i < |Split(path)| ==> Split(path)[i] != []
  {
    LowerSplit(path);
    forall i | 0 <= i < |Split(path)| ensures Split(path)[i] != [] {
      assert ValidPart(Split(Lower(path))[i]) && Split(Lower(path))[i] == Lower(Split(path)[i]);
    }
  }

  // The selector.

  lemma SuffixSplits(name: string, x: Suffix)
    requires ValidSuffix(x) && '@' !in name && (x.NoSuffix? ==> NoTag(name))
    ensures SplitSelector(name + SuffixText(x)) == Ok((name, Selects(x)))
  {
    match x
    case NoSuffix =>
      assert name + "" == name;
      RFindLast(name, '@');
    case ColonTag(tag) =>
      assert name + (":" + tag) == name + ":" + tag;
      TagSplits(name, tag);
    case AtTag(tag) => AtSplits(name, tag);
    case AtDigest(hex) => AtDigestSplits(name, hex);
  }

  /** Nothing after the last slash looks like a tag. */
  predicate NoTag(name: string) {
    var slash, colon := RFind(name, '/'), RFind(name, ':');
    colon.None? || (slash.Some? && colon.value < slash.value)
  }

  lemma AtSplits(name: string, tag: string)
    requires ValidTag(tag)
    ensures SplitSelector(name + ("@" + tag)) == Ok((name, Tag(tag)))
  {
    var s := name + ['@'] + tag;
    assert s == name + ("@" + tag);
    assert '@' !in tag && ':' !in tag;
    RFindIs(name, '@', tag);
    assert s[..|name|] == name && s[|name| + 1..] == tag;
    if SHA <= tag {
      DigestHasColon(tag);
    }
  }

  lemma DigestHasColon(s: string)
    requires SHA <= s
    ensures ':' in s
  {
    assert s[6] == SHA[6];
  }

  lemma AtDigestSplits(name: string, hex: string)
    requires |hex| == 64 && forall i :: 0 <= i < 64 ==> IsHexDigit(hex[i])
    ensures SplitSelector(name + ("@" + ("sha256:" + hex))) == Ok((name, Digest("sha256:" + Lower(hex))))
  {
    var digest := SHA + hex;
    var s := name + ['@'] + digest;
    assert s == name + ("@" + digest);
    DigestText(hex);
    RFindIs(name, '@', digest);
    assert s[..|name|] == name && s[|name| + 1..] == digest;
  }

  lemma DigestText(hex: string)
    requires |hex| == 64 && forall i :: 0 <= i < 64 ==> IsHexDigit(hex[i])
    ensures var digest := SHA + hex;
      ValidDigest(digest) && '@' !in digest && digest[7..] == hex
  {
    var digest := SHA + hex;
    assert forall i :: 7 <= i < 71 ==> digest[i] == hex[i - 7];
    assert forall i :: 0 <= i < 7 ==> digest[i] == SHA[i];
  }

  // Clean text.

  lemma CleanText(name: string, x: Suffix)
    requires name != [] && !HasWhitespace(name) && !HasDoubleSlash(name) && name[|name| - 1] != '/' && ValidSuffix(x)
    ensures IsClean(name + SuffixText(x))
  {
    var c := SuffixText(x);
    SuffixChars(x);
    var s := name + c;
    forall i | 0 <= i < |s| ensures !IsWhitespace(s[i]) {
      assert s[i] == if i < |name| then name[i] else c[i - |name|];
    }
    forall i | 0 <= i < |s| - 1 ensures !(s[i] == '/' && s[i + 1] == '/') {
      assert s[i + 1] == if i + 1 < |name| then name[i + 1] else c[i + 1 - |name|];
      assert i < |name| ==> s[i] == name[i];
    }
    TrimNone(s);
  }

  /** No white space and no slash. */
  predicate Tight(s: string) { forall i :: 0 <= i < |s| ==> !IsWhitespace(s[i]) && s[i] != '/' }

  lemma TightCons(c: char, s: string)
    requires Tight(s) && Tight([c])
    ensures Tight([c] + s)
  {
    assert !IsWhitespace([c][0]) && [c][0] != '/';
  }

  lemma TagIsTight(tag: string)
    requires ValidTag(tag)
    ensures Tight(tag)
  {
  }

  lemma DigestIsTight(hex: string)
    requires |hex| == 64 && forall i :: 0 <= i < 64 ==> IsHexDigit(hex[i])
    ensures Tight("sha256:" + hex)
  {
    var d := SHA + hex;
    assert Tight(SHA);
    assert forall i :: 0 <= i < |d| ==> d[i] == if i < 7 then SHA[i] else hex[i - 7];
  }

  lemma SuffixChars(x: Suffix)
    requires ValidSuffix(x)
    ensures Tight(SuffixText(x))
  {
    match x
    case NoSuffix =>
    case ColonTag(tag) => TagIsTight(tag); TightCons(':', tag);
    case AtTag(tag) => TagIsTight(tag); TightCons('@', tag);
    case AtDigest(hex) => DigestIsTight(hex); TightCons('@', "sha256:" + hex);
  }

  /** A slash at the end would be an empty part. */
  lemma {:induction false} NoLastSlash(path: string)
    requires path != [] && forall i :: 0 <= i < |Split(path)| ==> Split(path)[i] != []
    ensures path[|path| - 1] != '/'
  {
    LastPart(path);
  }

  lemma {:induction false} LastPart(s: string)
    ensures s != [] && s[|s| - 1] == '/' ==> Split(s)[|Split(s)| - 1] == []
    ensures |Split(s)| > 0
  {
    if |s| > 1 {
      LastPart(s[1..]);
      assert s[|s| - 1] == s[1..][|s| - 2];
      if s[|s| - 1] == '/' && s[0] != '/' {
        SlashMakesTwo(s[1..]);
      }
    } else if |s| == 1 {
      assert s[1..] == [];
    }
  }

  lemma {:induction false} SlashMakesTwo(s: string)
    requires '/' in s
    ensures |Split(s)| > 1
  {
    if s[0] != '/' {
      assert '/' in s[1..];
      SlashMakesTwo(s[1..]);
    }
  }

  // Names.

  /** A name without a registry: the default one, with the library prefix if it is a single part. */
  lemma DockerName(path: string, selector: Selector)
    requires ValidRepository(Lower(path)) && (|Split(path)| == 1 || !LooksLikeRegistry(Split(path)[0]))
    requires '/' !in path ==> ValidRepository("library/" + Lower(path))
    ensures ParseName(path, selector)
      == Ok(RegistryReference("docker.io", (if '/' in path then "" else "library/") + Lower(path), selector))
  {
    PathText(path);
    PathParts(path);
    JoinSplit(path);
    LowerKeeps(path);
    assert "" + Lower(path) == Lower(path);
  }

  lemma LibraryIsValid(name: string)
    requires ValidPart(name)
    ensures '/' !in name && ValidRepository(name) && ValidRepository("library/" + name)
  {
    assert '/' !in name;
    OnePart(name);
    assert '/' !in "library";
    SplitFirst("library", name);
    assert "library" + "/" + name == "library/" + name;
    assert ValidPart("library");
  }

  lemma {:induction false} OnePart(s: string)
    requires '/' !in s
    ensures Split(s) == [s]
  {
    if s != [] {
      OnePart(s[1..]);
      assert [s[0]] + s[1..] == s;
    }
  }

  /** `python`, `Python:3.12` or `user/name@sha256:…`: a name of the default registry. */
  lemma DefaultRegistry(path: string, x: Suffix)
    requires ValidRepository(Lower(path)) && ValidSuffix(x)
    requires |Split(path)| == 1 || !IsHost(Split(path)[0])
    requires '/' !in path ==> ValidRepository("library/" + Lower(path))
    ensures ParseRegistry(path + SuffixText(x))
      == Ok(RegistryReference("docker.io", (if '/' in path then "" else "library/") + Lower(path), Selects(x)))
  {
    HostIff(Split(path)[0]);
    PathText(path);
    PathParts(path);
    NoLastSlash(path);
    CleanText(path, x);
    RFindLast(path, ':');
    SuffixSplits(path, x);
    DockerName(path, Selects(x));
  }

  /** A single name of the default registry stands for a library image. */
  lemma LibraryName(name: string, x: Suffix)
    requires ValidPart(Lower(name)) && ValidSuffix(x)
    ensures ParseRegistry(name + SuffixText(x))
      == Ok(RegistryReference("docker.io", "library/" + Lower(name), Selects(x)))
  {
    LibraryIsValid(Lower(name));
    LowerKeeps(name);
    OnePart(name);
    DefaultRegistry(name, x);
  }

  /** A first part with a dot, a colon or the name `localhost` is the registry, in lower case. */
  lemma NamedRegistry(host: string, path: string, x: Suffix)
    requires host != [] && '/' !in host && '@' !in host && !HasWhitespace(host) && IsHost(host)
    requires ValidRepository(Lower(path)) && ValidSuffix(x) && (Lower(host) == "docker.io" ==> '/' in path)
    ensures ParseRegistry(host + "/" + path + SuffixText(x))
      == Ok(RegistryReference(Lower(host), Lower(path), Selects(x)))
  {
    var name := host + "/" + path;
    HostIff(host);
    HostText(host, path);
    CleanText(name, x);
    HostHasNoTag(host, path);
    SuffixSplits(name, x);
    HostParses(host, path, Selects(x));
  }

  lemma HostText(host: string, path: string)
    requires host != [] && '/' !in host && '@' !in host && !HasWhitespace(host) && ValidRepository(Lower(path))
    ensures var name := host + "/" + path;
      name != [] && !HasWhitespace(name) && !HasDoubleSlash(name) && name[|name| - 1] != '/' && '@' !in name
  {
    var name := host + "/" + path;
    PathText(path);
    PathParts(path);
    NoLastSlash(path);
    assert name[|name| - 1] == path[|path| - 1];
    forall i | 0 <= i < |name| ensures !IsWhitespace(name[i]) && name[i] != '@' {
      assert name[i] == if i < |host| then host[i] else if i == |host| then '/' else path[i - |host| - 1];
    }
    forall i | 0 <= i < |name| - 1 ensures !(name[i] == '/' && name[i + 1] == '/') {
      if i < |host| {
        assert name[i] == host[i];
      } else if i == |host| {
        assert name[i + 1] == path[0];
      } else {
        assert name[i] == path[i - |host| - 1] && name[i + 1] == path[i - |host|];
      }
    }
  }

  /** A colon of the host stands before the slash, so it begins no tag. */
  lemma HostHasNoTag(host: string, path: string)
    requires '/' !in host && ValidRepository(Lower(path))
    ensures NoTag(host + "/" + path)
  {
    var name := host + "/" + path;
    PathText(path);
    assert name[|host|] == '/';
    FindsAtLeast(name, '/', |host|);
    assert forall i :: |host| < i < |name| ==> name[i] == path[i - |host| - 1];
    FindsBelow(name, ':', |host|);
  }

  lemma {:induction false} FindsAtLeast(s: string, c: char, i: nat)
    requires i < |s| && s[i] == c
    ensures RFind(s, c).Some? && RFind(s, c).value >= i
  {
    if s[|s| - 1] != c {
      FindsAtLeast(s[..|s| - 1], c, i);
    }
  }

  lemma {:induction false} FindsBelow(s: string, c: char, n: nat)
    requires forall i :: n <= i < |s| ==> s[i] != c
    ensures RFind(s, c).None? || RFind(s, c).value < n
  {
    if |s| > n {
      FindsBelow(s[..|s| - 1], c, n);
    }
  }

  lemma HostParses(host: string, path: string, selector: Selector)
    requires host != [] && '/' !in host && LooksLikeRegistry(host) && ValidRepository(Lower(path))
    requires Lower(host) == "docker.io" ==> '/' in path
    ensures ParseName(host + "/" + path, selector) == Ok(RegistryReference(Lower(host), Lower(path), selector))
  {
    var name := host + "/" + path;
    PathParts(path);
    SplitFirst(host, path);
    JoinSplit(path);
    LowerKeeps(path);
    var parts := Split(name);
    assert parts[1..] == Split(path);
    assert forall i :: 1 <= i < |parts| ==> parts[i] == Split(path)[i - 1];
  }
}
