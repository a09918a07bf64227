/**
 Image references of every source: registries, OCI layouts and Docker archives. What is printed
 parses back to the same value, except for registries whose name reads as something else.
 */
module Images {
  import opened Base
  import opened Text
  import opened Digests
  import opened Reference

  datatype ImageReference =
    | Registry(reference: RegistryReference)
    | OciLayout(path: string)
    | DockerArchive(path: string, selector: string)

  const OCI := "oci-layout:"
  const DOCKER_ARCHIVE := "docker-archive:"

  /** A name, a colon after its last slash, and a tag. */
  predicate HasTag(s: string) {
    var slash, colon := RFind(s, '/'), RFind(s, ':');
    colon.Some? && 0 < colon.value < |s| - 1 && (slash.None? || colon.value > slash.value)
  }

  /** `validate_docker_selector`. */
  predicate ValidArchiveSelector(s: string) {
    HasTag(s) && !HasWhitespace(s) && '#' !in s && '@' !in s && '\0' !in s
  }

  function MakeArchive(path: string, selector: string): Result<ImageReference, ReferenceError> {
    if path == [] || !ValidArchiveSelector(selector) then Err(InvalidComponent)
    else Ok(DockerArchive(path, selector))
  }

  function ParseArchive(s: string): Result<ImageReference, ReferenceError> {
    var hash := RFind(s, '#');
    if hash.None? then Err(InvalidComponent) else MakeArchive(s[..hash.value], s[hash.value + 1..])
  }

  function ParseImage(s: string): Result<ImageReference, ReferenceError> {
    if OCI <= s then
      if |s| == |OCI| then Err(InvalidComponent) else Ok(OciLayout(s[|OCI|..]))
    else if DOCKER_ARCHIVE <= s then ParseArchive(s[|DOCKER_ARCHIVE|..])
    else
      match ParseRegistry(s)
      case Ok(r) => Ok(Registry(r))
      case Err(e) => Err(e)
  }

  function PrintImage(i: ImageReference): string {
    match i
    case Registry(r) => PrintRegistry(r)
    case OciLayout(path) => OCI + path
    case DockerArchive(path, selector) => DOCKER_ARCHIVE + (path + ['#'] + selector)
  }

  predicate CanonicalImage(i: ImageReference) {
    match i
    case Registry(r) => Canonical(r)
    case OciLayout(path) => path != []
    case DockerArchive(path, selector) => path != [] && ValidArchiveSelector(selector)
  }

  /** Everything that parses is canonical. */
  lemma ParsedImageIsCanonical(s: string)
    ensures ParseImage(s).Ok? ==> CanonicalImage(ParseImage(s).value)
  {
    if !(OCI <= s) && !(DOCKER_ARCHIVE <= s) {
      ParsedIsCanonical(s);
    }
  }

  /** The printed registry starts like the name of a local source. */
  predicate LooksLocal(s: string) { OCI <= s || DOCKER_ARCHIVE <= s }

  /** What makes a registry reference ambiguous once printed. */
  predicate Ambiguous(i: ImageReference) {
    i.Registry? && (LooksLocal(PrintImage(i)) || (i.reference.selector.Tag? && '@' in i.reference.registry))
  }

  /** Printing then parsing is the identity exactly on the references that are not ambiguous. */
  lemma ImageRoundTrip(i: ImageReference)
    requires CanonicalImage(i)
    ensures ParseImage(PrintImage(i)) == Ok(i) <==> !Ambiguous(i)
  {
    match i
    case Registry(r) => RegistryRoundTrip(r);
    case OciLayout(path) => assert PrintImage(i)[|OCI|..] == path;
    case DockerArchive(path, selector) => ArchiveRoundTrip(path, selector);
  }

  lemma ArchiveRoundTrip(path: string, selector: string)
    requires '#' !in selector
    ensures ParseImage(PrintImage(DockerArchive(path, selector))) == MakeArchive(path, selector)
  {
    ArchiveReparses(path, selector);
    ArchivePrefix(path + ['#'] + selector);
  }

  lemma ArchivePrefix(rest: string)
    ensures ParseImage(DOCKER_ARCHIVE + rest) == ParseArchive(rest)
  {
    var s := DOCKER_ARCHIVE + rest;
    assert s[0] == 'd';
    assert s[|DOCKER_ARCHIVE|..] == rest;
  }

  lemma ArchiveReparses(path: string, selector: string)
    requires '#' !in selector
    ensures ParseArchive(path + ['#'] + selector) == MakeArchive(path, selector)
  {
    var rest := path + ['#'] + selector;
    RFindIs(path, '#', selector);
    assert rest[..|path|] == path && rest[|path| + 1..] == selector;
  }

  // The key of an image record.

  function CanonicalReference(s: string): Result<string, ReferenceError> {
    match ParseImage(s)
    case Ok(i) => Ok(PrintImage(i))
    case Err(e) => Err(e)
  }

  /** Text in the form of a local source prints as it was written. */
  lemma LocalTextIsFixed(s: string)
    requires LooksLocal(s)
    ensures CanonicalReference(s).Ok? ==> CanonicalReference(s) == Ok(s)
  {
    if OCI <= s {
      assert OCI + s[|OCI|..] == s;
    } else {
      var rest := s[|DOCKER_ARCHIVE|..];
      assert DOCKER_ARCHIVE + rest == s;
      ArchiveTextIsFixed(rest);
    }
  }

  lemma ArchiveTextIsFixed(rest: string)
    ensures ParseArchive(rest).Ok? ==> PrintImage(ParseArchive(rest).value) == DOCKER_ARCHIVE + rest
  {
    var hash := RFind(rest, '#');
    if ParseArchive(rest).Ok? {
      var path, selector := rest[..hash.value], rest[hash.value + 1..];
      assert rest == path + ['#'] + selector;
    }
  }

  /** What follows the archive prefix is not a path, a hash sign and a selector. */
  predicate NotAnArchive(rest: string) {
    var hash := RFind(rest, '#');
    hash.None? || hash.value == 0 || !ValidArchiveSelector(rest[hash.value + 1..])
  }

  lemma ArchiveParsesIff(rest: string)
    ensures ParseArchive(rest).Err? <==> NotAnArchive(rest)
  {
  }

  /** The canonical references that no longer parse: a hidden tag, or an archive without its selector. */
  predicate Unreadable(i: ImageReference) {
    var s := PrintImage(i);
    && i.Registry? && !(OCI <= s)
    && if DOCKER_ARCHIVE <= s then NotAnArchive(s[|DOCKER_ARCHIVE|..])
       else i.reference.selector.Tag? && '@' in i.reference.registry
  }

  /** A record written under a canonical reference is accepted when read, exactly when that reference is readable. */
  lemma CanonicalIsStable(text: string)
    requires ParseImage(text).Ok?
    ensures var s := CanonicalReference(text).value;
      CanonicalReference(s) == Ok(s) <==> !Unreadable(ParseImage(text).value)
  {
    var i := ParseImage(text).value;
    var s := PrintImage(i);
    ParsedImageIsCanonical(text);
    ImageRoundTrip(i);
    if i.Registry? && LooksLocal(s) {
      LocalTextIsFixed(s);
      if !(OCI <= s) {
        ArchiveParsesIff(s[|DOCKER_ARCHIVE|..]);
      }
      if OCI <= s {
        PrintedHasSlash(i.reference);
        assert '/' !in OCI;
        assert |s| > |OCI|;
      }
    } else if i.Registry? {
      RegistryRoundTrip(i.reference);
    }
  }

  /** Canonicalizing a canonical reference fails or changes nothing. */
  lemma CanonicalTwice(text: string)
    requires ParseImage(text).Ok?
    ensures var s := CanonicalReference(text).value;
      CanonicalReference(s).Ok? ==> CanonicalReference(s) == Ok(s)
  {
    var i := ParseImage(text).value;
    var s := PrintImage(i);
    ParsedImageIsCanonical(text);
    ImageRoundTrip(i);
    if LooksLocal(s) {
      LocalTextIsFixed(s);
    } else if Ambiguous(i) {
      PrintedIsClean(i.reference);
      SelectorReparses(i.reference);
    }
  }

  lemma PrintedHasSlash(r: RegistryReference)
    ensures '/' in PrintRegistry(r)
  {
    assert PrintRegistry(r)[|r.registry|] == '/';
  }

  /** The digest a reference is pinned to, if it names one. */
  function PinnedDigest(i: ImageReference): Option<string> {
    if i.Registry? && i.reference.selector.Digest? then Some(i.reference.selector.digest) else None
  }

  /** A pinned digest always parses. */
  lemma PinnedParses(s: string)
    requires ParseImage(s).Ok? && PinnedDigest(ParseImage(s).value).Some?
    ensures ParseDigest(PinnedDigest(ParseImage(s).value).value).Some?
  {
    ParsedImageIsCanonical(s);
    ValidDigestParses(PinnedDigest(ParseImage(s).value).value);
  }

  lemma ValidDigestParses(digest: string)
    requires ValidDigest(digest)
    ensures ParseDigest(digest).Some?
  {
    assert forall i :: 0 <= i < 64 ==> digest[7..][i] == digest[i + 7];
    HexParses(digest[7..]);
  }

  lemma {:induction false} HexParses(s: string)
    requires |s| % 2 == 0 && forall i :: 0 <= i < |s| ==> IsHexDigit(s[i])
    ensures Unhex(s).Some?
  {
    if s != [] {
      HexParses(s[..|s| - 2]);
    }
  }

  // The ambiguous families are not empty.

  lemma SplitOne()
    ensures Split("x") == ["x"]
  {
    assert "x"[1..] == [];
    assert Split([]) == [[]];
    assert ['x'] + [] == "x";
  }

  /** Any registry reference without an at sign can be written with a space in front, which hides a local prefix. */
  lemma SpacedRegistryParses(r: RegistryReference)
    requires Canonical(r) && '@' !in r.registry
    ensures ParseImage([' '] + PrintRegistry(r)) == Ok(Registry(r))
  {
    LeadingSpaceParses(PrintRegistry(r));
    RegistryRoundTrip(r);
    assert ([' '] + PrintRegistry(r))[0] == ' ';
  }

  lemma OciPrefix(rest: string)
    requires rest != []
    ensures ParseImage(OCI + rest) == Ok(OciLayout(rest)) && LooksLocal(OCI + rest)
  {
    assert (OCI + rest)[|OCI|..] == rest;
  }

  const OCI_HOST := "oci-layout:5"

  lemma OciHostIsCanonical()
    ensures Canonical(RegistryReference(OCI_HOST, "x", Tag("v1")))
  {
    assert '/' !in OCI_HOST;
    assert !HasWhitespace(OCI_HOST);
    assert Lower(OCI_HOST) == OCI_HOST;
    assert OCI_HOST[10] == ':';
    SplitOne();
  }

  lemma OciHostPrints()
    ensures PrintRegistry(RegistryReference(OCI_HOST, "x", Tag("v1"))) == OCI + "5/x:v1"
  {
    assert OCI_HOST == OCI + "5";
  }

  /** A registry host in capitals that turns into the prefix of an OCI layout. */
  lemma LocalLookingRegistry()
    ensures var i := ImageReference.Registry(RegistryReference(OCI_HOST, "x", Tag("v1")));
      && CanonicalImage(i) && Ambiguous(i)
      && ParseImage([' '] + PrintImage(i)) == Ok(i) && ParseImage(PrintImage(i)) == Ok(OciLayout("5/x:v1"))
  {
    var r := RegistryReference(OCI_HOST, "x", Tag("v1"));
    OciHostIsCanonical();
    SpacedRegistryParses(r);
    OciHostPrints();
    OciPrefix("5/x:v1");
  }

  const USER_HOST := "u@h.io"

  lemma UserHostIsCanonical()
    ensures Canonical(RegistryReference(USER_HOST, "x", Tag("v1"))) && '@' in USER_HOST
  {
    assert '/' !in USER_HOST;
    assert !HasWhitespace(USER_HOST);
    assert Lower(USER_HOST) == USER_HOST;
    assert USER_HOST[1] == '@' && USER_HOST[3] == '.';
    SplitOne();
  }

  lemma NotLocal(s: string)
    requires s != [] && s[0] == 'u'
    ensures !LooksLocal(s)
  {
  }

  /** A reference written with its tag after an at sign parses, but its canonical form does not. */
  lemma HiddenTag()
    ensures var i := ImageReference.Registry(RegistryReference(USER_HOST, "x", Tag("v1")));
      && CanonicalImage(i) && Ambiguous(i) && Unreadable(i)
      && ParseImage(USER_HOST + "/" + "x" + ("@" + "v1")) == Ok(i) && ParseImage(PrintImage(i)) == Err(InvalidComponent)
  {
    var r := RegistryReference(USER_HOST, "x", Tag("v1"));
    UserHostIsCanonical();
    AtTagParses(r);
    RegistryRoundTrip(r);
    NotLocal(PrintRegistry(r));
    NotLocal(USER_HOST + "/" + "x" + ("@" + "v1"));
  }

  // What an archive is asked for.

  /** Text that may stand in a selector. */
  predicate SelectorText(s: string) {
    s != [] && !HasWhitespace(s) && '#' !in s && '@' !in s && '\0' !in s
  }

  /** An archive is named by its path and an image of it by a name and a tag. */
  lemma ArchiveImageParses(path: string, name: string, tag: string)
    requires path != [] && SelectorText(name) && SelectorText(tag) && '/' !in tag && ':' !in tag
    ensures ParseImage("docker-archive:" + (path + ['#'] + (name + ":" + tag)))
      == Ok(DockerArchive(path, name + ":" + tag))
  {
    var selector := name + [':'] + tag;
    assert selector == name + ":" + tag;
    assert forall i :: 0 <= i < |selector| ==>
      selector[i] == if i < |name| then name[i] else if i == |name| then ':' else tag[i - |name| - 1];
    RFindIs(name, ':', tag);
    SlashBefore(selector, |name|);
    assert ValidArchiveSelector(selector);
    ArchiveRoundTrip(path, selector);
  }

  lemma {:induction false} SlashBefore(s: string, n: nat)
    requires n <= |s| && forall i :: n <= i < |s| ==> s[i] != '/'
    ensures RFind(s, '/').None? || RFind(s, '/').value < n
  {
    if |s| > n {
      SlashBefore(s[..|s| - 1], n);
    }
  }
}
