/** Image references: parsing, printing, and when printing and parsing again is the identity. */
module Reference {
  import opened Base
  import opened Text

  datatype Selector = Tag(tag: string) | Digest(digest: string)

  datatype RegistryReference = RegistryReference(registry: string, repository: string, selector: Selector)

  datatype ReferenceError = Invalid | InvalidComponent

  // Splitting and joining.

  /** The last position of a character. */
  function RFind(s: string, c: char): (r: Option<nat>)
    ensures r.Some? ==> r.value < |s| && s[r.value] == c
  {
    if s == [] then None else if s[|s| - 1] == c then Some(|s| - 1) else RFind(s[..|s| - 1], c)
  }

  lemma {:induction false} RFindLast(s: string, c: char)
    ensures RFind(s, c).None? <==> c !in s
    ensures RFind(s, c).Some? ==> c !in s[RFind(s, c).value + 1..]
  {
    if s != [] && s[|s| - 1] != c {
      RFindLast(s[..|s| - 1], c);
      assert s == s[..|s| - 1] + [s[|s| - 1]];
    }
  }

  /** The last occurrence is where nothing follows. */
  lemma {:induction false} RFindIs(a: string, c: char, b: string)
    requires c !in b
    ensures RFind(a + [c] + b, c) == Some(|a|)
  {
    var s := a + [c] + b;
    if b == [] {
      assert s[|s| - 1] == c;
    } else {
      var init := b[..|b| - 1];
      assert s[..|s| - 1] == a + [c] + init;
      assert s[|s| - 1] == b[|b| - 1];
      RFindIs(a, c, init);
    }
  }

  /** `split('/')`: always at least one part. */
  function Split(s: string): (parts: seq<string>)
    ensures parts != []
    ensures forall i :: 0 <= i < |parts| ==> '/' !in parts[i]
  {
    if s == [] then [[]]
    else if s[0] == '/' then [[]] + Split(s[1..])
    else
      var rest := Split(s[1..]);
      [[s[0]] + rest[0]] + rest[1..]
  }

  function Join(parts: seq<string>): string
    requires parts != []
  {
    if |parts| == 1 then parts[0] else parts[0] + "/" + Join(parts[1..])
  }

  lemma {:induction false} JoinSplit(s: string)
    ensures Join(Split(s)) == s
  {
    if s != [] {
      JoinSplit(s[1..]);
      var rest := Split(s[1..]);
      if s[0] == '/' {
        assert ([[]] + rest)[1..] == rest;
        assert Join([[]] + rest) == [] + "/" + Join(rest);
      } else {
        var all := [[s[0]] + rest[0]] + rest[1..];
        assert all[1..] == rest[1..];
        if |rest| == 1 {
          assert Join(all) == [s[0]] + rest[0];
        } else {
          assert Join(all) == [s[0]] + rest[0] + "/" + Join(rest[1..]);
        }
      }
    }
  }

  lemma {:induction false} SplitFirst(a: string, b: string)
    requires '/' !in a
    ensures Split(a + "/" + b) == [a] + Split(b)
  {
    var s := a + "/" + b;
    if a == [] {
      assert s[1..] == b;
    } else {
      assert s[1..] == a[1..] + "/" + b;
      assert '/' !in a[1..];
      SplitFirst(a[1..], b);
      assert [a[0]] + a[1..] == a;
      assert ([a[1..]] + Split(b))[1..] == Split(b);
    }
  }

  // Validators.

  predicate IsTagChar(c: char) { IsAlphanumeric(c) || c in ['.', '_', '-'] }

  predicate ValidTag(s: string) { 0 < |s| <= 128 && forall i :: 0 <= i < |s| ==> IsTagChar(s[i]) }

  const SHA := "sha256:"

  predicate ValidDigest(s: string) {
    SHA <= s && |s| == 71 && forall i :: 7 <= i < 71 ==> IsHexDigit(s[i])
  }

  predicate IsRepositoryChar(c: char) { IsLower(c) || IsDigit(c) || c in ['.', '_', '-'] }

  predicate ValidPart(part: string) {
    part != [] && forall i :: 0 <= i < |part| ==> IsRepositoryChar(part[i])
  }

  predicate ValidRepository(s: string) {
    s != [] && forall i :: 0 <= i < |Split(s)| ==> ValidPart(Split(s)[i])
  }

  predicate HasWhitespace(s: string) { exists i :: 0 <= i < |s| && IsWhitespace(s[i]) }

  predicate HasDoubleSlash(s: string) { exists i :: 0 <= i < |s| - 1 && s[i] == '/' && s[i + 1] == '/' }

  // Parsing.

  /** The selector and the name before it. */
  function SplitSelector(s: string): Result<(string, Selector), ReferenceError> {
    var at := RFind(s, '@');
    if at.Some? then
      var name, suffix := s[..at.value], s[at.value + 1..];
      if SHA <= suffix then
        if ValidDigest(suffix) then Ok((name, Digest(SHA + Lower(suffix[7..])))) else Err(InvalidComponent)
      else if ValidTag(suffix) then Ok((name, Tag(suffix))) else Err(InvalidComponent)
    else
      var slash, colon := RFind(s, '/'), RFind(s, ':');
      if colon.Some? && (slash.None? || colon.value > slash.value) then
        var tag := s[colon.value + 1..];
        if ValidTag(tag) then Ok((s[..colon.value], Tag(tag))) else Err(InvalidComponent)
      else Ok((s, Tag("latest")))
  }

  predicate LooksLikeRegistry(part: string) { '.' in part || ':' in part || part == "localhost" }

  const DOCKER := "docker.io"

  function ParseName(name: string, selector: Selector): Result<RegistryReference, ReferenceError> {
    var parts := Split(name);
    if exists i :: 0 <= i < |parts| && parts[i] == [] then Err(Invalid)
    else
      var first := |parts| > 1 && LooksLikeRegistry(parts[0]);
      var registry := if first then Lower(parts[0]) else DOCKER;
      var path := Lower(Join(if first then parts[1..] else parts));
      var repository := if registry == DOCKER && '/' !in path then "library/" + path else path;
      if ValidRepository(repository) then Ok(RegistryReference(registry, repository, selector))
      else Err(Invalid)
  }

  function ParseRegistry(text: string): Result<RegistryReference, ReferenceError> {
    var s := Trim(text);
    if s == [] || HasWhitespace(s) || HasDoubleSlash(s) then Err(Invalid)
    else
      match SplitSelector(s)
      case Err(e) => Err(e)
      case Ok((name, selector)) => if name == [] then Err(Invalid) else ParseName(name, selector)
  }

  function PrintRegistry(r: RegistryReference): string {
    r.registry + "/" + r.repository + PrintSelector(r.selector)
  }

  // What a parsed reference looks like.

  predicate CanonicalSelector(s: Selector) {
    match s
    case Tag(tag) => ValidTag(tag)
    case Digest(digest) => ValidDigest(digest) && Lower(digest) == digest
  }

  predicate Canonical(r: RegistryReference) {
    && r.registry != [] && '/' !in r.registry && !HasWhitespace(r.registry) && Lower(r.registry) == r.registry
    && LooksLikeRegistry(r.registry)
    && ValidRepository(r.repository) && (r.registry == DOCKER ==> '/' in r.repository)
    && CanonicalSelector(r.selector)
  }

  lemma {:induction false} FirstPart(s: string)
    ensures Split(s)[0] <= s
  {
    if s != [] && s[0] != '/' {
      FirstPart(s[1..]);
    }
  }

  lemma LowerKeeps(s: string)
    ensures Lower(Lower(s)) == Lower(s)
    ensures '/' in Lower(s) <==> '/' in s
    ensures '.' in s ==> '.' in Lower(s)
    ensures ':' in s ==> ':' in Lower(s)
    ensures HasWhitespace(Lower(s)) <==> HasWhitespace(s)
  {
    var t := Lower(s);
    forall c | c in ['/', '.', ':'] ensures c in t <==> c in s {
      assert forall i :: 0 <= i < |s| ==> (t[i] == c <==> s[i] == c);
      assert c in s ==> exists i :: 0 <= i < |s| && s[i] == c && t[i] == c;
    }
    assert forall i :: 0 <= i < |s| ==> (IsWhitespace(t[i]) <==> IsWhitespace(s[i]));
  }

  lemma LowerLocalhost()
    ensures Lower("localhost") == "localhost"
  {
  }

  lemma SelectorIsCanonical(s: string)
    ensures var r := SplitSelector(s);
      r.Ok? ==> CanonicalSelector(r.value.1) && r.value.0 <= s
  {
    var at := RFind(s, '@');
    if at.Some? {
      var suffix := s[at.value + 1..];
      if ValidDigest(suffix) {
        var d := SHA + Lower(suffix[7..]);
        assert forall i :: 7 <= i < 71 ==> d[i] == AsciiLower(suffix[i]);
        assert Lower(d) == d;
      }
    }
  }

  lemma PrefixHasNoWhitespace(s: string, p: string)
    requires p <= s && !HasWhitespace(s)
    ensures !HasWhitespace(p)
  {
    assert forall i :: 0 <= i < |p| ==> p[i] == s[i];
  }

  lemma RegistryIsCanonical(part: string)
    requires part != [] && '/' !in part && !HasWhitespace(part) && LooksLikeRegistry(part)
    ensures var r := Lower(part);
      r != [] && '/' !in r && !HasWhitespace(r) && Lower(r) == r && LooksLikeRegistry(r)
  {
    LowerKeeps(part);
    LowerLocalhost();
  }

  /** Every parsed reference is canonical, whatever was typed. */
  lemma ParsedIsCanonical(text: string)
    ensures ParseRegistry(text).Ok? ==> Canonical(ParseRegistry(text).value)
  {
    var s := Trim(text);
    var split := SplitSelector(s);
    if ParseRegistry(text).Ok? {
      SelectorIsCanonical(s);
      var name := split.value.0;
      var parts := Split(name);
      PrefixHasNoWhitespace(s, name);
      FirstPart(name);
      PrefixHasNoWhitespace(name, parts[0]);
      if |parts| > 1 && LooksLikeRegistry(parts[0]) {
        RegistryIsCanonical(parts[0]);
      } else {
        DockerIsCanonical();
      }
    }
  }

  lemma DockerIsCanonical()
    ensures DOCKER != [] && '/' !in DOCKER && !HasWhitespace(DOCKER) && Lower(DOCKER) == DOCKER
    ensures LooksLikeRegistry(DOCKER)
  {
    assert DOCKER[6] == '.';
  }

  // Parsing what was printed.

  predicate IsPathChar(c: char) { IsRepositoryChar(c) || c == '/' }

  /** Parts that are valid make text that starts with no slash and has no two slashes in a row. */
  lemma {:induction false} RepositoryText(s: string)
    requires forall i :: 1 <= i < |Split(s)| ==> ValidPart(Split(s)[i])
    requires forall i :: 0 <= i < |Split(s)[0]| ==> IsRepositoryChar(Split(s)[0][i])
    ensures forall i :: 0 <= i < |s| ==> IsPathChar(s[i])
    ensures !HasDoubleSlash(s) && (Split(s)[0] != [] ==> s != [] && s[0] != '/')
  {
    if s != [] {
      var t := s[1..];
      var rest := Split(t);
      if s[0] == '/' {
        assert Split(s)[1..] == rest;
        assert ValidPart(Split(s)[1]);
        assert forall i :: 1 <= i < |rest| ==> Split(s)[i + 1] == rest[i];
        RepositoryText(t);
      } else {
        assert Split(s)[0][0] == s[0];
        assert Split(s)[0][1..] == rest[0];
        assert forall i :: 1 <= i < |rest| ==> Split(s)[i] == rest[i];
        RepositoryText(t);
      }
      assert forall i :: 0 < i < |s| ==> s[i] == t[i - 1];
    }
  }

  /** The characters after the slash of a printed reference. */
  lemma TailText(r: RegistryReference)
    requires Canonical(r)
    ensures r.repository[0] != '/' && !HasDoubleSlash(r.repository)
    ensures !HasWhitespace(r.repository) && Lower(r.repository) == r.repository
    ensures '@' !in r.repository && ':' !in r.repository
  {
    assert forall i :: 0 <= i < |Split(r.repository)| ==> ValidPart(Split(r.repository)[i]);
    RepositoryText(r.repository);
  }

  function PrintSelector(s: Selector): string {
    match s
    case Tag(tag) => ":" + tag
    case Digest(digest) => "@" + digest
  }

  lemma SelectorText(s: Selector)
    requires CanonicalSelector(s)
    ensures var p := PrintSelector(s);
      !HasWhitespace(p) && '/' !in p && '@' !in p[1..] && (s.Tag? ==> '@' !in p && ':' !in p[1..])
  {
    var p := PrintSelector(s);
    if s.Tag? {
      assert forall i :: 1 <= i < |p| ==> p[i] == s.tag[i - 1];
    } else {
      assert forall i :: 1 <= i < |p| ==> p[i] == s.digest[i - 1];
      assert forall i :: 0 <= i < 7 ==> s.digest[i] == SHA[i];
    }
  }

  predicate IsClean(s: string) { s != [] && Trim(s) == s && !HasWhitespace(s) && !HasDoubleSlash(s) }

  /** A canonical name followed by anything without slashes and whitespace passes the first checks. */
  lemma NameIsClean(r: RegistryReference, c: string)
    requires Canonical(r) && c != [] && !HasWhitespace(c) && '/' !in c
    ensures IsClean(r.registry + "/" + r.repository + c)
  {
    var a, b := r.registry, r.repository;
    var s := a + "/" + b + c;
    TailText(r);
    forall i | 0 <= i < |s| ensures !IsWhitespace(s[i]) {
      if i < |a| {
        assert s[i] == a[i];
      } else if |a| < i <= |a| + |b| {
        assert s[i] == b[i - |a| - 1];
      } else if i > |a| {
        assert s[i] == c[i - |a| - 1 - |b|];
      }
    }
    forall i | 0 <= i < |s| - 1 ensures !(s[i] == '/' && s[i + 1] == '/') {
      if i < |a| {
        assert s[i] == a[i];
      } else if i == |a| {
        assert s[i + 1] == b[0];
      } else if i + 1 <= |a| + |b| {
        assert s[i] == b[i - |a| - 1] && s[i + 1] == b[i - |a|];
      } else {
        assert s[i + 1] == c[i - |a| - |b|];
      }
    }
    TrimNone(s);
  }

  lemma PrintedIsClean(r: RegistryReference)
    requires Canonical(r)
    ensures IsClean(PrintRegistry(r))
  {
    SelectorText(r.selector);
    NameIsClean(r, PrintSelector(r.selector));
  }

  lemma NameReparses(r: RegistryReference)
    requires Canonical(r)
    ensures ParseName(r.registry + "/" + r.repository, r.selector) == Ok(r)
  {
    var name := r.registry + "/" + r.repository;
    var parts := Split(name);
    SplitFirst(r.registry, r.repository);
    JoinSplit(r.repository);
    TailText(r);
    assert parts[1..] == Split(r.repository);
    assert forall i :: 1 <= i < |parts| ==> ValidPart(Split(r.repository)[i - 1]) && parts[i] != [];
  }

  /** The selector is found again, unless a tag follows a registry with an at sign. */
  lemma SelectorReparses(r: RegistryReference)
    requires Canonical(r)
    ensures SplitSelector(PrintRegistry(r)) ==
      if r.selector.Digest? || '@' !in r.registry then Ok((r.registry + "/" + r.repository, r.selector))
      else Err(InvalidComponent)
  {
    match r.selector {
      case Digest(digest) => {
        var name := r.registry + "/" + r.repository;
        SelectorText(r.selector);
        assert PrintSelector(r.selector)[1..] == digest;
        assert PrintRegistry(r) == name + "@" + digest;
        DigestSplits(name, digest);
      }
      case Tag(tag) => TagReparses(r, tag);
    }
  }

  lemma DigestSplits(name: string, digest: string)
    requires ValidDigest(digest) && Lower(digest) == digest && '@' !in digest
    ensures SplitSelector(name + "@" + digest) == Ok((name, Digest(digest)))
  {
    var s := name + ['@'] + digest;
    RFindIs(name, '@', digest);
    assert s[..|name|] == name && s[|name| + 1..] == digest;
    assert digest == SHA + digest[7..];
    assert Lower(digest[7..]) == digest[7..] by {
      assert forall i :: 0 <= i < 64 ==> digest[7..][i] == digest[i + 7] && AsciiLower(digest[i + 7]) == digest[i + 7];
    }
  }

  /** A tag after a name without an at sign: the last colon comes after the last slash. */
  lemma TagSplits(name: string, tag: string)
    requires '@' !in name && ValidTag(tag)
    ensures SplitSelector(name + ":" + tag) == Ok((name, Tag(tag)))
  {
    var s := name + [':'] + tag;
    assert '@' !in tag && ':' !in tag && '/' !in tag;
    assert '@' !in s;
    RFindIs(name, ':', tag);
    assert s[..|name|] == name && s[|name| + 1..] == tag;
    RFindLast(s, '@');
    var slash := RFind(s, '/');
    assert slash.Some? ==> slash.value < |name| by {
      assert forall i :: |name| < i < |s| ==> s[i] == tag[i - |name| - 1];
    }
  }

  /** After the last at sign there is a slash, so the rest is neither a digest nor a tag. */
  lemma SlashAfterAt(before: string, after: string)
    requires '@' !in after && '/' in after
    ensures SplitSelector(before + "@" + after) == Err(InvalidComponent)
  {
    var s := before + ['@'] + after;
    RFindIs(before, '@', after);
    assert s[|before| + 1..] == after;
    SlashIsNoSelector(after);
  }

  lemma SlashIsNoSelector(s: string)
    requires '/' in s
    ensures !ValidTag(s) && !ValidDigest(s)
  {
    var i :| 0 <= i < |s| && s[i] == '/';
    assert !IsTagChar(s[i]) && !IsHexDigit(s[i]);
    assert '/' !in SHA;
    assert SHA <= s ==> forall j :: 0 <= j < 7 ==> s[j] == SHA[j];
  }

  lemma HiddenSelector(registry: string, rest: string)
    requires '@' in registry && '@' !in rest
    ensures SplitSelector(registry + "/" + rest) == Err(InvalidComponent)
  {
    RFindLast(registry, '@');
    var k := RFind(registry, '@').value;
    var before, after := registry[..k], registry[k + 1..] + "/" + rest;
    assert registry + "/" + rest == before + "@" + after;
    assert after[|registry| - k - 1] == '/';
    SlashAfterAt(before, after);
  }

  lemma TagReparses(r: RegistryReference, tag: string)
    requires Canonical(r) && r.selector == Tag(tag)
    ensures SplitSelector(PrintRegistry(r)) ==
      if '@' !in r.registry then Ok((r.registry + "/" + r.repository, r.selector)) else Err(InvalidComponent)
  {
    TailText(r);
    SelectorText(r.selector);
    var p := PrintSelector(r.selector);
    if '@' in r.registry {
      assert PrintRegistry(r) == r.registry + "/" + (r.repository + p);
      HiddenSelector(r.registry, r.repository + p);
    } else {
      var name := r.registry + "/" + r.repository;
      assert PrintRegistry(r) == name + ":" + tag;
      TagSplits(name, tag);
    }
  }

  /** Printing then parsing gives the reference back exactly when the at sign of the registry does not hide a tag. */
  lemma RegistryRoundTrip(r: RegistryReference)
    requires Canonical(r)
    ensures ParseRegistry(PrintRegistry(r)) ==
      if r.selector.Digest? || '@' !in r.registry then Ok(r) else Err(InvalidComponent)
  {
    PrintedIsClean(r);
    SelectorReparses(r);
    NameReparses(r);
  }

  // Texts that parse to a given reference.

  lemma AtTagSplits(name: string, tag: string)
    requires ValidTag(tag)
    ensures SplitSelector(name + "@" + tag) == Ok((name, Tag(tag)))
  {
    var s := name + ['@'] + tag;
    assert '@' !in tag && ':' !in tag;
    RFindIs(name, '@', tag);
    assert s[..|name|] == name && s[|name| + 1..] == tag;
    assert SHA[6] == ':';
  }

  /** A tag may be written after an at sign; this form parses for every registry. */
  lemma AtTagParses(r: RegistryReference)
    requires Canonical(r) && r.selector.Tag?
    ensures ParseRegistry(r.registry + "/" + r.repository + ("@" + r.selector.tag)) == Ok(r)
  {
    var name, tag := r.registry + "/" + r.repository, r.selector.tag;
    var c := "@" + tag;
    assert forall i :: 1 <= i < |c| ==> c[i] == tag[i - 1];
    NameIsClean(r, c);
    assert name + c == name + "@" + tag;
    AtTagSplits(name, tag);
    NameReparses(r);
  }

  /** Leading white space is ignored. */
  lemma LeadingSpaceParses(s: string)
    ensures ParseRegistry([' '] + s) == ParseRegistry(s)
  {
    assert ([' '] + s)[1..] == s;
  }
}
