/** Box metadata and the pure checks every Box operation shares. */
module Boxes {
  import opened Base
  import opened Text

  type BoxId = nat
  type CheckpointId = nat

  const SCHEMA_VERSION: nat := 3

  datatype BoxState = Ready | Dirty | NeedsRepair

  datatype Metadata = Metadata(
    schema: nat,
    state: BoxState,
    manifestDigest: string,
    platform: string,
    virtualSize: nat,
    generation: nat,
    name: Option<string>,
    labels: map<string, string>,
    tags: set<string>)

  /** Schemas 1 and 2 are migrated on read, 3 is current, anything else is refused. */
  predicate Supported(m: Metadata) { 1 <= m.schema <= SCHEMA_VERSION }

  /** What reading the metadata yields: a legacy Ready Box cannot be trusted and reads as Dirty. */
  function Migrated(m: Metadata): Metadata
    requires Supported(m)
  {
    if m.schema == SCHEMA_VERSION then m
    else m.(schema := SCHEMA_VERSION, state := if m.state == Ready then Dirty else m.state)
  }

  /** The state a reader acts on. */
  predicate ReadsReady(m: Metadata) { Supported(m) && Migrated(m).state == Ready }

  /** Names are compared ignoring ASCII case; a Box without a name conflicts with none. */
  predicate SameName(a: Option<string>, b: Option<string>) {
    a.Some? && b.Some? && Lower(a.value) == Lower(b.value)
  }

  /** Two characters are the same letter, or the same character. */
  predicate SameLetter(x: char, y: char) {
    x == y || ('A' <= x <= 'Z' && y as int == x as int + 32) || ('A' <= y <= 'Z' && x as int == y as int + 32)
  }

  lemma SameNameIff(a: string, b: string)
    ensures SameName(Some(a), Some(b)) <==> |a| == |b| && forall i :: 0 <= i < |a| ==> SameLetter(a[i], b[i])
  {
    if Lower(a) == Lower(b) {
      forall i | 0 <= i < |a| ensures SameLetter(a[i], b[i]) {
        assert Lower(a)[i] == Lower(b)[i];
      }
    }
    if |a| == |b| && forall i :: 0 <= i < |a| ==> SameLetter(a[i], b[i]) {
      assert forall i :: 0 <= i < |a| ==> Lower(a)[i] == Lower(b)[i];
    }
  }

  const MAX_NAME := 64
  const MAX_LABEL_KEY := 63
  const MAX_LABEL_VALUE := 256
  const MAX_TAG := 63

  predicate ValidIdentifier(s: string, max: nat, allowSlash: bool) {
    && 0 < |s| <= max
    && forall i :: 0 <= i < |s| ==>
         IsAlphanumeric(s[i]) || s[i] in ['.', '_', '-'] || (allowSlash && s[i] == '/')
  }

  predicate ValidName(name: Option<string>) { name.Some? ==> ValidIdentifier(name.value, MAX_NAME, false) }

  predicate ValidLabels(labels: map<string, string>) {
    forall k :: k in labels ==>
      && ValidIdentifier(k, MAX_LABEL_KEY, true)
      && |labels[k]| <= MAX_LABEL_VALUE && Trim(labels[k]) == labels[k]
      && forall i :: 0 <= i < |labels[k]| ==> !IsControl(labels[k][i])
  }

  predicate ValidTags(tags: set<string>) {
    forall t :: t in tags ==> ValidIdentifier(t, MAX_TAG, false)
  }

  /** The checks `read_metadata` makes besides the schema and the size of the disk. */
  predicate ValidFields(m: Metadata) {
    && Trim(m.manifestDigest) != [] && Trim(m.platform) != [] && m.virtualSize != 0
    && ValidName(m.name) && ValidLabels(m.labels) && ValidTags(m.tags)
  }
}
