/** Printing authentication parameters and challenges, and parsing them back. */
module AuthRoundTrip {
  import opened Base
  import opened Auth

  /** The text of a quoted string: quotes and backslashes are escaped. */
  function Escape(value: seq<byte>): seq<byte> {
    if value == [] then []
    else
      var x := value[0];
      (if x == QUOTE || x == BACKSLASH then [BACKSLASH, x] else [x]) + Escape(value[1..])
  }

  function PrintParam(p: Param): seq<byte> { p.key + [EQUALS, QUOTE] + Escape(p.value) + [QUOTE] }

  /** Parameters joined by commas. */
  function Print(params: seq<Param>): seq<byte> {
    if params == [] then []
    else if |params| == 1 then PrintParam(params[0])
    else PrintParam(params[0]) + [COMMA] + Print(params[1..])
  }

  /** A lower-case token as the key, and text without line ends as the value. */
  predicate Printable(p: Param) {
    IsKey(p.key) && Utf8.Valid(p.value) && NoLineEnd(p.value)
  }

  // A text read at an offset.

  /** The part stands at an offset of the text. */
  predicate At(b: seq<byte>, i: nat, part: seq<byte>) {
    i + |part| <= |b| && forall k :: i <= k < i + |part| ==> b[k] == part[k - i]
  }

  lemma AtConcat(b: seq<byte>, i: nat, s: seq<byte>, t: seq<byte>)
    requires At(b, i, s + t)
    ensures At(b, i, s) && At(b, i + |s|, t)
  {
    var u := s + t;
    assert forall j :: 0 <= j < |s| ==> u[j] == s[j];
    assert forall j :: 0 <= j < |t| ==> u[|s| + j] == t[j];
  }

  lemma {:induction false} SkipTo(b: seq<byte>, i: nat, j: nat, p: byte -> bool)
    requires i <= j <= |b| && (forall k :: i <= k < j ==> p(b[k])) && (j < |b| ==> !p(b[j]))
    ensures Skip(b, i, p) == j
    decreases j - i
  {
    if i < j {
      SkipTo(b, i + 1, j, p);
    }
  }

  predicate NoLineEnd(value: seq<byte>) { forall i :: 0 <= i < |value| ==> !IsLineEnd(value[i]) }

  /** A printed quoted string is read back, wherever it stands. */
  lemma {:induction false} QuotedReads(b: seq<byte>, i: nat, value: seq<byte>, decoded: seq<byte>)
    requires NoLineEnd(value) && At(b, i, Escape(value)) && At(b, i + |Escape(value)|, [QUOTE])
    ensures Quoted(b, i, decoded) == Ok((decoded + value, i + |Escape(value)| + 1))
    decreases |value|
  {
    if value == [] {
      assert b[i] == QUOTE;
      assert decoded + value == decoded;
    } else {
      var x, tail := value[0], value[1..];
      var head := if x == QUOTE || x == BACKSLASH then [BACKSLASH, x] else [x];
      AtConcat(b, i, head, Escape(tail));
      assert b[i] == head[0] && (|head| == 2 ==> b[i + 1] == x);
      QuotedReads(b, i + |head|, tail, decoded + [x]);
      assert decoded + [x] + tail == decoded + value;
    }
  }

  /** The offset is the end of the text or of a parameter. */
  predicate EndsAt(b: seq<byte>, n: nat) { n == |b| || (n < |b| && b[n] == COMMA) }

  /** A parameter is read part by part: its key up to `m`, the equals sign at `e` and the value at `v`. */
  lemma PartsRead(b: seq<byte>, k: nat, m: nat, e: nat, v: nat, read: Result<(seq<byte>, nat), AuthError>)
    requires k < m <= e < |b| && Skip(b, k, IsToken) == m && Skip(b, m, IsSpace) == e && b[e] == EQUALS
    requires Skip(b, e + 1, IsSpace) == v && Value(b, v) == read
    ensures OneParam(b, k) == Assembled(b[k..m], read)
  {
  }

  /** A quoted value is read up to its closing quote, and past the white space after it. */
  lemma QuotedParts(b: seq<byte>, i: nat)
    requires i < |b| && b[i] == QUOTE
    ensures var q := Quoted(b, i + 1, []);
      q.Ok? && Utf8.Valid(q.value.0) && EndsAt(b, Skip(b, q.value.1, IsSpace)) ==>
        Value(b, i) == Ok((q.value.0, Skip(b, q.value.1, IsSpace)))
  {
  }

  lemma ValueReads(b: seq<byte>, i: nat, value: seq<byte>)
    requires NoLineEnd(value) && Utf8.Valid(value)
    requires At(b, i, [QUOTE]) && At(b, i + 1, Escape(value)) && At(b, i + 1 + |Escape(value)|, [QUOTE])
    requires EndsAt(b, i + |Escape(value)| + 2)
    ensures Value(b, i) == Ok((value, i + |Escape(value)| + 2))
  {
    var n := i + |Escape(value)| + 2;
    assert b[i] == QUOTE;
    QuotedReads(b, i + 1, value, []);
    assert [] + value == value;
    assert n < |b| ==> b[n] == COMMA;
    SkipTo(b, n, n, IsSpace);
    QuotedParts(b, i);
  }

  predicate IsKey(key: seq<byte>) {
    key != [] && forall i :: 0 <= i < |key| ==> IsToken(key[i]) && LowerByte(key[i]) == key[i]
  }

  lemma KeyReads(b: seq<byte>, i: nat, key: seq<byte>)
    requires IsKey(key) && At(b, i, key) && At(b, i + |key|, [EQUALS, QUOTE])
    ensures var k := i + |key|;
      && Skip(b, i, IsToken) == k && Skip(b, k, IsSpace) == k && b[k] == EQUALS
      && Skip(b, k + 1, IsSpace) == k + 1 && Lower(b[i..k]) == key
  {
    var k := i + |key|;
    assert b[k] == EQUALS && b[k + 1] == QUOTE;
    SkipTo(b, i, k, IsToken);
    SkipTo(b, k, k, IsSpace);
    SkipTo(b, k + 1, k + 1, IsSpace);
    assert b[i..k] == key;
  }

  /** A printed parameter, part by part. */
  lemma PrintedParts(b: seq<byte>, i: nat, p: Param)
    requires At(b, i, PrintParam(p))
    ensures At(b, i, p.key) && At(b, i + |p.key|, [EQUALS, QUOTE]) && At(b, i + |p.key| + 2, Escape(p.value))
    ensures At(b, i + |p.key| + 2 + |Escape(p.value)|, [QUOTE])
  {
    AtConcat(b, i, p.key + [EQUALS, QUOTE] + Escape(p.value), [QUOTE]);
    AtConcat(b, i, p.key + [EQUALS, QUOTE], Escape(p.value));
    AtConcat(b, i, p.key, [EQUALS, QUOTE]);
  }

  lemma ParamReads(b: seq<byte>, i: nat, p: Param)
    requires Printable(p) && At(b, i, PrintParam(p)) && EndsAt(b, i + |PrintParam(p)|)
    ensures OneParam(b, i) == Ok((p, i + |PrintParam(p)|))
  {
    var k := i + |p.key|;
    PrintedParts(b, i, p);
    KeyReads(b, i, p.key);
    assert b[k + 1] == QUOTE;
    ValueReads(b, k + 1, p.value);
    PartsRead(b, i, k, k, k + 1, Value(b, k + 1));
  }

  lemma StartsWithKey(b: seq<byte>, i: nat, p: Param)
    requires Printable(p) && At(b, i, PrintParam(p))
    ensures i < |b| && Skip(b, i, IsSeparator) == i
  {
    assert PrintParam(p)[0] == p.key[0];
    assert b[i] == p.key[0] && IsToken(b[i]);
    SkipTo(b, i, i, IsSeparator);
  }

  /** A parameter stands at an offset and ends there. */
  ghost predicate Stands(b: seq<byte>, i: nat, p: Param, n: nat) {
    i < n <= |b| && Skip(b, i, IsSeparator) == i && OneParam(b, i) == Ok((p, n))
  }

  lemma PrintedStands(b: seq<byte>, i: nat, p: Param)
    requires Printable(p) && At(b, i, PrintParam(p)) && EndsAt(b, i + |PrintParam(p)|)
    ensures Stands(b, i, p, i + |PrintParam(p)|)
  {
    StartsWithKey(b, i, p);
    ParamReads(b, i, p);
  }

  lemma StandsParses(b: seq<byte>, i: nat, p: Param, n: nat, before: seq<Param>)
    requires Stands(b, i, p, n)
    ensures PastComma(b, n) <= |b| && ParseFrom(b, i, before) == ParseFrom(b, PastComma(b, n), before + [p])
  {
    ParseStep(b, i, before, Ok((p, n)));
  }

  lemma ParseEnd(b: seq<byte>, before: seq<Param>)
    ensures ParseFrom(b, |b|, before) == Ok(before)
  {
    SkipTo(b, |b|, |b|, IsSeparator);
  }

  /** A printed parameter stands at an offset and is the last one or followed by a comma. */
  predicate PrintedAt(b: seq<byte>, i: nat, p: Param) {
    Printable(p) && At(b, i, PrintParam(p)) && EndsAt(b, i + |PrintParam(p)|)
  }

  function After(b: seq<byte>, i: nat, p: Param): nat { PastComma(b, i + |PrintParam(p)|) }

  lemma PrintSplits(b: seq<byte>, i: nat, params: seq<Param>)
    requires params != [] && Printable(params[0]) && At(b, i, Print(params)) && i + |Print(params)| == |b|
    ensures PrintedAt(b, i, params[0])
    ensures var n := After(b, i, params[0]);
      At(b, n, Print(params[1..])) && n + |Print(params[1..])| == |b|
  {
    var p, rest := params[0], params[1..];
    if |params| > 1 {
      AtConcat(b, i, PrintParam(p) + [COMMA], Print(rest));
      AtConcat(b, i, PrintParam(p), [COMMA]);
      assert b[i + |PrintParam(p)|] == COMMA;
    }
  }

  type Parser = (nat, seq<Param>) -> Result<seq<Param>, AuthError>

  /** The parser takes up each printed parameter, and ends at the end of the text. */
  ghost predicate TakesUp(f: Parser, b: seq<byte>) {
    && (forall i: nat, p, before :: PrintedAt(b, i, p) ==> f(i, before) == f(After(b, i, p), before + [p]))
    && forall before :: f(|b|, before) == Ok(before)
  }

  lemma {:induction false} ReadsFrom(f: Parser, b: seq<byte>, i: nat, params: seq<Param>, before: seq<Param>)
    requires TakesUp(f, b) && forall j :: 0 <= j < |params| ==> Printable(params[j])
    requires At(b, i, Print(params)) && i + |Print(params)| == |b|
    ensures f(i, before) == Ok(before + params)
    decreases |params|
  {
    if params == [] {
      assert before + params == before;
    } else {
      PrintSplits(b, i, params);
      ReadsFrom(f, b, After(b, i, params[0]), params[1..], before + [params[0]]);
      assert before + [params[0]] + params[1..] == before + params;
    }
  }

  lemma ParseTakesUp(b: seq<byte>, i: nat, p: Param, before: seq<Param>)
    requires PrintedAt(b, i, p)
    ensures After(b, i, p) <= |b| && ParseFrom(b, i, before) == ParseFrom(b, After(b, i, p), before + [p])
  {
    PrintedStands(b, i, p);
    StandsParses(b, i, p, i + |PrintParam(p)|, before);
  }

  function ParserOf(b: seq<byte>): Parser {
    (i: nat, before: seq<Param>) => if i <= |b| then ParseFrom(b, i, before) else Err(InvalidChallenge)
  }

  lemma ParserTakesUp(b: seq<byte>)
    ensures TakesUp(ParserOf(b), b)
  {
    forall i: nat, p, before | PrintedAt(b, i, p)
      ensures ParserOf(b)(i, before) == ParserOf(b)(After(b, i, p), before + [p])
    {
      ParseTakesUp(b, i, p, before);
    }
    forall before ensures ParserOf(b)(|b|, before) == Ok(before) {
      ParseEnd(b, before);
    }
  }

  /** Any list of lower-case token keys and values without line ends is parsed back from its printed form. */
  lemma ParametersRoundTrip(params: seq<Param>)
    requires forall i :: 0 <= i < |params| ==> Printable(params[i])
    ensures Parse(Print(params)) == Ok(params)
  {
    var b := Print(params);
    ParserTakesUp(b);
    ReadsFrom(ParserOf(b), b, 0, params, []);
    assert ParserOf(b)(0, []) == Parse(b);
    assert [] + params == params;
  }

  // Challenges.

  const REALM: seq<byte> := [114, 101, 97, 108, 109]
  const SERVICE: seq<byte> := [115, 101, 114, 118, 105, 99, 101]
  const SCOPE: seq<byte> := [115, 99, 111, 112, 101]
  const BEARER: seq<byte> := [98, 101, 97, 114, 101, 114]

  datatype Challenge = Challenge(realm: seq<byte>, service: Option<seq<byte>>, scope: Option<seq<byte>>)

  /** The values given for a key, in order. */
  function ValuesOf(params: seq<Param>, key: seq<byte>): seq<seq<byte>> {
    if params == [] then []
    else (if params[0].key == key then [params[0].value] else []) + ValuesOf(params[1..], key)
  }

  /** `unique_parameter`: a key given twice is an error. */
  function Unique(params: seq<Param>, key: seq<byte>): Result<Option<seq<byte>>, AuthError> {
    var values := ValuesOf(params, key);
    if values == [] then Ok(None) else if |values| == 1 then Ok(Some(values[0])) else Err(InvalidChallenge)
  }

  function ChallengeOf(params: seq<Param>): Result<Challenge, AuthError> {
    match Unique(params, REALM)
    case Err(e) => Err(e)
    case Ok(None) => Err(MissingChallenge)
    case Ok(Some(realm)) =>
      var service, scope := Unique(params, SERVICE), Unique(params, SCOPE);
      if service.Err? || scope.Err? then Err(InvalidChallenge)
      else Ok(Challenge(realm, service.value, scope.value))
  }

  /** The first white space character. */
  function FindSpace(b: seq<byte>, i: nat): (r: Option<nat>)
    requires i <= |b|
    ensures r.Some? ==> i <= r.value < |b|
    decreases |b| - i
  {
    if i == |b| then None else if Utf8.SpaceLength(b[i..]) > 0 then Some(i) else FindSpace(b, i + 1)
  }

  /** `parse_bearer_challenge`. */
  function ParseChallenge(text: seq<byte>): Result<Challenge, AuthError> {
    var b := Utf8.Trim(text);
    var end := FindSpace(b, 0);
    if end.None? || Lower(b[..end.value]) != BEARER then Err(UnsupportedChallenge)
    else
      match Parse(Utf8.Trim(b[end.value..]))
      case Err(e) => Err(e)
      case Ok(params) => ChallengeOf(params)
  }

  lemma {:induction false} FindSpaceAt(b: seq<byte>, i: nat, n: nat)
    requires i <= n < |b| && b[n] == 32 && forall k :: i <= k < n ==> Utf8.IsPlain(b[k])
    ensures FindSpace(b, i) == Some(n)
    decreases n - i
  {
    assert b[i..][0] == b[i];
    if i < n {
      FindSpaceAt(b, i + 1, n);
    }
  }

  lemma {:induction false} PrintedEnds(params: seq<Param>)
    requires params != [] && forall i :: 0 <= i < |params| ==> Printable(params[i])
    ensures var s := Print(params);
      s != [] && Utf8.IsPlain(s[0]) && Utf8.IsPlain(s[|s| - 1])
  {
    var s := Print(params);
    assert s[0] == params[0].key[0];
    assert IsToken(params[0].key[0]);
    if |params| > 1 {
      PrintedEnds(params[1..]);
      assert s[|s| - 1] == Print(params[1..])[|Print(params[1..])| - 1];
    }
  }

  lemma SchemeIsPlain(scheme: seq<byte>)
    requires Lower(scheme) == BEARER
    ensures |scheme| == 6 && forall k :: 0 <= k < 6 ==> Utf8.IsPlain(scheme[k])
  {
    assert forall k :: 0 <= k < 6 ==> LowerByte(scheme[k]) == BEARER[k] && 90 < BEARER[k] < 128;
  }

  lemma SchemeSplits(b: seq<byte>, scheme: seq<byte>, s: seq<byte>)
    requires |scheme| == 6 && forall k :: 0 <= k < 6 ==> Utf8.IsPlain(scheme[k])
    requires s != [] && Utf8.IsPlain(s[0]) && Utf8.IsPlain(s[|s| - 1])
    requires b == scheme + ([32] + s)
    ensures Utf8.Trim(b) == b && FindSpace(b, 0) == Some(6) && b[..6] == scheme && b[6..] == [32] + s
  {
    assert forall k :: 0 <= k < 6 ==> b[k] == scheme[k];
    assert b[6] == 32 && b[|b| - 1] == s[|s| - 1];
    Utf8.TrimPlain(b);
    FindSpaceAt(b, 0, 6);
  }

  /** A printed challenge is understood as its parameters say, in whatever case the scheme is written. */
  lemma ChallengeRoundTrip(scheme: seq<byte>, params: seq<Param>)
    requires Lower(scheme) == BEARER && params != [] && forall i :: 0 <= i < |params| ==> Printable(params[i])
    ensures ParseChallenge(scheme + ([32] + Print(params))) == ChallengeOf(params)
  {
    var s := Print(params);
    PrintedEnds(params);
    SchemeIsPlain(scheme);
    SchemeSplits(scheme + ([32] + s), scheme, s);
    Utf8.TrimSpaceBefore(s);
    ParametersRoundTrip(params);
    Understood(scheme + ([32] + s), s, params);
  }

  lemma Understood(b: seq<byte>, s: seq<byte>, params: seq<Param>)
    requires Utf8.Trim(b) == b && FindSpace(b, 0) == Some(6) && |b| > 6 && Lower(b[..6]) == BEARER
    requires Utf8.Trim(b[6..]) == s && Parse(s) == Ok(params)
    ensures ParseChallenge(b) == ChallengeOf(params)
  {
  }

  lemma {:induction false} ValuesOfIs(params: seq<Param>, key: seq<byte>, i: nat)
    requires i < |params| && params[i].key == key && forall j :: 0 <= j < |params| && j != i ==> params[j].key != key
    ensures ValuesOf(params, key) == [params[i].value]
  {
    if i > 0 {
      ValuesOfIs(params[1..], key, i - 1);
    } else {
      NoValues(params[1..], key);
    }
  }

  lemma {:induction false} NoValues(params: seq<Param>, key: seq<byte>)
    requires forall j :: 0 <= j < |params| ==> params[j].key != key
    ensures ValuesOf(params, key) == []
  {
    if params != [] {
      NoValues(params[1..], key);
    }
  }

  lemma {:induction false} TwoValues(params: seq<Param>, key: seq<byte>, i: nat, j: nat)
    requires i < j < |params| && params[i].key == key && params[j].key == key
    ensures |ValuesOf(params, key)| > 1
  {
    if i > 0 {
      TwoValues(params[1..], key, i - 1, j - 1);
    } else {
      SomeValue(params[1..], key, j - 1);
    }
  }

  lemma {:induction false} SomeValue(params: seq<Param>, key: seq<byte>, i: nat)
    requires i < |params| && params[i].key == key
    ensures ValuesOf(params, key) != []
  {
    if i > 0 {
      SomeValue(params[1..], key, i - 1);
    }
  }

  ghost predicate GivenOnce(params: seq<Param>, key: seq<byte>, value: seq<byte>) {
    exists i :: 0 <= i < |params| && params[i] == Param(key, value)
      && forall j :: 0 <= j < |params| && j != i ==> params[j].key != key
  }

  /** A parameter is returned exactly when its key is given once, with that value. */
  lemma UniqueIff(params: seq<Param>, key: seq<byte>, value: seq<byte>)
    ensures Unique(params, key) == Ok(Some(value)) <==> GivenOnce(params, key, value)
  {
    if GivenOnce(params, key, value) {
      var i :| 0 <= i < |params| && params[i] == Param(key, value)
        && forall j :: 0 <= j < |params| && j != i ==> params[j].key != key;
      ValuesOfIs(params, key, i);
    }
    if Unique(params, key) == Ok(Some(value)) {
      OnceFromValues(params, key, value);
    }
  }

  lemma OnceFromValues(params: seq<Param>, key: seq<byte>, value: seq<byte>)
    requires ValuesOf(params, key) == [value]
    ensures GivenOnce(params, key, value)
  {
    if forall j :: 0 <= j < |params| ==> params[j].key != key {
      NoValues(params, key);
      assert false;
    }
    var i :| 0 <= i < |params| && params[i].key == key;
    forall j | 0 <= j < |params| && j != i ensures params[j].key != key {
      if params[j].key == key {
        TwoValues(params, key, if i < j then i else j, if i < j then j else i);
        assert false;
      }
    }
    ValuesOfIs(params, key, i);
    assert params[i] == Param(key, value);
  }

  ghost predicate NotGiven(params: seq<Param>, key: seq<byte>) {
    forall i :: 0 <= i < |params| ==> params[i].key != key
  }

  /** The value of an optional parameter: given once, or not at all. */
  ghost predicate Gives(params: seq<Param>, key: seq<byte>, value: Option<seq<byte>>) {
    if value.Some? then GivenOnce(params, key, value.value) else NotGiven(params, key)
  }

  lemma UniqueGives(params: seq<Param>, key: seq<byte>, value: Option<seq<byte>>)
    ensures Unique(params, key) == Ok(value) <==> Gives(params, key, value)
  {
    match value
    case Some(v) => UniqueIff(params, key, v);
    case None =>
      if NotGiven(params, key) {
        NoValues(params, key);
      } else {
        var i :| 0 <= i < |params| && params[i].key == key;
        SomeValue(params, key, i);
      }
  }

  /** A challenge is understood exactly when each of its three parameters is given as it says. */
  lemma ChallengeIff(params: seq<Param>, c: Challenge)
    ensures ChallengeOf(params) == Ok(c) <==>
      Gives(params, REALM, Some(c.realm)) && Gives(params, SERVICE, c.service) && Gives(params, SCOPE, c.scope)
    ensures NotGiven(params, REALM) ==> ChallengeOf(params) == Err(MissingChallenge)
  {
    UniqueGives(params, REALM, Some(c.realm));
    UniqueGives(params, SERVICE, c.service);
    UniqueGives(params, SCOPE, c.scope);
    UniqueGives(params, REALM, None);
  }

  /** Another scheme is not supported. */
  lemma OtherScheme(scheme: seq<byte>, rest: seq<byte>)
    requires scheme != [] && (forall k :: 0 <= k < |scheme| ==> Utf8.IsPlain(scheme[k])) && Lower(scheme) != BEARER
    requires rest != [] && Utf8.IsPlain(rest[|rest| - 1])
    ensures ParseChallenge(scheme + ([32] + rest)) == Err(UnsupportedChallenge)
  {
    var b := scheme + ([32] + rest);
    assert b[0] == scheme[0] && b[|b| - 1] == rest[|rest| - 1];
    Utf8.TrimPlain(b);
    assert b[|scheme|] == 32;
    FindSpaceAt(b, 0, |scheme|);
    assert b[..|scheme|] == scheme;
  }
}
