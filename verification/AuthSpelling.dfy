/**
 Authentication parameters as servers write them (section 11.2 of RFC 9110): keys in any case, values quoted
 or bare, white space around the equals sign, around values and around commas, and empty list elements. All
 spellings of a list of parameters are parsed to that list.
 */
module AuthSpelling {
  import opened Base
  import opened Auth
  import opened AuthRoundTrip
  import Utf8

  /** One parameter and how it is spelled. */
  datatype Spelled = Spelled(
    lead: seq<byte>,      // white space and commas before the key
    key: seq<byte>,
    before: seq<byte>,    // white space before the equals sign
    after: seq<byte>,     // and after it
    bare: bool,           // the value stands without quotes
    value: seq<byte>,
    trail: seq<byte>)     // white space after the value

  predicate All(b: seq<byte>, p: byte -> bool) { forall i :: 0 <= i < |b| ==> p(b[i]) }

  /** Tab, line feed, form feed, carriage return and space. */
  const BLANKS: seq<byte> := [9, 10, 12, 13, 32]

  /** The marks of a token (section 5.6.2 of RFC 9110), besides letters and digits. */
  const MARKS: seq<byte> := [33, 35, 36, 37, 38, 39, 42, 43, 45, 46, 94, 95, 96, 124, 126]

  predicate IsBlank(x: byte) { x in BLANKS }

  predicate IsGap(x: byte) { x in BLANKS || x == 44 }

  predicate IsTokenByte(x: byte) { 48 <= x <= 57 || 65 <= x <= 90 || 97 <= x <= 122 || x in MARKS }

  /** The parser's classes of bytes are these. */
  lemma Classes(x: byte)
    ensures IsSpace(x) <==> IsBlank(x)
    ensures IsSeparator(x) <==> IsGap(x)
    ensures IsToken(x) <==> IsTokenByte(x)
  {
    assert BLANKS == [9, 10, 12, 13, 32];
    assert MARKS == [33, 35, 36, 37, 38, 39, 42, 43, 45, 46, 94, 95, 96, 124, 126];
  }

  lemma ClassesOf(b: seq<byte>)
    ensures All(b, IsBlank) ==> All(b, IsSpace)
    ensures All(b, IsGap) ==> All(b, IsSeparator)
    ensures All(b, IsTokenByte) ==> All(b, IsToken)
  {
    forall i | 0 <= i < |b| ensures (IsBlank(b[i]) ==> IsSpace(b[i])) && (IsGap(b[i]) ==> IsSeparator(b[i]))
      ensures IsTokenByte(b[i]) ==> IsToken(b[i])
    {
      Classes(b[i]);
    }
  }

  /** A value that can stand without quotes: no commas, no quote in front and no white space at its ends. */
  predicate IsBare(value: seq<byte>) {
    && value != [] && Utf8.IsPlain(value[0]) && value[0] != QUOTE && Utf8.IsPlain(value[|value| - 1])
    && All(value, NotComma)
  }

  /** The spelling, in the parser's classes of bytes. */
  predicate WellSpelled(s: Spelled) {
    && All(s.lead, IsSeparator) && s.key != [] && All(s.key, IsToken)
    && All(s.before, IsSpace) && All(s.after, IsSpace) && All(s.trail, IsSpace)
    && if s.bare then IsBare(s.value) else Utf8.Valid(s.value) && NoLineEnd(s.value)
  }

  function Body(s: Spelled): seq<byte> { if s.bare then s.value else [QUOTE] + Escape(s.value) + [QUOTE] }

  function Name(s: Spelled): seq<byte> { s.lead + s.key + s.before + [EQUALS] + s.after }

  function TextOf(s: Spelled): seq<byte> { Name(s) + (Body(s) + s.trail) }

  function ParamOf(s: Spelled): Param { Param(Lower(s.key), s.value) }

  // White space at the end of a bare value.

  lemma {:induction false} TrimsTrail(value: seq<byte>, trail: seq<byte>)
    requires IsBare(value) && All(trail, IsSpace)
    ensures Utf8.TrimEnd(value + trail) == value
    decreases |trail|
  {
    var b := value + trail;
    if trail == [] {
      assert b == value;
      Utf8.TrimEndPlain(value);
    } else {
      var init := trail[..|trail| - 1];
      assert b[|b| - 1] == trail[|trail| - 1];
      assert b[..|b| - 1] == value + init;
      TrimsTrail(value, init);
    }
  }

  lemma BareTrims(value: seq<byte>, trail: seq<byte>)
    requires IsBare(value) && All(trail, IsSpace)
    ensures Utf8.Trim(value + trail) == value
  {
    assert (value + trail)[0] == value[0];
    Utf8.TrimStartPlain(value + trail);
    TrimsTrail(value, trail);
  }

  // Reading one parameter.

  /** A part in which every byte is of a class is skipped, if what follows is not. */
  lemma SkipPart(b: seq<byte>, i: nat, part: seq<byte>, p: byte -> bool)
    requires At(b, i, part) && All(part, p) && (i + |part| < |b| ==> !p(b[i + |part|]))
    ensures Skip(b, i, p) == i + |part|
  {
    assert forall k :: i <= k < i + |part| ==> b[k] == part[k - i];
    SkipTo(b, i, i + |part|, p);
  }

  lemma BareReads(b: seq<byte>, i: nat, value: seq<byte>, trail: seq<byte>)
    requires IsBare(value) && All(trail, IsSpace) && At(b, i, value + trail)
    requires EndsAt(b, i + |value| + |trail|)
    ensures Value(b, i) == Ok((value, i + |value| + |trail|))
  {
    var part := value + trail;
    var n := i + |part|;
    assert All(part, NotComma);
    SkipPart(b, i, part, NotComma);
    assert b[i] == part[0] == value[0];
    assert b[i..n] == part;
    BareTrims(value, trail);
  }

  /** A quoted string stands at an offset, with this many bytes between its quotes and white space after it. */
  predicate QuoteStands(b: seq<byte>, i: nat, value: seq<byte>, inner: nat, trail: seq<byte>) {
    && At(b, i, [QUOTE]) && At(b, i + 1, Escape(value)) && |Escape(value)| == inner
    && At(b, i + 1 + inner, [QUOTE]) && At(b, i + inner + 2, trail)
  }

  lemma QuotePlaces(b: seq<byte>, i: nat, value: seq<byte>, trail: seq<byte>)
    requires At(b, i, [QUOTE] + Escape(value) + [QUOTE] + trail)
    ensures QuoteStands(b, i, value, |Escape(value)|, trail)
  {
    AtConcat(b, i, [QUOTE] + Escape(value) + [QUOTE], trail);
    AtConcat(b, i, [QUOTE] + Escape(value), [QUOTE]);
    AtConcat(b, i, [QUOTE], Escape(value));
  }

  lemma QuoteDecodes(b: seq<byte>, i: nat, value: seq<byte>, inner: nat, trail: seq<byte>)
    requires NoLineEnd(value) && QuoteStands(b, i, value, inner, trail)
    ensures b[i] == QUOTE && Quoted(b, i + 1, []) == Ok((value, i + inner + 2))
  {
    assert b[i] == QUOTE;
    QuotedReads(b, i + 1, value, []);
    assert [] + value == value;
  }

  /** White space up to the end of a parameter is skipped. */
  lemma TrailIsSkipped(b: seq<byte>, i: nat, trail: seq<byte>)
    requires At(b, i, trail) && All(trail, IsSpace) && EndsAt(b, i + |trail|)
    ensures Skip(b, i, IsSpace) == i + |trail|
  {
    SkipPart(b, i, trail, IsSpace);
  }

  lemma QuoteReads(b: seq<byte>, i: nat, value: seq<byte>, inner: nat, trail: seq<byte>)
    requires Utf8.Valid(value) && NoLineEnd(value) && All(trail, IsSpace)
    requires QuoteStands(b, i, value, inner, trail) && EndsAt(b, i + inner + 2 + |trail|)
    ensures Value(b, i) == Ok((value, i + inner + 2 + |trail|))
  {
    QuoteDecodes(b, i, value, inner, trail);
    TrailIsSkipped(b, i + inner + 2, trail);
    QuotedParts(b, i);
  }

  lemma BodyReads(b: seq<byte>, i: nat, s: Spelled)
    requires WellSpelled(s) && At(b, i, Body(s) + s.trail) && EndsAt(b, i + |Body(s)| + |s.trail|)
    ensures Value(b, i) == Ok((s.value, i + |Body(s)| + |s.trail|))
    ensures i < |b| && !IsSpace(b[i])
  {
    assert (Body(s) + s.trail)[0] == Body(s)[0];
    if s.bare {
      BareReads(b, i, s.value, s.trail);
    } else {
      QuotePlaces(b, i, s.value, s.trail);
      QuoteReads(b, i, s.value, |Escape(s.value)|, s.trail);
    }
  }

  /** Where the parts of a spelled parameter stand. */
  lemma NameParts(b: seq<byte>, i: nat, s: Spelled)
    requires At(b, i, Name(s))
    ensures var k := i + |s.lead|;
      && At(b, i, s.lead) && At(b, k, s.key) && At(b, k + |s.key|, s.before)
      && At(b, k + |s.key| + |s.before|, [EQUALS]) && At(b, k + |s.key| + |s.before| + 1, s.after)
  {
    AtConcat(b, i, s.lead + s.key + s.before + [EQUALS], s.after);
    AtConcat(b, i, s.lead + s.key + s.before, [EQUALS]);
    AtConcat(b, i, s.lead + s.key, s.before);
    AtConcat(b, i, s.lead, s.key);
  }

  lemma KeyStands(b: seq<byte>, k: nat, s: Spelled)
    requires WellSpelled(s) && At(b, k, s.key) && At(b, k + |s.key|, s.before)
    requires At(b, k + |s.key| + |s.before|, [EQUALS])
    ensures Skip(b, k, IsToken) == k + |s.key| && b[k..k + |s.key|] == s.key
    ensures Skip(b, k + |s.key|, IsSpace) == k + |s.key| + |s.before|
    ensures b[k + |s.key| + |s.before|] == EQUALS
  {
    var e := k + |s.key| + |s.before|;
    assert b[e] == EQUALS;
    assert |s.before| > 0 ==> b[k + |s.key|] == s.before[0];
    SkipPart(b, k, s.key, IsToken);
    SkipPart(b, k + |s.key|, s.before, IsSpace);
    assert b[k..k + |s.key|] == s.key;
  }

  /** Where the parts of a spelled parameter stand: its key at `k`, the equals sign at `e`, the value at `v`. */
  predicate Placed(b: seq<byte>, i: nat, s: Spelled, k: nat, e: nat, v: nat) {
    && k == i + |s.lead| && At(b, i, s.lead) && At(b, k, s.key) && At(b, k + |s.key|, s.before)
    && e == k + |s.key| + |s.before| && At(b, e, [EQUALS]) && At(b, e + 1, s.after) && v == e + 1 + |s.after|
  }

  lemma NameLength(s: Spelled)
    ensures |Name(s)| == |s.lead| + |s.key| + |s.before| + 1 + |s.after|
  {
  }

  lemma NamePlaces(b: seq<byte>, i: nat, s: Spelled, rest: seq<byte>) returns (k: nat, e: nat, v: nat)
    requires At(b, i, Name(s) + rest)
    ensures Placed(b, i, s, k, e, v) && At(b, v, rest) && v == i + |Name(s)|
  {
    NameLength(s);
    AtConcat(b, i, Name(s), rest);
    NameParts(b, i, s);
    k := i + |s.lead|;
    e := k + |s.key| + |s.before|;
    v := e + 1 + |s.after|;
  }

  lemma TextPlaces(b: seq<byte>, i: nat, s: Spelled) returns (k: nat, e: nat, v: nat)
    requires At(b, i, TextOf(s))
    ensures Placed(b, i, s, k, e, v) && At(b, v, Body(s) + s.trail)
    ensures v + |Body(s)| + |s.trail| == i + |TextOf(s)|
  {
    k, e, v := NamePlaces(b, i, s, Body(s) + s.trail);
  }

  lemma LeadIsSkipped(b: seq<byte>, i: nat, s: Spelled)
    requires WellSpelled(s) && At(b, i, s.lead) && At(b, i + |s.lead|, s.key)
    ensures Skip(b, i, IsSeparator) == i + |s.lead| < |b|
  {
    assert b[i + |s.lead|] == s.key[0];
    SkipPart(b, i, s.lead, IsSeparator);
  }

  lemma AfterIsSkipped(b: seq<byte>, i: nat, after: seq<byte>)
    requires At(b, i, after) && All(after, IsSpace) && i + |after| < |b| && !IsSpace(b[i + |after|])
    ensures Skip(b, i, IsSpace) == i + |after|
  {
    SkipPart(b, i, after, IsSpace);
  }

  lemma PlacedReads(b: seq<byte>, i: nat, s: Spelled, k: nat, e: nat, v: nat,
                    read: Result<(seq<byte>, nat), AuthError>)
    requires WellSpelled(s) && Placed(b, i, s, k, e, v)
    requires v < |b| && !IsSpace(b[v]) && Value(b, v) == read
    ensures OneParam(b, k) == Assembled(s.key, read)
  {
    KeyStands(b, k, s);
    AfterIsSkipped(b, e + 1, s.after);
    PartsRead(b, k, k + |s.key|, e, v, read);
  }

  /** The parser goes on after a parameter it has read. */
  lemma GoesOn(b: seq<byte>, i: nat, k: nat, key: seq<byte>, read: Result<(seq<byte>, nat), AuthError>,
               before: seq<Param>)
    requires i <= |b| && Skip(b, i, IsSeparator) == k < |b| && OneParam(b, k) == Assembled(key, read) && read.Ok?
    ensures PastComma(b, read.value.1) <= |b|
    ensures ParseFrom(b, i, before)
         == ParseFrom(b, PastComma(b, read.value.1), before + [Param(Lower(key), read.value.0)])
  {
    ParseStep(b, i, before, Assembled(key, read));
  }

  lemma PlacedValue(b: seq<byte>, s: Spelled, v: nat, n: nat)
    requires WellSpelled(s) && At(b, v, Body(s) + s.trail) && v + |Body(s)| + |s.trail| == n && EndsAt(b, n)
    ensures v < |b| && !IsSpace(b[v]) && Value(b, v) == Ok((s.value, n))
  {
    BodyReads(b, v, s);
  }

  lemma PlacedParses(b: seq<byte>, i: nat, s: Spelled, k: nat, e: nat, v: nat,
                     read: Result<(seq<byte>, nat), AuthError>, before: seq<Param>)
    requires i <= |b| && WellSpelled(s) && Placed(b, i, s, k, e, v) && read.Ok?
    requires v < |b| && !IsSpace(b[v]) && Value(b, v) == read
    ensures PastComma(b, read.value.1) <= |b|
    ensures ParseFrom(b, i, before)
         == ParseFrom(b, PastComma(b, read.value.1), before + [Param(Lower(s.key), read.value.0)])
  {
    LeadIsSkipped(b, i, s);
    PlacedReads(b, i, s, k, e, v, read);
    GoesOn(b, i, k, s.key, read, before);
  }

  lemma SpelledParses(b: seq<byte>, i: nat, s: Spelled, text: seq<byte>, before: seq<Param>)
    requires WellSpelled(s) && text == TextOf(s) && At(b, i, text) && EndsAt(b, i + |text|)
    ensures var n := PastComma(b, i + |text|);
      n <= |b| && ParseFrom(b, i, before) == ParseFrom(b, n, before + [ParamOf(s)])
  {
    var k, e, v := TextPlaces(b, i, s);
    PlacedValue(b, s, v, i + |text|);
    PlacedParses(b, i, s, k, e, v, Ok((s.value, i + |text|)), before);
  }

  // Lists of anything that can be read one by one.

  /** Texts joined by commas, and what follows the last of them. */
  function Joined<T>(list: seq<T>, text: T -> seq<byte>, tail: seq<byte>): seq<byte> {
    if list == [] then tail
    else if |list| == 1 && tail == [] then text(list[0])
    else text(list[0]) + ([COMMA] + Joined(list[1..], text, tail))
  }

  function Each<T>(list: seq<T>, param: T -> Param): seq<Param> {
    if list == [] then [] else [param(list[0])] + Each(list[1..], param)
  }

  /** A first part, a comma unless the text ends there, and a rest. */
  predicate Splits(b: seq<byte>, i: nat, first: seq<byte>, rest: seq<byte>) {
    && At(b, i, first) && EndsAt(b, i + |first|)
    && At(b, PastComma(b, i + |first|), rest) && PastComma(b, i + |first|) + |rest| == |b|
  }

  lemma HeadStands<T>(b: seq<byte>, i: nat, list: seq<T>, text: T -> seq<byte>, tail: seq<byte>)
    requires list != [] && At(b, i, Joined(list, text, tail)) && i + |Joined(list, text, tail)| == |b|
    ensures Splits(b, i, text(list[0]), Joined(list[1..], text, tail))
  {
    var first, rest := text(list[0]), Joined(list[1..], text, tail);
    if |list| == 1 && tail == [] {
      assert list[1..] == [];
    } else {
      assert Joined(list, text, tail) == first + ([COMMA] + rest);
      CommaParts(b, i, first, rest);
    }
  }

  lemma CommaParts(b: seq<byte>, i: nat, first: seq<byte>, rest: seq<byte>)
    requires At(b, i, first + ([COMMA] + rest)) && i + |first| + 1 + |rest| == |b|
    ensures Splits(b, i, first, rest)
  {
    AtConcat(b, i, first, [COMMA] + rest);
    AtConcat(b, i + |first|, [COMMA], rest);
    assert b[i + |first|] == COMMA;
  }

  /** From an offset on there are only separators. */
  predicate EndsFrom(b: seq<byte>, i: nat) { i <= |b| && forall k :: i <= k < |b| ==> IsSeparator(b[k]) }

  /** A text stands at an offset, and is the last one or followed by a comma. */
  predicate StandsAt(b: seq<byte>, i: nat, text: seq<byte>) { At(b, i, text) && EndsAt(b, i + |text|) }

  /** The parser takes up each text, and ends where only separators are left. */
  ghost predicate TakesEach<T(!new)>(f: Parser, b: seq<byte>, ok: T -> bool, text: T -> seq<byte>, param: T -> Param) {
    && (forall i: nat, x: T, before :: ok(x) && StandsAt(b, i, text(x)) ==>
          f(i, before) == f(PastComma(b, i + |text(x)|), before + [param(x)]))
    && forall i: nat, before :: EndsFrom(b, i) ==> f(i, before) == Ok(before)
  }

  lemma {:induction false} ListReads<T(!new)>(f: Parser, b: seq<byte>, ok: T -> bool, text: T -> seq<byte>,
                                              param: T -> Param, i: nat, list: seq<T>, tail: seq<byte>,
                                              before: seq<Param>)
    requires TakesEach(f, b, ok, text, param) && All(tail, IsSeparator) && forall j :: 0 <= j < |list| ==> ok(list[j])
    requires At(b, i, Joined(list, text, tail)) && i + |Joined(list, text, tail)| == |b|
    ensures f(i, before) == Ok(before + Each(list, param))
    decreases |list|
  {
    if list == [] {
      assert forall k :: i <= k < |b| ==> b[k] == tail[k - i];
      assert EndsFrom(b, i);
      assert before + [] == before;
    } else {
      HeadStands(b, i, list, text, tail);
      assert ok(list[0]) && StandsAt(b, i, text(list[0]));
      ListReads(f, b, ok, text, param, PastComma(b, i + |text(list[0])|), list[1..], tail, before + [param(list[0])]);
      assert before + [param(list[0])] + Each(list[1..], param) == before + Each(list, param);
    }
  }

  // All spellings.

  lemma ParserTakesSpelled(b: seq<byte>)
    ensures TakesEach(ParserOf(b), b, WellSpelled, TextOf, ParamOf)
  {
    forall i: nat, s, before | WellSpelled(s) && StandsAt(b, i, TextOf(s))
      ensures ParserOf(b)(i, before) == ParserOf(b)(PastComma(b, i + |TextOf(s)|), before + [ParamOf(s)])
    {
      SpelledParses(b, i, s, TextOf(s), before);
    }
    forall i: nat, before | EndsFrom(b, i) ensures ParserOf(b)(i, before) == Ok(before) {
      SkipTo(b, i, |b|, IsSeparator);
    }
  }

  /** The spelling, in the classes of bytes of the standard. */
  predicate Standard(s: Spelled) {
    && All(s.lead, IsGap) && s.key != [] && All(s.key, IsTokenByte)
    && All(s.before, IsBlank) && All(s.after, IsBlank) && All(s.trail, IsBlank)
    && if s.bare then IsBare(s.value) else Utf8.Valid(s.value) && NoLineEnd(s.value)
  }

  lemma StandardIsWell(s: Spelled)
    requires Standard(s)
    ensures WellSpelled(s)
  {
    ClassesOf(s.lead);
    ClassesOf(s.key);
    ClassesOf(s.before);
    ClassesOf(s.after);
    ClassesOf(s.trail);
  }

  /** Every spelling of a list of parameters is parsed to that list, with its keys in lower case. */
  lemma SpellingsParse(list: seq<Spelled>, tail: seq<byte>)
    requires All(tail, IsGap) && forall j :: 0 <= j < |list| ==> Standard(list[j])
    ensures Parse(Joined(list, TextOf, tail)) == Ok(Each(list, ParamOf))
  {
    ClassesOf(tail);
    forall j | 0 <= j < |list| ensures WellSpelled(list[j]) {
      StandardIsWell(list[j]);
    }
    ParserTakesSpelled(Joined(list, TextOf, tail));
    AllReads(Joined(list, TextOf, tail), list, WellSpelled, TextOf, ParamOf, tail);
  }

  lemma AllReads<T(!new)>(b: seq<byte>, list: seq<T>, ok: T -> bool, text: T -> seq<byte>, param: T -> Param,
                          tail: seq<byte>)
    requires TakesEach(ParserOf(b), b, ok, text, param) && b == Joined(list, text, tail)
    requires All(tail, IsSeparator) && forall j :: 0 <= j < |list| ==> ok(list[j])
    ensures Parse(b) == Ok(Each(list, param))
  {
    ListReads(ParserOf(b), b, ok, text, param, 0, list, tail, []);
    assert [] + Each(list, param) == Each(list, param);
    assert ParserOf(b)(0, []) == Parse(b);
  }

  /** What follows a quoted value must be white space and then a comma or the end. */
  lemma JunkAfterQuote(b: seq<byte>, i: nat, value: seq<byte>, trail: seq<byte>)
    requires NoLineEnd(value) && All(trail, IsSpace) && At(b, i, [QUOTE] + Escape(value) + [QUOTE] + trail)
    requires var n := i + |Escape(value)| + 2 + |trail|;
      n < |b| && !IsSpace(b[n]) && b[n] != COMMA
    ensures Value(b, i) == Err(InvalidChallenge)
  {
    QuotePlaces(b, i, value, trail);
    QuoteDecodes(b, i, value, |Escape(value)|, trail);
    SkipPart(b, i + |Escape(value)| + 2, trail, IsSpace);
  }
}
