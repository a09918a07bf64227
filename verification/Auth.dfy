/**
 Authentication parameters of a challenge (sections 5.6.4 and 11.2 of RFC 9110): the byte-level parser,
 as a function of the offset and as the loops that compute it.
 */
module Auth {
  import opened Base
  import Utf8

  datatype Param = Param(key: seq<byte>, value: seq<byte>)

  datatype AuthError = InvalidChallenge | UnsupportedChallenge | MissingChallenge

  const COMMA: byte := 44
  const EQUALS: byte := 61
  const QUOTE: byte := 34
  const BACKSLASH: byte := 92

  predicate IsSpace(x: byte) { x == 9 || x == 10 || x == 12 || x == 13 || x == 32 }

  predicate IsSeparator(x: byte) { IsSpace(x) || x == COMMA }

  predicate IsAlphanumeric(x: byte) { 48 <= x <= 57 || 65 <= x <= 90 || 97 <= x <= 122 }

  /** A letter, a digit or one of `!#$%&'*+-.^_` and backquote, bar, tilde. */
  predicate IsToken(x: byte) {
    || IsAlphanumeric(x) || x == 33 || 35 <= x <= 39 || x == 42 || x == 43 || x == 45 || x == 46
    || 94 <= x <= 96 || x == 124 || x == 126
  }

  predicate NotComma(x: byte) { x != COMMA }

  predicate IsLineEnd(x: byte) { x == 10 || x == 13 }

  function LowerByte(x: byte): byte { if 65 <= x <= 90 then x + 32 else x }

  function Lower(b: seq<byte>): (r: seq<byte>)
    ensures |r| == |b| && forall i :: 0 <= i < |b| ==> r[i] == LowerByte(b[i])
  {
    seq(|b|, i requires 0 <= i < |b| => LowerByte(b[i]))
  }

  // The parser as a function.

  /** The first offset from `i` on whose byte is not in a class. */
  function Skip(b: seq<byte>, i: nat, p: byte -> bool): (j: nat)
    requires i <= |b|
    ensures i <= j <= |b|
    decreases |b| - i
  {
    if i < |b| && p(b[i]) then Skip(b, i + 1, p) else i
  }

  /** A quoted string after its opening quote, and the offset after the closing one. */
  function Quoted(b: seq<byte>, i: nat, decoded: seq<byte>): (r: Result<(seq<byte>, nat), AuthError>)
    requires i <= |b|
    ensures r.Ok? ==> i < r.value.1 <= |b|
    decreases |b| - i
  {
    if i == |b| then Err(InvalidChallenge)
    else if b[i] == BACKSLASH then
      if i + 1 == |b| then Err(InvalidChallenge) else Quoted(b, i + 2, decoded + [b[i + 1]])
    else if b[i] == QUOTE then Ok((decoded, i + 1))
    else if IsLineEnd(b[i]) then Err(InvalidChallenge)
    else Quoted(b, i + 1, decoded + [b[i]])
  }

  /** The value of a parameter, and the offset of the comma or end after it. */
  function Value(b: seq<byte>, i: nat): (r: Result<(seq<byte>, nat), AuthError>)
    requires i <= |b|
    ensures r.Ok? ==> i <= r.value.1 <= |b|
  {
    if i < |b| && b[i] == QUOTE then
      match Quoted(b, i + 1, [])
      case Err(e) => Err(e)
      case Ok((decoded, next)) =>
        var j := Skip(b, next, IsSpace);
        if (j < |b| && b[j] != COMMA) || !Utf8.Valid(decoded) then Err(InvalidChallenge) else Ok((decoded, j))
    else
      var j := Skip(b, i, NotComma);
      var value := Utf8.Trim(b[i..j]);
      if value == [] then Err(InvalidChallenge) else Ok((value, j))
  }

  /** A key and what was read for its value. */
  function Assembled(key: seq<byte>, read: Result<(seq<byte>, nat), AuthError>): (r: Result<(Param, nat), AuthError>)
    ensures r.Ok? <==> read.Ok?
    ensures r.Ok? ==> r.value.0 == Param(Lower(key), read.value.0) && r.value.1 == read.value.1
  {
    match read
    case Err(error) => Err(error)
    case Ok((value, next)) => Ok((Param(Lower(key), value), next))
  }

  /** One parameter, from the start of its key. */
  function OneParam(b: seq<byte>, i: nat): (r: Result<(Param, nat), AuthError>)
    requires i <= |b|
    ensures r.Ok? ==> i < r.value.1 <= |b|
  {
    var k := Skip(b, i, IsToken);
    var e := Skip(b, k, IsSpace);
    if k == i || e == |b| || b[e] != EQUALS then Err(InvalidChallenge)
    else Assembled(b[i..k], Value(b, Skip(b, e + 1, IsSpace)))
  }

  /** Past the comma, if there is one. */
  function PastComma(b: seq<byte>, i: nat): nat { if i < |b| then i + 1 else i }

  function ParseFrom(b: seq<byte>, i: nat, params: seq<Param>): Result<seq<Param>, AuthError>
    requires i <= |b|
    decreases |b| - i
  {
    var j := Skip(b, i, IsSeparator);
    if j == |b| then Ok(params)
    else
      match OneParam(b, j)
      case Err(e) => Err(e)
      case Ok((param, next)) => ParseFrom(b, PastComma(b, next), params + [param])
  }

  lemma ParseStep(b: seq<byte>, i: nat, params: seq<Param>, one: Result<(Param, nat), AuthError>)
    requires i <= |b| && Skip(b, i, IsSeparator) < |b| && one == OneParam(b, Skip(b, i, IsSeparator))
    ensures one.Err? ==> ParseFrom(b, i, params) == Err(one.error)
    ensures one.Ok? ==> PastComma(b, one.value.1) <= |b|
    ensures one.Ok? ==> ParseFrom(b, i, params) == ParseFrom(b, PastComma(b, one.value.1), params + [one.value.0])
  {
  }

  /** `parse_auth_parameters`. */
  function Parse(b: seq<byte>): Result<seq<Param>, AuthError> { ParseFrom(b, 0, []) }

  // The parser as loops.

  method SkipWhile(b: seq<byte>, start: nat, p: byte -> bool) returns (offset: nat)
    requires start <= |b|
    ensures offset == Skip(b, start, p)
  {
    offset := start;
    while offset < |b| && p(b[offset])
      invariant start <= offset <= |b| && Skip(b, offset, p) == Skip(b, start, p)
    {
      offset := offset + 1;
    }
  }

  method ReadQuoted(b: seq<byte>, start: nat) returns (r: Result<(seq<byte>, nat), AuthError>)
    requires start <= |b|
    ensures r == Quoted(b, start, [])
  {
    var offset, decoded := start, [];
    while offset < |b|
      invariant start <= offset <= |b| && Quoted(b, offset, decoded) == Quoted(b, start, [])
    {
      if b[offset] == BACKSLASH {
        offset := offset + 1;
        if offset == |b| {
          return Err(InvalidChallenge);
        }
        decoded := decoded + [b[offset]];
        offset := offset + 1;
      } else if b[offset] == QUOTE {
        return Ok((decoded, offset + 1));
      } else if IsLineEnd(b[offset]) {
        return Err(InvalidChallenge);
      } else {
        decoded := decoded + [b[offset]];
        offset := offset + 1;
      }
    }
    return Err(InvalidChallenge);
  }

  method ReadValue(b: seq<byte>, start: nat) returns (r: Result<(seq<byte>, nat), AuthError>)
    requires start <= |b|
    ensures r == Value(b, start)
  {
    if start < |b| && b[start] == QUOTE {
      var quoted := ReadQuoted(b, start + 1);
      if quoted.Err? {
        return quoted;
      }
      var offset := SkipWhile(b, quoted.value.1, IsSpace);
      if (offset < |b| && b[offset] != COMMA) || !Utf8.Valid(quoted.value.0) {
        return Err(InvalidChallenge);
      }
      return Ok((quoted.value.0, offset));
    }
    var offset := SkipWhile(b, start, NotComma);
    var value := Utf8.Trim(b[start..offset]);
    return if value == [] then Err(InvalidChallenge) else Ok((value, offset));
  }

  method ReadParam(b: seq<byte>, start: nat) returns (r: Result<(Param, nat), AuthError>)
    requires start <= |b|
    ensures r == OneParam(b, start)
  {
    var keyEnd := SkipWhile(b, start, IsToken);
    if keyEnd == start {
      return Err(InvalidChallenge);
    }
    var offset := SkipWhile(b, keyEnd, IsSpace);
    if offset == |b| || b[offset] != EQUALS {
      return Err(InvalidChallenge);
    }
    offset := SkipWhile(b, offset + 1, IsSpace);
    var value := ReadValue(b, offset);
    if value.Err? {
      return Err(value.error);
    }
    return Ok((Param(Lower(b[start..keyEnd]), value.value.0), value.value.1));
  }

  /** The parser terminates on every input, with every offset in range. */
  method ParseAuthParameters(b: seq<byte>) returns (r: Result<seq<Param>, AuthError>)
    ensures r == Parse(b)
  {
    var offset, params := 0, [];
    while offset < |b|
      invariant offset <= |b| && ParseFrom(b, offset, params) == Parse(b)
    {
      var start := SkipWhile(b, offset, IsSeparator);
      if start == |b| {
        return Ok(params);
      }
      var param := ReadParam(b, start);
      ParseStep(b, offset, params, param);
      if param.Err? {
        return Err(param.error);
      }
      params := params + [param.value.0];
      offset := PastComma(b, param.value.1);
    }
    return Ok(params);
  }

  // Text in, text out.

  /** Bytes above ASCII are copied as they are. */
  lemma {:induction false} QuotedCopies(b: seq<byte>, i: nat, n: nat, decoded: seq<byte>)
    requires i + n <= |b| && forall k :: i <= k < i + n ==> b[k] >= 0x80
    ensures Quoted(b, i, decoded) == Quoted(b, i + n, decoded + b[i..i + n])
    decreases n
  {
    if n == 0 {
      assert decoded + b[i..i] == decoded;
    } else {
      QuotedCopies(b, i + 1, n - 1, decoded + [b[i]]);
      assert decoded + [b[i]] + b[i + 1..i + n] == decoded + b[i..i + n];
    }
  }

  /** A whole character, with or without a backslash before it, is copied whole. */
  lemma QuotedCopiesChar(b: seq<byte>, i: nat, decoded: seq<byte>)
    requires i <= |b| && Utf8.CharLength(b[i..]) > 1
    ensures var n := Utf8.CharLength(b[i..]);
      && Quoted(b, i, decoded) == Quoted(b, i + n, decoded + b[i..i + n])
      && Quoted(b, i + 1, decoded + [b[i]]) == Quoted(b, i + n, decoded + b[i..i + n])
  {
    var n := Utf8.CharLength(b[i..]);
    assert forall k :: i <= k < i + n ==> b[k] == b[i..][k - i];
    QuotedCopies(b, i, n, decoded);
    QuotedCopies(b, i + 1, n - 1, decoded + [b[i]]);
    assert decoded + [b[i]] + b[i + 1..i + n] == decoded + b[i..i + n];
  }

  lemma GrowsByChar(b: seq<byte>, i: nat, decoded: seq<byte>)
    requires i <= |b| && Utf8.Valid(decoded) && Utf8.Valid(b[i..]) && i < |b|
    ensures var n := Utf8.CharLength(b[i..]);
      n > 0 && Utf8.Valid(decoded + b[i..i + n]) && Utf8.Valid(b[i + n..])
  {
    var n := Utf8.CharLength(b[i..]);
    Utf8.OneChar(b[i..]);
    assert b[i..][..n] == b[i..i + n] && b[i..][n..] == b[i + n..];
    Utf8.Concat(decoded, b[i..i + n]);
  }

  /** What a quoted string of valid text decodes to is valid text: the decoder's last check never fails. */
  lemma {:induction false} QuotedIsText(b: seq<byte>, i: nat, decoded: seq<byte>)
    requires i <= |b| && Utf8.Valid(b[i..]) && Utf8.Valid(decoded)
    ensures Quoted(b, i, decoded).Ok? ==> Utf8.Valid(Quoted(b, i, decoded).value.0)
    decreases |b| - i
  {
    if i < |b| {
      GrowsByChar(b, i, decoded);
      var n := Utf8.CharLength(b[i..]);
      if n > 1 {
        QuotedCopiesChar(b, i, decoded);
        QuotedIsText(b, i + n, decoded + b[i..i + n]);
      } else {
        assert b[i..i + 1] == [b[i]];
        if b[i] == BACKSLASH && i + 1 < |b| {
          EscapedIsText(b, i + 1, decoded);
        } else if b[i] != BACKSLASH {
          QuotedIsText(b, i + 1, decoded + [b[i]]);
        }
      }
    }
  }

  lemma EscapedIsText(b: seq<byte>, i: nat, decoded: seq<byte>)
    requires i < |b| && Utf8.Valid(b[i..]) && Utf8.Valid(decoded)
    ensures var r := Quoted(b, i + 1, decoded + [b[i]]);
      r.Ok? ==> Utf8.Valid(r.value.0)
    decreases |b| - i, 1
  {
    GrowsByChar(b, i, decoded);
    var n := Utf8.CharLength(b[i..]);
    if n > 1 {
      QuotedCopiesChar(b, i, decoded);
      QuotedIsText(b, i + n, decoded + b[i..i + n]);
    } else {
      assert b[i..i + 1] == [b[i]];
      QuotedIsText(b, i + 1, decoded + [b[i]]);
    }
  }

  /** In a header that is valid text, wherever a quoted string starts. */
  lemma QuotedStringIsText(b: seq<byte>, i: nat)
    requires Utf8.Valid(b) && i < |b| && b[i] == QUOTE
    ensures Quoted(b, i + 1, []).Ok? ==> Utf8.Valid(Quoted(b, i + 1, []).value.0)
  {
    Utf8.AsciiIsBoundary(b, i);
    QuotedIsText(b, i + 1, []);
  }
}
