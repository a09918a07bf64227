/** UTF-8 (section 4 of RFC 3629), and the white space a string is trimmed of, on bytes. */
module Utf8 {
  import opened Base

  predicate IsContinuation(x: byte) { 0x80 <= x < 0xC0 }

  /** What may follow the first byte of a character of three or four bytes. */
  predicate SecondOk(first: byte, second: byte) {
    && IsContinuation(second)
    && (first == 0xE0 ==> 0xA0 <= second) && (first == 0xED ==> second < 0xA0)
    && (first == 0xF0 ==> 0x90 <= second) && (first == 0xF4 ==> second < 0x90)
  }

  /** The length of the character at the start, 0 if there is none. */
  function CharLength(b: seq<byte>): (n: nat)
    ensures n <= 4 && n <= |b|
    ensures n > 1 ==> forall i :: 0 <= i < n ==> b[i] >= 0x80
    ensures n == 1 ==> b[0] < 0x80
  {
    if b == [] then 0
    else if b[0] < 0x80 then 1
    else if 0xC2 <= b[0] < 0xE0 then if |b| > 1 && IsContinuation(b[1]) then 2 else 0
    else if 0xE0 <= b[0] < 0xF0 then if |b| > 2 && SecondOk(b[0], b[1]) && IsContinuation(b[2]) then 3 else 0
    else if 0xF0 <= b[0] < 0xF5 then
      if |b| > 3 && SecondOk(b[0], b[1]) && IsContinuation(b[2]) && IsContinuation(b[3]) then 4 else 0
    else 0
  }

  predicate Valid(b: seq<byte>)
    decreases |b|
  {
    b == [] || (CharLength(b) > 0 && Valid(b[CharLength(b)..]))
  }

  lemma CharLengthPrefix(c: seq<byte>, rest: seq<byte>)
    requires CharLength(c) > 0
    ensures CharLength(c + rest) == CharLength(c)
  {
    var b := c + rest;
    assert forall i :: 0 <= i < |c| ==> b[i] == c[i];
  }

  lemma CharAlone(b: seq<byte>)
    requires CharLength(b) > 0
    ensures CharLength(b[..CharLength(b)]) == CharLength(b)
  {
    var c := b[..CharLength(b)];
    assert forall i :: 0 <= i < |c| ==> c[i] == b[i];
  }

  lemma {:induction false} Concat(a: seq<byte>, b: seq<byte>)
    requires Valid(a) && Valid(b)
    ensures Valid(a + b)
    decreases |a|
  {
    if a == [] {
      assert a + b == b;
    } else {
      var n := CharLength(a);
      CharLengthPrefix(a, b);
      assert (a + b)[n..] == a[n..] + b;
      Concat(a[n..], b);
    }
  }

  lemma OneChar(b: seq<byte>)
    requires CharLength(b) > 0
    ensures Valid(b[..CharLength(b)])
  {
    CharAlone(b);
    assert b[..CharLength(b)][CharLength(b)..] == [];
  }

  /** An ASCII byte is a character of its own: what precedes, and what follows, is valid by itself. */
  lemma {:induction false} AsciiIsBoundary(b: seq<byte>, i: nat)
    requires Valid(b) && i < |b| && b[i] < 0x80
    ensures Valid(b[i..]) && Valid(b[i + 1..])
    decreases |b|
  {
    var n := CharLength(b);
    if i == 0 {
      assert b[0..] == b;
    } else {
      assert n <= i;
      AsciiIsBoundary(b[n..], i - n);
      assert b[n..][i - n..] == b[i..] && b[n..][i - n + 1..] == b[i + 1..];
    }
  }

  // White space.

  /** The length of a white space character at the start, 0 if there is none. */
  function SpaceLength(b: seq<byte>): (n: nat)
    ensures n <= |b|
  {
    if |b| > 0 && (9 <= b[0] <= 13 || b[0] == 32) then 1
    else if |b| > 1 && b[0] == 0xC2 && (b[1] == 0x85 || b[1] == 0xA0) then 2
    else if |b| > 2 && IsWideSpace(b[0], b[1], b[2]) then 3
    else 0
  }

  predicate IsWideSpace(x: byte, y: byte, z: byte) {
    || (x == 0xE1 && y == 0x9A && z == 0x80)
    || (x == 0xE2 && y == 0x80 && (0x80 <= z <= 0x8A || z == 0xA8 || z == 0xA9 || z == 0xAF))
    || (x == 0xE2 && y == 0x81 && z == 0x9F)
    || (x == 0xE3 && y == 0x80 && z == 0x80)
  }

  /** The length of a white space character at the end. */
  function EndSpaceLength(b: seq<byte>): (n: nat)
    ensures n <= |b|
  {
    var k := |b|;
    if k > 0 && (9 <= b[k - 1] <= 13 || b[k - 1] == 32) then 1
    else if k > 1 && b[k - 2] == 0xC2 && (b[k - 1] == 0x85 || b[k - 1] == 0xA0) then 2
    else if k > 2 && IsWideSpace(b[k - 3], b[k - 2], b[k - 1]) then 3
    else 0
  }

  function TrimStart(b: seq<byte>): seq<byte>
    decreases |b|
  {
    if SpaceLength(b) > 0 then TrimStart(b[SpaceLength(b)..]) else b
  }

  function TrimEnd(b: seq<byte>): seq<byte>
    decreases |b|
  {
    if EndSpaceLength(b) > 0 then TrimEnd(b[..|b| - EndSpaceLength(b)]) else b
  }

  function Trim(b: seq<byte>): seq<byte> { TrimEnd(TrimStart(b)) }

  predicate IsPlain(x: byte) { x < 0x80 && !(9 <= x <= 13) && x != 32 }

  lemma TrimStartPlain(b: seq<byte>)
    requires b != [] && IsPlain(b[0])
    ensures TrimStart(b) == b
  {
  }

  lemma TrimEndPlain(b: seq<byte>)
    requires b != [] && IsPlain(b[|b| - 1])
    ensures TrimEnd(b) == b
  {
  }

  lemma TrimStartSpace(b: seq<byte>)
    ensures TrimStart([32] + b) == TrimStart(b)
  {
    var s := [32] + b;
    assert SpaceLength(s) == 1;
    assert s[1..] == b;
  }

  /** Text between two plain characters is left as it is. */
  lemma TrimPlain(b: seq<byte>)
    requires b != [] && IsPlain(b[0]) && IsPlain(b[|b| - 1])
    ensures Trim(b) == b
  {
    TrimStartPlain(b);
    TrimEndPlain(b);
  }

  /** One space before such text is removed. */
  lemma TrimSpaceBefore(b: seq<byte>)
    requires b != [] && IsPlain(b[0]) && IsPlain(b[|b| - 1])
    ensures Trim([32] + b) == b
  {
    TrimStartSpace(b);
    TrimPlain(b);
  }
}
