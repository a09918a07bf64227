/** The characters UTF-8 stands for (section 3 of RFC 3629), and the white space among them. */
module Utf8Text {
  import opened Base
  import opened Utf8

  /** A character: a code point that is not a surrogate. */
  predicate IsScalar(c: nat) { c < 0xD800 || 0xE000 <= c < 0x11_0000 }

  function Encode(c: nat): (b: seq<byte>)
    requires IsScalar(c)
    ensures 0 < |b| <= 4
  {
    if c < 0x80 then [c as byte]
    else if c < 0x800 then [(0xC0 + c / 64) as byte, (0x80 + c % 64) as byte]
    else if c < 0x1_0000 then [(0xE0 + c / 4096) as byte, (0x80 + c / 64 % 64) as byte, (0x80 + c % 64) as byte]
    else [(0xF0 + c / 262144) as byte, (0x80 + c / 4096 % 64) as byte, (0x80 + c / 64 % 64) as byte,
          (0x80 + c % 64) as byte]
  }

  /** Every character is one character to the decoder. */
  lemma EncodedIsChar(c: nat)
    requires IsScalar(c)
    ensures CharLength(Encode(c)) == |Encode(c)|
  {
    if 0x800 <= c < 0x1_0000 {
      ThreeBytes(c);
    } else if 0x1_0000 <= c {
      FourBytes(c);
    }
  }

  lemma ThreeBytes(c: nat)
    requires 0x800 <= c < 0x1_0000 && IsScalar(c)
    ensures CharLength(Encode(c)) == 3
  {
    var b := Encode(c);
    assert c / 4096 == 0 ==> c / 64 % 64 >= 32;
    assert c / 4096 == 13 ==> c / 64 % 64 < 32;
  }

  lemma FourBytes(c: nat)
    requires 0x1_0000 <= c < 0x11_0000
    ensures CharLength(Encode(c)) == 4
  {
    var b := Encode(c);
    assert c / 262144 == 0 ==> c / 4096 % 64 >= 16;
    assert c / 262144 == 4 ==> c / 4096 % 64 < 16;
  }

  /** And the decoder knows no others. */
  lemma CharIsEncoded(b: seq<byte>) returns (c: nat)
    requires CharLength(b) > 0
    ensures IsScalar(c) && b[..CharLength(b)] == Encode(c)
  {
    var n := CharLength(b);
    if n == 1 {
      c := b[0] as nat;
    } else if n == 2 {
      c := (b[0] as nat - 0xC0) * 64 + (b[1] as nat - 0x80);
    } else if n == 3 {
      c := (b[0] as nat - 0xE0) * 4096 + (b[1] as nat - 0x80) * 64 + (b[2] as nat - 0x80);
      Digits3(b[0] as nat - 0xE0, b[1] as nat - 0x80, b[2] as nat - 0x80);
    } else {
      c := (b[0] as nat - 0xF0) * 262144 + (b[1] as nat - 0x80) * 4096 + (b[2] as nat - 0x80) * 64
           + (b[3] as nat - 0x80);
      Digits4(b[0] as nat - 0xF0, b[1] as nat - 0x80, b[2] as nat - 0x80, b[3] as nat - 0x80);
    }
  }

  lemma Digits3(x: nat, y: nat, z: nat)
    requires y < 64 && z < 64
    ensures var c := x * 4096 + y * 64 + z;
      c / 4096 == x && c / 64 % 64 == y && c % 64 == z
  {
    var c := x * 4096 + y * 64 + z;
    assert c / 64 == x * 64 + y;
  }

  lemma Digits4(w: nat, x: nat, y: nat, z: nat)
    requires x < 64 && y < 64 && z < 64
    ensures var c := w * 262144 + x * 4096 + y * 64 + z;
      c / 262144 == w && c / 4096 % 64 == x && c / 64 % 64 == y && c % 64 == z
  {
    var c := w * 262144 + x * 4096 + y * 64 + z;
    assert c / 4096 == w * 64 + x;
    assert c / 64 == (w * 64 + x) * 64 + y;
  }

  // White space.

  /** The Unicode property White_Space. */
  predicate IsWhiteSpace(c: nat) {
    || 9 <= c <= 13 || c == 32 || c == 0x85 || c == 0xA0 || c == 0x1680
    || 0x2000 <= c <= 0x200A || c == 0x2028 || c == 0x2029 || c == 0x202F || c == 0x205F || c == 0x3000
  }

  /** White space characters take one, two or three bytes, and are known by them. */
  predicate IsSpaceBytes(e: seq<byte>) {
    || (|e| == 1 && (9 <= e[0] <= 13 || e[0] == 32))
    || (|e| == 2 && e[0] == 0xC2 && (e[1] == 0x85 || e[1] == 0xA0))
    || (|e| == 3 && IsWideSpace(e[0], e[1], e[2]))
  }

  lemma SpaceBytes(c: nat)
    requires IsScalar(c)
    ensures IsSpaceBytes(Encode(c)) <==> IsWhiteSpace(c)
  {
    var e := Encode(c);
    if 0x80 <= c < 0x800 {
      assert c == (e[0] as nat - 0xC0) * 64 + (e[1] as nat - 0x80);
    } else if 0x800 <= c < 0x1_0000 {
      assert c == (e[0] as nat - 0xE0) * 4096 + (e[1] as nat - 0x80) * 64 + (e[2] as nat - 0x80);
    }
  }

  /** The bytes of a character: a first one that says how many there are, and continuations. */
  lemma Shape(c: nat)
    requires IsScalar(c)
    ensures var e := Encode(c);
      && (|e| == 1 <==> e[0] < 0x80) && (|e| == 2 <==> 0xC2 <= e[0] < 0xE0) && (|e| == 3 <==> 0xE0 <= e[0] < 0xF0)
      && (|e| == 4 <==> 0xF0 <= e[0]) && forall i :: 0 < i < |e| ==> IsContinuation(e[i])
  {
  }

  /** At the start of a text, exactly the white space characters are trimmed. */
  lemma SpaceIff(c: nat, rest: seq<byte>)
    requires IsScalar(c)
    ensures SpaceLength(Encode(c) + rest) == if IsWhiteSpace(c) then |Encode(c)| else 0
  {
    SpaceBytes(c);
    Shape(c);
    StartSpace(Encode(c), rest);
  }

  predicate Shaped(e: seq<byte>) {
    && 0 < |e| <= 4 && (|e| == 1 <==> e[0] < 0x80) && (|e| == 2 <==> 0xC2 <= e[0] < 0xE0)
    && (|e| == 3 <==> 0xE0 <= e[0] < 0xF0) && forall i :: 0 < i < |e| ==> IsContinuation(e[i])
  }

  lemma StartSpace(e: seq<byte>, rest: seq<byte>)
    requires Shaped(e)
    ensures SpaceLength(e + rest) == if IsSpaceBytes(e) then |e| else 0
  {
    assert forall i :: 0 <= i < |e| ==> (e + rest)[i] == e[i];
  }

  /** And at its end. */
  lemma EndSpaceIff(rest: seq<byte>, c: nat)
    requires IsScalar(c)
    ensures EndSpaceLength(rest + Encode(c)) == if IsWhiteSpace(c) then |Encode(c)| else 0
  {
    SpaceBytes(c);
    Shape(c);
    EndSpace(rest, Encode(c));
  }

  lemma EndSpace(rest: seq<byte>, e: seq<byte>)
    requires Shaped(e)
    ensures EndSpaceLength(rest + e) == if IsSpaceBytes(e) then |e| else 0
  {
    assert forall i :: 0 <= i < |e| ==> (rest + e)[|rest| + i] == e[i];
  }
}
