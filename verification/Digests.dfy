/** SHA-256 digests as text: the hexadecimal codec and the texts it accepts. */
module Digests {
  import opened Base
  import opened Text

  type Digest = d: seq<byte> | |d| == 32 witness Zeros(32)

  const PREFIX := "sha256:"

  function Digit(n: byte): (c: char)
    requires n < 16
    ensures IsHexDigit(c) && AsciiLower(c) == c
  {
    if n < 10 then ('0' as int + n as int) as char else ('a' as int + n as int - 10) as char
  }

  function DigitValue(c: char): (n: byte)
    requires IsHexDigit(c)
    ensures n < 16 && Digit(n) == AsciiLower(c)
  {
    if IsDigit(c) then (c as int - '0' as int) as byte
    else if IsLower(c) then (c as int - 'a' as int + 10) as byte
    else (c as int - 'A' as int + 10) as byte
  }

  function Hex(bytes: seq<byte>): (s: string)
    ensures |s| == 2 * |bytes|
  {
    if bytes == [] then []
    else
      var last := bytes[|bytes| - 1];
      Hex(bytes[..|bytes| - 1]) + [Digit(last / 16), Digit(last % 16)]
  }

  /** `u8::from_str_radix` on two characters: a plus sign may stand for the high digit. */
  function PairValue(high: char, low: char): Option<byte> {
    if !IsHexDigit(low) then None
    else if high == '+' then Some(DigitValue(low))
    else if IsHexDigit(high) then Some(16 * DigitValue(high) + DigitValue(low))
    else None
  }

  function Unhex(s: string): (r: Option<seq<byte>>)
    requires |s| % 2 == 0
    ensures r.Some? ==> 2 * |r.value| == |s|
  {
    if s == [] then Some([])
    else
      var n := |s| - 2;
      var init := Unhex(s[..n]);
      var pair := PairValue(s[n], s[n + 1]);
      if init.Some? && pair.Some? then Some(init.value + [pair.value]) else None
  }

  /** The text of a digest. */
  function Show(d: Digest): string { PREFIX + Hex(d) }

  /** `Digest::from_str`. */
  function FromStr(s: string): Option<Digest> {
    if !(PREFIX <= s) || |s| != 71 then None
    else
      var r := Unhex(s[7..]);
      if r.Some? then Some(r.value) else None
  }

  /** `parse_digest`: the algorithm name may be left out. */
  function ParseDigest(s: string): Option<Digest> {
    if PREFIX <= s then FromStr(s) else FromStr(PREFIX + s)
  }

  // The loops.

  method EncodeHex(bytes: seq<byte>) returns (output: string)
    ensures output == Hex(bytes)
  {
    output := "";
    for i := 0 to |bytes|
      invariant output == Hex(bytes[..i])
    {
      assert bytes[..i + 1][..i] == bytes[..i];
      output := output + [Digit(bytes[i] / 16)];
      output := output + [Digit(bytes[i] % 16)];
    }
    assert bytes[..|bytes|] == bytes;
  }

  lemma {:induction false} UnhexFails(s: string, n: nat)
    requires |s| % 2 == 0 && n % 2 == 0 && n <= |s| && Unhex(s[..n]).None?
    ensures Unhex(s).None?
    decreases |s|
  {
    if n == |s| {
      assert s[..n] == s;
    } else {
      assert s[..|s| - 2][..n] == s[..n];
      UnhexFails(s[..|s| - 2], n);
    }
  }

  method DecodeHex(s: string) returns (r: Option<seq<byte>>)
    requires |s| % 2 == 0
    ensures r == Unhex(s)
  {
    var bytes: seq<byte> := [];
    for i := 0 to |s| / 2
      invariant Unhex(s[..2 * i]) == Some(bytes)
    {
      var pair := PairValue(s[2 * i], s[2 * i + 1]);
      assert s[..2 * i + 2][..2 * i] == s[..2 * i];
      if pair.None? {
        UnhexFails(s, 2 * i + 2);
        return None;
      }
      bytes := bytes + [pair.value];
    }
    assert s[..2 * (|s| / 2)] == s;
    return Some(bytes);
  }

  // Round trips.

  /** Decoding what was encoded gives the bytes back. */
  lemma {:induction false} HexRoundTrip(bytes: seq<byte>)
    ensures Unhex(Hex(bytes)) == Some(bytes)
  {
    if bytes != [] {
      var init, last := bytes[..|bytes| - 1], bytes[|bytes| - 1];
      HexRoundTrip(init);
      var s := Hex(bytes);
      assert s[..|s| - 2] == Hex(init);
      assert init + [last] == bytes;
    }
  }

  predicate IsCanonicalHex(s: string) {
    forall i :: 0 <= i < |s| ==> IsHexDigit(s[i]) && AsciiLower(s[i]) == s[i]
  }

  /** A digest text printed again is unchanged exactly when it is all lower-case hexadecimal. */
  lemma {:induction false} HexIsCanonicalIff(s: string)
    requires |s| % 2 == 0 && Unhex(s).Some?
    ensures Hex(Unhex(s).value) == s <==> IsCanonicalHex(s)
  {
    if s != [] {
      var n := |s| - 2;
      HexIsCanonicalIff(s[..n]);
      var pair := LastPairPrints(s);
      SameConcat(Hex(Unhex(s[..n]).value), s[..n], pair, s[n..]);
      CanonicalConcat(s[..n], s[n..]);
      assert s == s[..n] + s[n..];
    }
  }

  lemma LastPairPrints(s: string) returns (pair: string)
    requires |s| % 2 == 0 && s != [] && Unhex(s).Some?
    ensures var n := |s| - 2;
      && Hex(Unhex(s).value) == Hex(Unhex(s[..n]).value) + pair
      && (pair == s[n..] <==> IsCanonicalHex(s[n..]))
  {
    var n := |s| - 2;
    var value := PairValue(s[n], s[n + 1]).value;
    pair := [Digit(value / 16), Digit(value % 16)];
    HexOfOneMore(Unhex(s[..n]).value, value);
    PairPrints(s[n], s[n + 1]);
    assert s[n..] == [s[n], s[n + 1]];
  }

  lemma HexOfOneMore(bytes: seq<byte>, last: byte)
    ensures Hex(bytes + [last]) == Hex(bytes) + [Digit(last / 16), Digit(last % 16)]
  {
    assert (bytes + [last])[..|bytes|] == bytes;
  }

  lemma SameConcat(a: string, b: string, c: string, d: string)
    requires |a| == |b|
    ensures a + c == b + d <==> a == b && c == d
  {
    if a + c == b + d {
      assert a == (a + c)[..|a|] && c == (a + c)[|a|..];
      assert b == (b + d)[..|a|] && d == (b + d)[|a|..];
    }
  }

  lemma CanonicalConcat(a: string, b: string)
    ensures IsCanonicalHex(a + b) <==> IsCanonicalHex(a) && IsCanonicalHex(b)
  {
    var s := a + b;
    assert forall i :: 0 <= i < |a| ==> s[i] == a[i];
    assert forall i :: 0 <= i < |b| ==> s[|a| + i] == b[i];
    assert forall i :: |a| <= i < |s| ==> s[i] == b[i - |a|];
  }

  lemma PairPrints(h: char, l: char)
    requires PairValue(h, l).Some?
    ensures var v := PairValue(h, l).value;
      [Digit(v / 16), Digit(v % 16)] == [h, l] <==> IsCanonicalHex([h, l])
  {
    var v := PairValue(h, l).value;
    var high := if h == '+' then 0 else DigitValue(h);
    assert v / 16 == high && v % 16 == DigitValue(l);
    assert IsCanonicalHex([h, l]) <==> IsHexDigit(h) && AsciiLower(h) == h && AsciiLower(l) == l by {
      assert [h, l][0] == h && [h, l][1] == l;
    }
    assert [Digit(high), Digit(DigitValue(l))] == [h, l] <==> Digit(high) == h && AsciiLower(l) == l;
  }

  /** Every digest is read back from its own text, with or without the algorithm name. */
  lemma DigestRoundTrip(d: Digest)
    ensures FromStr(Show(d)) == Some(d)
    ensures ParseDigest(Show(d)) == Some(d) && ParseDigest(Hex(d)) == Some(d)
  {
    HexRoundTrip(d);
    assert Show(d)[7..] == Hex(d);
    HexHasNoPrefix(d);
  }

  lemma HexHasNoPrefix(d: Digest)
    ensures !(PREFIX <= Hex(d))
  {
    HexIsHex(d);
    assert IsHexDigit(Hex(d)[0]);
  }

  lemma {:induction false} HexIsHex(bytes: seq<byte>)
    ensures IsCanonicalHex(Hex(bytes))
  {
    if bytes != [] {
      HexIsHex(bytes[..|bytes| - 1]);
    }
  }

  /** So different digests have different names. */
  lemma HexInjective(a: Digest, b: Digest)
    requires Hex(a) == Hex(b)
    ensures a == b
  {
    HexRoundTrip(a);
    HexRoundTrip(b);
  }
}
