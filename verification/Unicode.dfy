// Python text as code points, and strict UTF-8 (section 3 of RFC 3629), which
// shared/json_contract.py:167-192 and 287-292 use at both ends.
module Unicode {
  import opened Bytes
  import opened Options

  type CodePoint = c: int | 0 <= c < 0x11_0000

  type Text = seq<CodePoint>

  // A Python string may hold a lone surrogate; UTF-8 may not.
  predicate IsScalar(c: CodePoint) { !(0xD800 <= c <= 0xDFFF) }

  predicate IsScalarText(t: Text) { forall c :: c in t ==> IsScalar(c) }

  function EncodeOne(c: CodePoint): (b: seq<Byte>)
    ensures |b| > 0
  {
    if c < 0x80 then [c]
    else if c < 0x800 then [0xC0 + c / 64, 0x80 + c % 64]
    else if c < 0x1_0000 then [0xE0 + c / 4096, 0x80 + c / 64 % 64, 0x80 + c % 64]
    else [0xF0 + c / 262144, 0x80 + c / 4096 % 64, 0x80 + c / 64 % 64, 0x80 + c % 64]
  }

  function Encoded(t: Text): seq<Byte> {
    if t == [] then [] else EncodeOne(t[0]) + Encoded(t[1..])
  }

  // `str.encode("utf-8", "strict")`.
  function Encode(t: Text): Option<seq<Byte>> {
    if IsScalarText(t) then Some(Encoded(t)) else None
  }

  predicate IsTail(b: Byte) { 0x80 <= b < 0xC0 }

  // The payload of a byte whose marker bits have this value.
  function Bits(b: Byte, marker: int): int { b - marker }

  // Bytes in the sequence this lead byte starts, or 0 when none starts here.
  function Width(lead: Byte): nat {
    if lead < 0x80 then 1 else if lead < 0xC2 then 0 else if lead < 0xE0 then 2
    else if lead < 0xF0 then 3 else if lead < 0xF5 then 4 else 0
  }

  function Two(lead: Byte, b: Byte): int { 64 * Bits(lead, 0xC0) + Bits(b, 0x80) }

  function Three(lead: Byte, b: Byte, c: Byte): int {
    4096 * Bits(lead, 0xE0) + 64 * Bits(b, 0x80) + Bits(c, 0x80)
  }

  function Four(lead: Byte, b: Byte, c: Byte, d: Byte): int {
    262144 * Bits(lead, 0xF0) + 4096 * Bits(b, 0x80) + 64 * Bits(c, 0x80) + Bits(d, 0x80)
  }

  function DecodeOne(b: seq<Byte>): (c: Option<CodePoint>)
    requires b != []
    ensures c.Some? ==> 0 < Width(b[0]) <= |b|
  {
    var width := Width(b[0]);
    if width == 0 || |b| < width then None
    else if width == 1 then Some(b[0])
    else if !IsTail(b[1]) then None
    else if width == 2 then Some(Two(b[0], b[1]))
    else if !IsTail(b[2]) then None
    else if width == 3 then
      var c := Three(b[0], b[1], b[2]);
      if c < 0x800 || 0xD800 <= c <= 0xDFFF then None else Some(c)
    else if !IsTail(b[3]) then None
    else
      var c := Four(b[0], b[1], b[2], b[3]);
      if c < 0x1_0000 || c >= 0x11_0000 then None else Some(c)
  }

  // `bytes.decode("utf-8", "strict")`.
  function Decode(b: seq<Byte>): Option<Text> {
    if b == [] then Some([])
    else
      var first := DecodeOne(b);
      if first.None? then None
      else
        var rest := Decode(b[Width(b[0])..]);
        if rest.None? then None else Some([first.value] + rest.value)
  }

  // Base-64 digits of a code point, and the code point of base-64 digits.
  lemma DigitsOf(c: nat)
    ensures c == 64 * (c / 64) + c % 64
    ensures c / 64 == 64 * (c / 4096) + c / 64 % 64
    ensures c / 4096 == 64 * (c / 262144) + c / 4096 % 64
  {
  }

  lemma FromDigits(w: nat, x: nat, y: nat, z: nat)
    requires x < 64 && y < 64 && z < 64
    ensures var c := 262144 * w + 4096 * x + 64 * y + z;
            c / 262144 == w && c / 4096 == 64 * w + x && c / 4096 % 64 == x
            && c / 64 == 4096 * w + 64 * x + y && c / 64 % 64 == y && c % 64 == z
  {
  }

  lemma OneRoundTrip(c: CodePoint, rest: seq<Byte>)
    requires IsScalar(c)
    ensures var b := EncodeOne(c) + rest;
            b != [] && DecodeOne(b) == Some(c) && Width(b[0]) == |EncodeOne(c)|
  {
    DigitsOf(c);
    var e := EncodeOne(c);
    var b := e + rest;
    assert forall k :: 0 <= k < |e| ==> b[k] == e[k];
    if c < 0x80 {
    } else if c < 0x800 {
      assert Two(e[0], e[1]) == c;
    } else if c < 0x1_0000 {
      assert Three(e[0], e[1], e[2]) == c;
    } else {
      assert Four(e[0], e[1], e[2], e[3]) == c;
    }
  }

  lemma TwoIsShortest(lead: Byte, b: Byte, c: CodePoint)
    requires 0xC2 <= lead < 0xE0 && IsTail(b) && c == Two(lead, b)
    ensures IsScalar(c) && EncodeOne(c) == [lead, b]
  {
    FromDigits(0, 0, Bits(lead, 0xC0), Bits(b, 0x80));
  }

  lemma ThreeIsShortest(lead: Byte, b: Byte, d: Byte, c: CodePoint)
    requires 0xE0 <= lead < 0xF0 && IsTail(b) && IsTail(d) && c == Three(lead, b, d) && c >= 0x800
    ensures EncodeOne(c) == [lead, b, d]
  {
    FromDigits(0, Bits(lead, 0xE0), Bits(b, 0x80), Bits(d, 0x80));
  }

  lemma FourIsShortest(lead: Byte, b: Byte, d: Byte, e: Byte, c: CodePoint)
    requires 0xF0 <= lead < 0xF5 && IsTail(b) && IsTail(d) && IsTail(e) && c == Four(lead, b, d, e) && c >= 0x1_0000
    ensures EncodeOne(c) == [lead, b, d, e]
  {
    FromDigits(Bits(lead, 0xF0), Bits(b, 0x80), Bits(d, 0x80), Bits(e, 0x80));
  }

  // Strictness: a decoded sequence is the one encoding of its code point.
  lemma OneIsShortest(b: seq<Byte>)
    requires b != [] && DecodeOne(b).Some?
    ensures var c := DecodeOne(b).value; IsScalar(c) && EncodeOne(c) == b[..Width(b[0])]
  {
    var width := Width(b[0]);
    var c := DecodeOne(b).value;
    if width == 2 {
      TwoIsShortest(b[0], b[1], c);
    } else if width == 3 {
      ThreeIsShortest(b[0], b[1], b[2], c);
    } else if width == 4 {
      FourIsShortest(b[0], b[1], b[2], b[3], c);
    }
  }

  lemma {:induction false} EncodedDecodes(t: Text)
    requires IsScalarText(t)
    ensures Decode(Encoded(t)) == Some(t)
  {
    if t != [] {
      var rest := Encoded(t[1..]);
      OneRoundTrip(t[0], rest);
      assert (EncodeOne(t[0]) + rest)[|EncodeOne(t[0])|..] == rest;
      EncodedDecodes(t[1..]);
      assert [t[0]] + t[1..] == t;
    }
  }

  lemma DecodeStep(b: seq<Byte>)
    requires b != [] && Decode(b).Some?
    ensures DecodeOne(b).Some? && Decode(b[Width(b[0])..]).Some?
    ensures Decode(b).value == [DecodeOne(b).value] + Decode(b[Width(b[0])..]).value
  {
  }

  lemma EncodedCons(c: CodePoint, t: Text)
    requires IsScalar(c) && IsScalarText(t)
    ensures Encode([c] + t) == Some(EncodeOne(c) + Encoded(t))
  {
    assert ([c] + t)[1..] == t;
  }

  lemma {:induction false} DecodedEncodes(b: seq<Byte>)
    requires Decode(b).Some?
    ensures Encode(Decode(b).value) == Some(b)
    decreases |b|
  {
    if b != [] {
      var rest := b[Width(b[0])..];
      DecodeStep(b);
      OneIsShortest(b);
      DecodedEncodes(rest);
      var c, t := DecodeOne(b).value, Decode(rest).value;
      EncodedCons(c, t);
      assert Encode(Decode(b).value) == Some(EncodeOne(c) + rest);
      assert b == b[..Width(b[0])] + rest;
    }
  }

  // Text and its bytes determine each other.
  lemma EncodingIsExact(t: Text, b: seq<Byte>)
    ensures Encode(t) == Some(b) <==> Decode(b) == Some(t)
  {
    if Encode(t) == Some(b) {
      EncodedDecodes(t);
    }
    if Decode(b) == Some(t) {
      DecodedEncodes(b);
    }
  }
}
