// Strings as JSON text spells them (section 7 of RFC 8259, with Python's reading of surrogate
// escapes), and what the decoder reads from every spelling (shared/json_contract.py:155-208).
module StringGrammar {
  import opened Options
  import opened Unicode
  import opened CanonicalNumbers
  import opened JsonPrinter
  import opened JsonParser
  import opened JsonRoundTrip
  import opened NumeralGrammar

  // One character as it may be written: itself, a short escape, one \u escape, or the two of a
  // surrogate pair.
  datatype Glyph = Raw(c: CodePoint) | Short(letter: CodePoint) | Unit(hex: Text) | Pair(high: Text, low: Text)

  const SHORTS: map<CodePoint, CodePoint> := map[
    Code('"') := 0x22, Code('\\') := 0x5C, Code('/') := 0x2F,
    Code('b') := 0x08, Code('f') := 0x0C, Code('n') := 0x0A, Code('r') := 0x0D, Code('t') := 0x09]

  function HexOf(c: CodePoint): (d: Option<nat>)
    ensures d.Some? ==> d.value < 16
  {
    if Code('0') <= c <= Code('9') then Some(c - Code('0'))
    else if Code('a') <= c <= Code('f') then Some(c - Code('a') + 10)
    else if Code('A') <= c <= Code('F') then Some(c - Code('A') + 10)
    else None
  }

  predicate IsUnit(t: Text) {
    |t| == 4 && HexOf(t[0]).Some? && HexOf(t[1]).Some? && HexOf(t[2]).Some? && HexOf(t[3]).Some?
  }

  // The code unit that four hexadecimal digits write.
  function HexNumber(t: Text): (n: nat)
    requires IsUnit(t)
    ensures n < 0x1_0000
  {
    0x1000 * HexOf(t[0]).value + 0x100 * HexOf(t[1]).value + 0x10 * HexOf(t[2]).value + HexOf(t[3]).value
  }

  predicate IsHigh(t: Text) { IsUnit(t) && 0xD800 <= HexNumber(t) < 0xDC00 }

  predicate IsLow(t: Text) { IsUnit(t) && 0xDC00 <= HexNumber(t) < 0xE000 }

  predicate GlyphOk(g: Glyph) {
    match g
    case Raw(c) => c >= 0x20 && c != Code('"') && c != Code('\\')
    case Short(letter) => letter in SHORTS
    case Unit(hex) => IsUnit(hex)
    case Pair(high, low) => IsHigh(high) && IsLow(low)
  }

  // Two \u escapes that form a pair are one glyph.
  predicate Spells(gs: seq<Glyph>) {
    && (forall i :: 0 <= i < |gs| ==> GlyphOk(gs[i]))
    && forall i :: 0 <= i < |gs| - 1 ==>
         !(gs[i].Unit? && gs[i + 1].Unit? && IsHigh(gs[i].hex) && IsLow(gs[i + 1].hex))
  }

  function UnitText(hex: Text): Text { [Code('\\'), Code('u')] + hex }

  function GlyphText(g: Glyph): Text {
    match g
    case Raw(c) => [c]
    case Short(letter) => [Code('\\'), letter]
    case Unit(hex) => UnitText(hex)
    case Pair(high, low) => UnitText(high) + UnitText(low)
  }

  function GlyphsText(gs: seq<Glyph>): Text {
    if gs == [] then [] else GlyphText(gs[0]) + GlyphsText(gs[1..])
  }

  // What a glyph means; the pair by the formula of UTF-16 (section 2.1 of RFC 2781).
  function Meant(g: Glyph): CodePoint
    requires GlyphOk(g)
  {
    match g
    case Raw(c) => c
    case Short(letter) => SHORTS[letter]
    case Unit(hex) => HexNumber(hex)
    case Pair(high, low) => 0x1_0000 + (HexNumber(high) - 0xD800) * 0x400 + (HexNumber(low) - 0xDC00)
  }

  function TextMeant(gs: seq<Glyph>): Text
    requires forall i :: 0 <= i < |gs| ==> GlyphOk(gs[i])
  {
    seq(|gs|, i requires 0 <= i < |gs| => Meant(gs[i]))
  }

  // ---- Reading one glyph ----

  lemma HexDigitIs(c: CodePoint)
    ensures HexValue(c) == HexOf(c)
  {
  }

  // Four hexadecimal digits in front of anything.
  lemma UnitRead(hex: Text, rest: Text)
    requires IsUnit(hex)
    ensures FourHex(hex + rest) == Some(HexNumber(hex)) && (hex + rest)[4..] == rest
  {
    HexDigitIs(hex[0]);
    HexDigitIs(hex[1]);
    HexDigitIs(hex[2]);
    HexDigitIs(hex[3]);
  }

  lemma EscapeText(hex: Text, rest: Text)
    requires |hex| == 4
    ensures var t := UnitText(hex) + rest; t[0] == BACKSLASH && t[1] == 117 && t[2..] == hex + rest && t[6..] == rest
  {
  }

  lemma UnitGlyphRead(hex: Text, rest: Text)
    requires IsUnit(hex) && (IsHigh(hex) ==> LowSurrogate(rest).None?)
    ensures ParseCharacter(UnitText(hex) + rest) == Good(HexNumber(hex), rest)
  {
    EscapeText(hex, rest);
    UnitRead(hex, rest);
  }

  lemma LowRead(low: Text, rest: Text)
    requires IsUnit(low)
    ensures LowSurrogate(UnitText(low) + rest) == if IsLow(low) then Some(HexNumber(low)) else None
  {
    EscapeText(low, rest);
    UnitRead(low, rest);
  }

  lemma PairGlyphRead(high: Text, low: Text, rest: Text)
    requires IsHigh(high) && IsLow(low)
    ensures ParseCharacter(UnitText(high) + UnitText(low) + rest) == Good(Meant(Pair(high, low)), rest)
  {
    var after := UnitText(low) + rest;
    var t := UnitText(high) + after;
    assert UnitText(high) + UnitText(low) + rest == t;
    EscapeText(high, after);
    UnitRead(high, after);
    LowRead(low, rest);
    assert t[12..] == after[6..] by {
      assert t[6..][6..] == t[12..];
    }
    EscapeText(low, rest);
  }

  lemma ShortGlyphRead(letter: CodePoint, rest: Text)
    requires letter in SHORTS
    ensures ParseCharacter([Code('\\'), letter] + rest) == Good(SHORTS[letter], rest)
  {
    assert ([Code('\\'), letter] + rest)[2..] == rest;
  }

  // What a glyph that is not the second half of a pair starts with.
  lemma NoLow(gs: seq<Glyph>, rest: Text)
    requires Spells(gs) && (gs == [] || !(gs[0].Unit? && IsLow(gs[0].hex)))
    ensures LowSurrogate(GlyphsText(gs) + ([QUOTE] + rest)).None?
  {
    if gs == [] {
      assert GlyphsText(gs) + ([QUOTE] + rest) == [QUOTE] + rest;
    } else {
      var more := GlyphsText(gs[1..]) + ([QUOTE] + rest);
      Associates(GlyphText(gs[0]), GlyphsText(gs[1..]), [QUOTE] + rest);
      GlyphIsNoLow(gs[0], more);
    }
  }

  lemma GlyphIsNoLow(g: Glyph, more: Text)
    requires GlyphOk(g) && !(g.Unit? && IsLow(g.hex))
    ensures LowSurrogate(GlyphText(g) + more).None?
  {
    match g
    case Raw(c) =>
    case Short(letter) => assert (GlyphText(g) + more)[1] == letter;
    case Unit(hex) => LowRead(hex, more);
    case Pair(high, low) =>
      Associates(UnitText(high), UnitText(low), more);
      LowRead(high, UnitText(low) + more);
  }

  lemma GlyphRead(g: Glyph, rest: Text)
    requires GlyphOk(g) && (g.Unit? && IsHigh(g.hex) ==> LowSurrogate(rest).None?)
    ensures var t := GlyphText(g) + rest; t != [] && t[0] != QUOTE && ParseCharacter(t) == Good(Meant(g), rest)
  {
    match g
    case Raw(c) => assert ([c] + rest)[1..] == rest;
    case Short(letter) => ShortGlyphRead(letter, rest);
    case Unit(hex) => UnitGlyphRead(hex, rest);
    case Pair(high, low) => PairGlyphRead(high, low, rest);
  }

  lemma SpellsRest(gs: seq<Glyph>)
    requires Spells(gs) && gs != []
    ensures GlyphOk(gs[0]) && Spells(gs[1..]) && TextMeant(gs) == [Meant(gs[0])] + TextMeant(gs[1..])
    ensures gs[0].Unit? && IsHigh(gs[0].hex) ==> |gs| == 1 || !(gs[1].Unit? && IsLow(gs[1].hex))
  {
    var rest := gs[1..];
    assert forall i :: 0 <= i < |rest| ==> rest[i] == gs[i + 1];
  }

  // Every spelling of a text is read as that text.
  lemma {:induction false} GlyphsRead(gs: seq<Glyph>, rest: Text)
    requires Spells(gs)
    ensures ParseString(GlyphsText(gs) + ([QUOTE] + rest)) == Good(TextMeant(gs), rest)
  {
    if gs == [] {
      assert GlyphsText(gs) + ([QUOTE] + rest) == [QUOTE] + rest;
      assert TextMeant(gs) == [];
    } else {
      var more := GlyphsText(gs[1..]) + ([QUOTE] + rest);
      Associates(GlyphText(gs[0]), GlyphsText(gs[1..]), [QUOTE] + rest);
      SpellsRest(gs);
      if gs[0].Unit? && IsHigh(gs[0].hex) {
        NoLow(gs[1..], rest);
      }
      GlyphRead(gs[0], more);
      GlyphsRead(gs[1..], rest);
    }
  }

  // ---- And only spellings are read ----

  lemma HexWritten(t: Text)
    requires FourHex(t).Some?
    ensures IsUnit(t[..4]) && HexNumber(t[..4]) == FourHex(t).value && t == t[..4] + t[4..]
  {
    HexDigitIs(t[0]);
    HexDigitIs(t[1]);
    HexDigitIs(t[2]);
    HexDigitIs(t[3]);
    UnitRead(t[..4], t[4..]);
  }

  lemma UnicodeWritten(t: Text) returns (g: Glyph)
    requires |t| >= 2 && t[0] == BACKSLASH && t[1] == 117 && ParseUnicodeEscape(t).Good?
    ensures GlyphOk(g) && t == GlyphText(g) + ParseUnicodeEscape(t).rest && ParseUnicodeEscape(t).value == Meant(g)
    ensures g.Unit? && IsHigh(g.hex) ==> LowSurrogate(ParseUnicodeEscape(t).rest).None?
  {
    var hex := t[2..][..4];
    HexWritten(t[2..]);
    assert t == UnitText(hex) + t[6..];
    var low := LowSurrogate(t[6..]);
    if IsHigh(hex) && low.Some? {
      var v := t[6..];
      HexWritten(v[2..]);
      g := Pair(hex, v[2..][..4]);
      assert v == UnitText(v[2..][..4]) + v[6..] && v[6..] == t[12..];
      Associates(UnitText(hex), UnitText(v[2..][..4]), t[12..]);
    } else {
      g := Unit(hex);
    }
  }

  lemma GlyphWritten(t: Text) returns (g: Glyph)
    requires t != [] && t[0] != QUOTE && ParseCharacter(t).Good?
    ensures GlyphOk(g) && t == GlyphText(g) + ParseCharacter(t).rest && ParseCharacter(t).value == Meant(g)
    ensures g.Unit? && IsHigh(g.hex) ==> LowSurrogate(ParseCharacter(t).rest).None?
  {
    if t[0] != BACKSLASH {
      g := Raw(t[0]);
    } else if t[1] == 117 {
      g := UnicodeWritten(t);
    } else {
      g := Short(t[1]);
      assert t == [t[0], t[1]] + t[2..];
    }
  }

  lemma FirstIsNoLow(gs: seq<Glyph>, rest: Text)
    requires Spells(gs) && gs != [] && gs[0].Unit? && LowSurrogate(GlyphsText(gs) + ([QUOTE] + rest)).None?
    ensures !IsLow(gs[0].hex)
  {
    Associates(GlyphText(gs[0]), GlyphsText(gs[1..]), [QUOTE] + rest);
    LowRead(gs[0].hex, GlyphsText(gs[1..]) + ([QUOTE] + rest));
  }

  lemma SpellsMore(g: Glyph, gs: seq<Glyph>)
    requires GlyphOk(g) && Spells(gs)
    requires g.Unit? && IsHigh(g.hex) && gs != [] && gs[0].Unit? ==> !IsLow(gs[0].hex)
    ensures Spells([g] + gs) && TextMeant([g] + gs) == [Meant(g)] + TextMeant(gs)
    ensures GlyphsText([g] + gs) == GlyphText(g) + GlyphsText(gs)
  {
    assert ([g] + gs)[1..] == gs;
  }

  lemma {:induction false} GlyphsWritten(t: Text) returns (gs: seq<Glyph>)
    requires ParseString(t).Good?
    ensures Spells(gs) && t == GlyphsText(gs) + ([QUOTE] + ParseString(t).rest) && ParseString(t).value == TextMeant(gs)
    decreases |t|
  {
    if t[0] == QUOTE {
      assert t == [QUOTE] + t[1..];
      return [];
    }
    var g := GlyphWritten(t);
    var u := ParseCharacter(t).rest;
    var more := GlyphsWritten(u);
    if g.Unit? && IsHigh(g.hex) && more != [] && more[0].Unit? {
      FirstIsNoLow(more, ParseString(u).rest);
    }
    SpellsMore(g, more);
    gs := [g] + more;
    Associates(GlyphText(g), GlyphsText(more), [QUOTE] + ParseString(u).rest);
  }

  // ---- Surrogate pairs ----

  lemma OneMore(t: Text, c: CodePoint, u: Text, s: Text, rest: Text)
    requires t != [] && t[0] != QUOTE && ParseCharacter(t) == Good(c, u) && ParseString(u) == Good(s, rest)
    ensures ParseString(t) == Good([c] + s, rest)
  {
  }

  lemma PairStarts(high: Text, low: Text, u: Text)
    ensures var t := UnitText(high) + UnitText(low) + u; t != [] && t[0] != QUOTE
  {
  }

  // Every character outside the basic plane is read from the two code units that UTF-16 encodes it
  // as, in hexadecimal digits of either case.
  lemma PairIsRead(c: CodePoint, high: Text, low: Text, rest: Text)
    requires c >= 0x1_0000 && IsUnit(high) && HexNumber(high) == 0xD800 + (c - 0x1_0000) / 0x400
    requires IsUnit(low) && HexNumber(low) == 0xDC00 + (c - 0x1_0000) % 0x400
    ensures ParseString(UnitText(high) + UnitText(low) + ([QUOTE] + rest)) == Good([c], rest)
  {
    PairMeans(c, high, low);
    PairEnds(high, low, rest, [QUOTE] + rest);
  }

  lemma PairMeans(c: CodePoint, high: Text, low: Text)
    requires c >= 0x1_0000 && IsUnit(high) && HexNumber(high) == 0xD800 + (c - 0x1_0000) / 0x400
    requires IsUnit(low) && HexNumber(low) == 0xDC00 + (c - 0x1_0000) % 0x400
    ensures IsHigh(high) && IsLow(low) && Meant(Pair(high, low)) == c
  {
  }

  lemma PairEnds(high: Text, low: Text, rest: Text, u: Text)
    requires IsHigh(high) && IsLow(low) && u == [QUOTE] + rest
    ensures ParseString(UnitText(high) + UnitText(low) + u) == Good([Meant(Pair(high, low))], rest)
  {
    var c := Meant(Pair(high, low));
    PairStarts(high, low, u);
    PairGlyphRead(high, low, u);
    assert u[1..] == rest && [c] + [] == [c];
    OneMore(UnitText(high) + UnitText(low) + u, c, u, [], rest);
  }
}
