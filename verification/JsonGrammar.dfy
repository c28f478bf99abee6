// The texts that the decoder accepts, and what it makes of them: sections 2 to 5 of RFC 8259 as
// concrete syntax, with white space anywhere it may stand, every spelling of a number and of a
// string (shared/json_contract.py:101-208).
module JsonGrammar {
  import opened Bytes
  import opened Options
  import opened Unicode
  import opened CanonicalNumbers
  import opened Json
  import opened JsonPrinter
  import opened JsonParser
  import opened CanonicalJson
  import opened NumeralGrammar
  import opened StringGrammar
  import J = JsonRoundTrip

  datatype Doc =
    | NullDoc
    | BoolDoc(b: bool)
    | NumberDoc(n: Numeral)
    | StringDoc(gs: seq<Glyph>)
    | ListDoc(space: Text, items: ItemDocs)
    | ObjectDoc(space: Text, members: MemberDocs)

  // Each value with the white space before and after what follows it: a comma or the end.
  datatype ItemDocs = NoItem | ItemDoc(value: Doc, after: Text, next: Text, tail: ItemDocs)

  datatype MemberDocs =
    | NoMember
    | MemberDoc(key: seq<Glyph>, before: Text, between: Text, value: Doc, after: Text, next: Text, tail: MemberDocs)

  predicate Space(t: Text) {
    forall c :: c in t ==> c == Code(' ') || c == Code('\t') || c == Code('\n') || c == Code('\r')
  }

  predicate DocOk(d: Doc) {
    match d
    case NumberDoc(n) => Spelled(n) && Small(n)
    case StringDoc(gs) => Spells(gs)
    case ListDoc(space, items) => Space(space) && ItemsOk(items)
    case ObjectDoc(space, members) => Space(space) && MembersOk(members)
    case _ => true
  }

  predicate ItemsOk(items: ItemDocs) {
    items.NoItem? || (DocOk(items.value) && Space(items.after) && Space(items.next) && ItemsOk(items.tail))
  }

  predicate MembersOk(m: MemberDocs) {
    m.NoMember?
    || (Spells(m.key) && Space(m.before) && Space(m.between) && DocOk(m.value) && Space(m.after) && Space(m.next)
        && MembersOk(m.tail))
  }

  function Chars(s: string): Text { seq(|s|, i requires 0 <= i < |s| => Code(s[i])) }

  function Quote(gs: seq<Glyph>): Text { [Code('"')] + (GlyphsText(gs) + [Code('"')]) }

  function DocText(d: Doc): Text {
    match d
    case NullDoc => Chars("null")
    case BoolDoc(b) => if b then Chars("true") else Chars("false")
    case NumberDoc(n) => NumeralText(n)
    case StringDoc(gs) => Quote(gs)
    case ListDoc(space, items) => [Code('[')] + (space + ItemsSpelled(items))
    case ObjectDoc(space, members) => [Code('{')] + (space + MembersSpelled(members))
  }

  function ItemsSpelled(items: ItemDocs): Text
    decreases items, 1
  {
    if items.NoItem? then [Code(']')] else DocText(items.value) + (items.after + ItemsEnd(items))
  }

  function ItemsEnd(items: ItemDocs): Text
    requires items.ItemDoc?
    decreases items, 0
  {
    if items.tail.NoItem? then [Code(']')] else [Code(',')] + (items.next + ItemsSpelled(items.tail))
  }

  function MembersSpelled(m: MemberDocs): Text
    decreases m, 1
  {
    if m.NoMember? then [Code('}')]
    else Quote(m.key) + (m.before + ([Code(':')] + (m.between + (DocText(m.value) + (m.after + MembersEnd(m))))))
  }

  function MembersEnd(m: MemberDocs): Text
    requires m.MemberDoc?
    decreases m, 0
  {
    if m.tail.NoMember? then [Code('}')] else [Code(',')] + (m.next + MembersSpelled(m.tail))
  }

  function Meaning(d: Doc): Json
    requires DocOk(d)
  {
    match d
    case NullDoc => Null
    case BoolDoc(b) => Bool(b)
    case NumberDoc(n) => Num(NumberMeant(n))
    case StringDoc(gs) => Str(TextMeant(gs))
    case ListDoc(_, items) => Arr(ItemsMeaning(items))
    case ObjectDoc(_, members) => Obj(MembersMeaning(members))
  }

  function ItemsMeaning(items: ItemDocs): Items
    requires ItemsOk(items)
  {
    if items.NoItem? then NoItems else Item(Meaning(items.value), ItemsMeaning(items.tail))
  }

  function MembersMeaning(m: MemberDocs): Members
    requires MembersOk(m)
  {
    if m.NoMember? then NoMembers else Member(TextMeant(m.key), Meaning(m.value), MembersMeaning(m.tail))
  }

  // ---- White space ----

  lemma {:induction false} SpaceSkipped(space: Text, t: Text)
    requires Space(space) && (t == [] || !IsSpace(t[0]))
    ensures SkipSpace(space + t) == t
  {
    if space == [] {
      assert space + t == t;
    } else {
      assert space[0] in space;
      assert (space + t)[1..] == space[1..] + t;
      assert forall c :: c in space[1..] ==> c in space;
      SpaceSkipped(space[1..], t);
    }
  }

  lemma {:induction false} SpaceWritten(t: Text) returns (space: Text)
    ensures Space(space) && t == space + SkipSpace(t) && (SkipSpace(t) == [] || !IsSpace(SkipSpace(t)[0]))
  {
    if t != [] && IsSpace(t[0]) {
      var more := SpaceWritten(t[1..]);
      space := [t[0]] + more;
      assert t == [t[0]] + t[1..];
      J.Associates([t[0]], more, SkipSpace(t));
    } else {
      space := [];
      assert [] + t == t;
    }
  }

  // What may follow a value: nothing, white space, a comma or the end of what encloses it.
  predicate Follows(rest: Text) {
    rest == [] || IsSpace(rest[0]) || rest[0] == COMMA || rest[0] == CLOSE_LIST || rest[0] == CLOSE_OBJECT
  }

  lemma SpaceFollows(space: Text, rest: Text)
    requires Space(space) && Follows(rest)
    ensures Follows(space + rest)
  {
    if space != [] {
      assert space[0] in space;
    } else {
      assert space + rest == rest;
    }
  }

  // ---- Single values ----

  lemma NumberStarts(n: Numeral, rest: Text)
    requires Spelled(n)
    ensures var t := NumeralText(n) + rest; t != [] && (IsDigit(t[0]) || (t[0] == MINUS && |t| > 1 && IsDigit(t[1])))
  {
    SignReads(n, NumeralText(n) + rest, UnsignedText(n) + rest, rest);
  }

  lemma DocStarts(d: Doc, rest: Text)
    requires DocOk(d)
    ensures J.Starts(DocText(d) + rest)
  {
    if d.NumberDoc? {
      NumberStarts(d.n, rest);
    }
  }

  lemma NumberDocReads(n: Numeral, rest: Text)
    requires Spelled(n) && Small(n) && Follows(rest)
    ensures ParseValue(NumeralText(n) + rest, true) == Good(Num(NumberMeant(n)), rest)
  {
    NumberStarts(n, rest);
    J.OnlyANumber(NumeralText(n) + rest, true);
    NumeralReads(n, rest);
  }

  lemma QuoteReads(gs: seq<Glyph>, rest: Text)
    requires Spells(gs)
    ensures var t := Quote(gs) + rest; t != [] && t[0] == QUOTE && ParseString(t[1..]) == Good(TextMeant(gs), rest)
  {
    GlyphsRead(gs, rest);
    QuoteText(GlyphsText(gs), rest);
  }

  lemma QuoteText(inner: Text, rest: Text)
    ensures var t := ([Code('"')] + (inner + [Code('"')])) + rest;
            t != [] && t[0] == QUOTE && t == [QUOTE] + t[1..] && t[1..] == inner + ([QUOTE] + rest)
  {
    assert [Code('"')] == [QUOTE];
    J.Associates(inner, [QUOTE], rest);
    J.Associates([QUOTE], inner + [QUOTE], rest);
  }

  lemma WordReads(d: Doc, rest: Text)
    requires d.NullDoc? || d.BoolDoc?
    ensures ParseValue(DocText(d) + rest, true) == Good(Meaning(d), rest)
  {
    var v := Meaning(d);
    assert DocText(d) == Print(v);
    J.WordValue(v, rest, true);
  }

  // ---- Lists and objects ----

  // What follows the first item, and the first member.
  function ItemsRest(items: ItemDocs, rest: Text): Text
    requires items.ItemDoc?
  {
    if items.tail.NoItem? then [CLOSE_LIST] + rest else [COMMA] + (items.next + (ItemsSpelled(items.tail) + rest))
  }

  lemma ItemsCut(items: ItemDocs, rest: Text)
    requires items.ItemDoc?
    ensures ItemsEnd(items) + rest == ItemsRest(items, rest)
    ensures ItemsSpelled(items) + rest == DocText(items.value) + (items.after + ItemsRest(items, rest))
  {
    if items.tail.ItemDoc? {
      Regroup([COMMA], items.next, ItemsSpelled(items.tail), rest);
    }
    Regroup(DocText(items.value), items.after, ItemsEnd(items), rest);
  }

  function MembersRest(m: MemberDocs, rest: Text): Text
    requires m.MemberDoc?
  {
    if m.tail.NoMember? then [CLOSE_OBJECT] + rest else [COMMA] + (m.next + (MembersSpelled(m.tail) + rest))
  }

  // The text from the first member's value on.
  function ValueRest(m: MemberDocs, rest: Text): Text
    requires m.MemberDoc?
  {
    DocText(m.value) + (m.after + MembersRest(m, rest))
  }

  lemma Regroup(a: Text, b: Text, c: Text, d: Text)
    ensures (a + (b + c)) + d == a + (b + (c + d))
  {
  }

  lemma MembersCut(m: MemberDocs, rest: Text)
    requires m.MemberDoc?
    ensures MembersEnd(m) + rest == MembersRest(m, rest)
    ensures MembersSpelled(m) + rest == Quote(m.key) + (m.before + ([COLON] + (m.between + ValueRest(m, rest))))
  {
    if m.tail.MemberDoc? {
      Regroup([COMMA], m.next, MembersSpelled(m.tail), rest);
    }
    var value := DocText(m.value) + (m.after + MembersEnd(m));
    Regroup(DocText(m.value), m.after, MembersEnd(m), rest);
    Regroup([COLON], m.between, value, rest);
    Regroup(Quote(m.key), m.before, [COLON] + (m.between + value), rest);
  }

  // Every spelled document is read as what it means.
  lemma {:induction false} DocReads(d: Doc, rest: Text)
    requires DocOk(d) && WellFormed(Meaning(d)) && Follows(rest)
    ensures ParseValue(DocText(d) + rest, true) == Good(Meaning(d), rest)
    decreases d, 2
  {
    match d
    case NumberDoc(n) => NumberDocReads(n, rest);
    case StringDoc(gs) => QuoteReads(gs, rest);
    case ListDoc(space, items) => ListReads(space, items, rest);
    case ObjectDoc(space, members) => ObjectReads(space, members, rest);
    case _ => WordReads(d, rest);
  }

  lemma Opened(space: Text, u: Text)
    requires Space(space) && u != [] && !IsSpace(u[0])
    ensures ParseValue([OPEN_LIST] + (space + u), true) == ParseList(u, true)
    ensures ParseValue([OPEN_OBJECT] + (space + u), true) == ParseObject(u, true)
  {
    J.Opens([OPEN_LIST] + (space + u), space + u, true);
    J.Opens([OPEN_OBJECT] + (space + u), space + u, true);
    SpaceSkipped(space, u);
  }

  lemma EmptyReads(rest: Text)
    ensures ParseList([CLOSE_LIST] + rest, true) == Good(Arr(NoItems), rest)
    ensures ParseObject([CLOSE_OBJECT] + rest, true) == Good(Obj(NoMembers), rest)
  {
    assert ([CLOSE_LIST] + rest)[1..] == rest && ([CLOSE_OBJECT] + rest)[1..] == rest;
  }

  lemma {:induction false} ListReads(space: Text, items: ItemDocs, rest: Text)
    requires Space(space) && ItemsOk(items) && ItemsWellFormed(ItemsMeaning(items)) && Follows(rest)
    ensures ParseValue(DocText(ListDoc(space, items)) + rest, true) == Good(Arr(ItemsMeaning(items)), rest)
    decreases items, 1
  {
    if items.NoItem? {
      EmptyReads(rest);
    } else {
      ItemsCut(items, rest);
      DocStarts(items.value, items.after + ItemsRest(items, rest));
      ItemsRead(items, rest);
    }
    Regroup([OPEN_LIST], space, ItemsSpelled(items), rest);
    Opened(space, ItemsSpelled(items) + rest);
  }

  lemma {:induction false} ItemsRead(items: ItemDocs, rest: Text)
    requires items.ItemDoc? && ItemsOk(items) && ItemsWellFormed(ItemsMeaning(items)) && Follows(rest)
    ensures ParseItems(ItemsSpelled(items) + rest, true) == Good(ItemsMeaning(items), rest)
    decreases items, 0
  {
    var more := ItemsRest(items, rest);
    ItemsCut(items, rest);
    SpaceFollows(items.after, more);
    DocReads(items.value, items.after + more);
    SpaceSkipped(items.after, more);
    if items.tail.NoItem? {
      assert more[1..] == rest;
    } else {
      var u := ItemsSpelled(items.tail) + rest;
      ItemsRead(items.tail, rest);
      ItemsCut(items.tail, rest);
      DocStarts(items.tail.value, items.tail.after + ItemsRest(items.tail, rest));
      assert more[1..] == items.next + u;
      SpaceSkipped(items.next, u);
    }
  }

  lemma {:induction false} ObjectReads(space: Text, m: MemberDocs, rest: Text)
    requires Space(space) && MembersOk(m) && MembersWellFormed(MembersMeaning(m)) && Follows(rest)
    ensures ParseValue(DocText(ObjectDoc(space, m)) + rest, true) == Good(Obj(MembersMeaning(m)), rest)
    decreases m, 1
  {
    if m.NoMember? {
      EmptyReads(rest);
    } else {
      MembersStart(m, rest);
      MembersRead(m, rest);
      WellFormedIsDistinct(MembersMeaning(m));
    }
    Regroup([OPEN_OBJECT], space, MembersSpelled(m), rest);
    Opened(space, MembersSpelled(m) + rest);
  }

  lemma MembersStart(m: MemberDocs, rest: Text)
    requires m.MemberDoc?
    ensures var t := MembersSpelled(m) + rest; J.Starts(t) && t[0] == QUOTE
  {
    MembersCut(m, rest);
  }

  lemma KeyRead(m: MemberDocs, u: Text, t: Text)
    requires m.MemberDoc? && MembersOk(m) && J.Starts(u)
    requires t == Quote(m.key) + (m.before + ([COLON] + (m.between + u)))
    ensures ParseMembers(t, true) == ParseMembersFrom(TextMeant(m.key), u, true)
  {
    var v := [COLON] + (m.between + u);
    QuoteReads(m.key, m.before + v);
    SpaceSkipped(m.before, v);
    assert v[1..] == m.between + u;
    SpaceSkipped(m.between, u);
  }

  lemma {:induction false} MembersRead(m: MemberDocs, rest: Text)
    requires m.MemberDoc? && MembersOk(m) && MembersWellFormed(MembersMeaning(m)) && Follows(rest)
    ensures ParseMembers(MembersSpelled(m) + rest, true) == Good(MembersMeaning(m), rest)
    decreases m, 0
  {
    var more := MembersRest(m, rest);
    MembersCut(m, rest);
    DocStarts(m.value, m.after + more);
    KeyRead(m, ValueRest(m, rest), MembersSpelled(m) + rest);
    SpaceFollows(m.after, more);
    DocReads(m.value, m.after + more);
    if m.tail.MemberDoc? {
      MembersRead(m.tail, rest);
      MembersStart(m.tail, rest);
    }
    FirstMemberReads(m, rest);
  }

  lemma FirstMemberReads(m: MemberDocs, rest: Text)
    requires m.MemberDoc? && MembersOk(m)
    requires ParseValue(ValueRest(m, rest), true) == Good(Meaning(m.value), m.after + MembersRest(m, rest))
    requires m.tail.MemberDoc? ==>
               var u := MembersSpelled(m.tail) + rest;
               J.Starts(u) && ParseMembers(u, true) == Good(MembersMeaning(m.tail), rest)
    ensures ParseMembersFrom(TextMeant(m.key), ValueRest(m, rest), true) == Good(MembersMeaning(m), rest)
  {
    var more := MembersRest(m, rest);
    SpaceSkipped(m.after, more);
    if m.tail.NoMember? {
      assert more[1..] == rest;
    } else {
      assert more[1..] == m.next + (MembersSpelled(m.tail) + rest);
      SpaceSkipped(m.next, MembersSpelled(m.tail) + rest);
    }
  }

  // ---- And only spelled documents are read ----

  lemma QuoteWritten(t: Text) returns (gs: seq<Glyph>)
    requires t != [] && t[0] == QUOTE && ParseString(t[1..]).Good?
    ensures Spells(gs) && t == Quote(gs) + ParseString(t[1..]).rest && ParseString(t[1..]).value == TextMeant(gs)
  {
    gs := GlyphsWritten(t[1..]);
    var rest := ParseString(t[1..]).rest;
    assert t == [QUOTE] + t[1..];
    QuoteText(GlyphsText(gs), rest);
  }

  lemma PrefixCut(p: Text, t: Text)
    requires p <= t
    ensures t == p + t[|p|..]
  {
  }

  lemma Words()
    ensures Chars("null") == NULL && Chars("true") == TRUE && Chars("false") == FALSE
  {
  }

  lemma WordWritten(t: Text) returns (d: Doc)
    requires ParseWord(t).Good?
    ensures (d.NullDoc? || d.BoolDoc?) && t == DocText(d) + ParseWord(t).rest && ParseWord(t).value == Meaning(d)
  {
    Words();
    if NULL <= t {
      d := NullDoc;
      PrefixCut(NULL, t);
    } else if TRUE <= t {
      d := BoolDoc(true);
      PrefixCut(TRUE, t);
    } else {
      d := BoolDoc(false);
      PrefixCut(FALSE, t);
    }
  }

  lemma {:induction false} DocWritten(t: Text) returns (d: Doc)
    requires ParseValue(t, true).Good?
    ensures DocOk(d) && t == DocText(d) + ParseValue(t, true).rest && ParseValue(t, true).value == Meaning(d)
    decreases |t|, 0
  {
    if t[0] == QUOTE {
      var gs := QuoteWritten(t);
      d := StringDoc(gs);
    } else if t[0] == OPEN_OBJECT {
      var space := SpaceWritten(t[1..]);
      var members := ObjectWritten(SkipSpace(t[1..]));
      d := ObjectDoc(space, members);
      Enclosed(t, OPEN_OBJECT, space, MembersSpelled(members), ParseValue(t, true).rest);
    } else if t[0] == OPEN_LIST {
      var space := SpaceWritten(t[1..]);
      var items := ListWritten(SkipSpace(t[1..]));
      d := ListDoc(space, items);
      Enclosed(t, OPEN_LIST, space, ItemsSpelled(items), ParseValue(t, true).rest);
    } else if IsDigit(t[0]) || (t[0] == MINUS && |t| > 1 && IsDigit(t[1])) {
      var n := WrittenNumber(t);
      d := NumberDoc(n);
    } else {
      d := WordWritten(t);
    }
  }

  lemma Enclosed(t: Text, open: CodePoint, space: Text, inner: Text, rest: Text)
    requires t != [] && t[0] == open && t[1..] == space + (inner + rest)
    ensures t == [open] + (space + inner) + rest
  {
    First(t);
    Regroup([open], space, inner, rest);
  }

  lemma First(t: Text)
    requires t != []
    ensures t == [t[0]] + t[1..]
  {
  }

  lemma {:induction false} ListWritten(t: Text) returns (items: ItemDocs)
    requires ParseList(t, true).Good?
    ensures ItemsOk(items) && t == ItemsSpelled(items) + ParseList(t, true).rest
    ensures ParseList(t, true).value == Arr(ItemsMeaning(items))
    decreases |t|, 2
  {
    if t != [] && t[0] == CLOSE_LIST {
      items := NoItem;
      assert t == [t[0]] + t[1..];
    } else {
      items := ItemsWritten(t);
    }
  }

  lemma {:induction false} ItemsWritten(t: Text) returns (items: ItemDocs)
    requires ParseItems(t, true).Good?
    ensures items.ItemDoc? && ItemsOk(items) && t == ItemsSpelled(items) + ParseItems(t, true).rest
    ensures ParseItems(t, true).value == ItemsMeaning(items)
    decreases |t|, 1
  {
    var value := ParseValue(t, true);
    var rest := ParseItems(t, true).rest;
    var d := DocWritten(t);
    var after := SpaceWritten(value.rest);
    var next := SkipSpace(value.rest);
    First(next);
    if next[0] == CLOSE_LIST {
      items := ItemDoc(d, after, [], NoItem);
    } else {
      var space := SpaceWritten(next[1..]);
      var more := ItemsWritten(SkipSpace(next[1..]));
      items := ItemDoc(d, after, space, more);
    }
    ItemsCut(items, rest);
  }

  lemma {:induction false} ObjectWritten(t: Text) returns (m: MemberDocs)
    requires ParseObject(t, true).Good?
    ensures MembersOk(m) && t == MembersSpelled(m) + ParseObject(t, true).rest
    ensures ParseObject(t, true).value == Obj(MembersMeaning(m))
    decreases |t|, 3
  {
    if t != [] && t[0] == CLOSE_OBJECT {
      m := NoMember;
      assert t == [t[0]] + t[1..];
    } else {
      m := MembersWritten(t);
    }
  }

  lemma KeyParts(t: Text, colon: Text)
    requires ParseMembers(t, true).Good? && colon == SkipSpace(ParseString(t[1..]).rest)
    ensures t != [] && t[0] == QUOTE && ParseString(t[1..]).Good? && colon != [] && colon[0] == COLON
    ensures ParseMembers(t, true) == ParseMembersFrom(ParseString(t[1..]).value, SkipSpace(colon[1..]), true)
  {
  }

  lemma KeyJoins(m: MemberDocs, t: Text, v: Text, colon: Text, u: Text, rest: Text)
    requires m.MemberDoc? && t == Quote(m.key) + v && v == m.before + colon && colon != [] && colon[0] == COLON
    requires colon[1..] == m.between + u && u == ValueRest(m, rest)
    ensures t == MembersSpelled(m) + rest
  {
    First(colon);
    MembersCut(m, rest);
  }

  lemma {:induction false} MembersWritten(t: Text) returns (m: MemberDocs)
    requires ParseMembers(t, true).Good?
    ensures m.MemberDoc? && MembersOk(m) && t == MembersSpelled(m) + ParseMembers(t, true).rest
    ensures ParseMembers(t, true).value == MembersMeaning(m)
    decreases |t|, 1
  {
    var v := ParseString(t[1..]).rest;
    var colon := SkipSpace(v);
    KeyParts(t, colon);
    var gs := QuoteWritten(t);
    var before := SpaceWritten(v);
    var between := SpaceWritten(colon[1..]);
    var u := SkipSpace(colon[1..]);
    m := MembersFromWritten(gs, before, between, u);
    KeyJoins(m, t, v, colon, u, ParseMembers(t, true).rest);
  }

  lemma {:induction false} MembersFromWritten(gs: seq<Glyph>, before: Text, between: Text, u: Text)
    returns (m: MemberDocs)
    requires Spells(gs) && Space(before) && Space(between) && ParseMembersFrom(TextMeant(gs), u, true).Good?
    ensures m.MemberDoc? && m.key == gs && m.before == before && m.between == between && MembersOk(m)
    ensures u == ValueRest(m, ParseMembersFrom(TextMeant(gs), u, true).rest)
    ensures ParseMembersFrom(TextMeant(gs), u, true).value == MembersMeaning(m)
    decreases |u|, 2
  {
    var value := ParseValue(u, true);
    var rest := ParseMembersFrom(TextMeant(gs), u, true).rest;
    var d := DocWritten(u);
    var after := SpaceWritten(value.rest);
    var next := SkipSpace(value.rest);
    First(next);
    if next[0] == CLOSE_OBJECT {
      m := MemberDoc(gs, before, between, d, after, [], NoMember);
    } else {
      var space := SpaceWritten(next[1..]);
      var more := MembersWritten(SkipSpace(next[1..]));
      m := MemberDoc(gs, before, between, d, after, space, more);
    }
  }

  // ---- Documents ----

  // The text is this document with white space around it, no object in it has a key twice.
  predicate Written(t: Text, before: Text, d: Doc, after: Text) {
    && Space(before) && Space(after) && DocOk(d) && WellFormed(Meaning(d)) && t == before + (DocText(d) + after)
  }

  lemma WrittenReads(t: Text, before: Text, d: Doc, after: Text)
    requires Written(t, before, d, after)
    ensures ParseDocument(t, true) == Ok(Meaning(d))
  {
    DocStarts(d, after);
    SpaceSkipped(before, DocText(d) + after);
    SpaceFollows(after, []);
    assert after + [] == after;
    DocReads(d, after);
    SpaceSkipped(after, []);
  }

  lemma ReadIsWritten(t: Text) returns (before: Text, d: Doc, after: Text)
    requires ParseDocument(t, true).Ok?
    ensures Written(t, before, d, after) && ParseDocument(t, true) == Ok(Meaning(d))
  {
    before := SpaceWritten(t);
    var u := SkipSpace(t);
    d := DocWritten(u);
    ParsedIsDecodable(u);
    after := SpaceWritten(ParseValue(u, true).rest);
    assert after + [] == after;
  }

  // A text is read as a value if and only if it spells a document that means it.
  lemma TextIff(t: Text, v: Json)
    ensures ParseDocument(t, true) == Ok(v)
       <==> exists before, d, after :: Written(t, before, d, after) && Meaning(d) == v
  {
    if ParseDocument(t, true) == Ok(v) {
      var before, d, after := ReadIsWritten(t);
    }
    if before, d, after :| Written(t, before, d, after) && Meaning(d) == v {
      WrittenReads(t, before, d, after);
    }
  }

  // Bytes are decoded as a value if and only if they are few enough and the UTF-8 encoding of such a
  // text, and the value is nested at most 32 deep.
  lemma DecodesIff(payload: seq<Byte>, maxBytes: Option<nat>, v: Json)
    ensures DecodeDocument(payload, maxBytes) == Ok(v) <==>
              && (maxBytes.Some? ==> |payload| <= maxBytes.value) && Height(v) <= 32
              && exists t: Text, before, d, after ::
                   Encode(t) == Some(payload) && Written(t, before, d, after) && Meaning(d) == v
  {
    NestingIsHeight(v, 0);
    if DecodeDocument(payload, maxBytes) == Ok(v) {
      var t := Decode(payload).value;
      EncodingIsExact(t, payload);
      var before, d, after := ReadIsWritten(t);
    }
    if t: Text, before, d, after :| Encode(t) == Some(payload) && Written(t, before, d, after) && Meaning(d) == v {
      EncodingIsExact(t, payload);
      WrittenReads(t, before, d, after);
    }
  }
}
