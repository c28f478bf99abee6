// The canonical printer (shared/json_contract.py:141-152, 241-292).
module JsonPrinter {
  import opened Bytes
  import opened Options
  import opened Unicode
  import opened CanonicalNumbers
  import opened Json

  const BACKSPACE: CodePoint := 8
  const TAB: CodePoint := 9
  const NEWLINE: CodePoint := 10
  const FORM_FEED: CodePoint := 12
  const RETURN: CodePoint := 13
  const SPACE: CodePoint := 32
  const QUOTE: CodePoint := 34
  const COMMA: CodePoint := 44
  const COLON: CodePoint := 58
  const OPEN_LIST: CodePoint := 91
  const BACKSLASH: CodePoint := 92
  const CLOSE_LIST: CodePoint := 93
  const OPEN_OBJECT: CodePoint := 123
  const CLOSE_OBJECT: CodePoint := 125

  const NULL: Text := [110, 117, 108, 108]
  const TRUE: Text := [116, 114, 117, 101]
  const FALSE: Text := [102, 97, 108, 115, 101]

  const MAX_NESTING := 32

  datatype Error =
    InvalidJson | NumericLimit | NonFinite | DuplicateKey | ExcessiveNesting | InvalidUnicode | InvalidUtf8 | TooLarge

  datatype Result<T> = Ok(value: T) | Err(error: Error)

  function HexDigit(d: int): CodePoint
    requires 0 <= d < 16
  {
    if d < 10 then ZERO + d else 87 + d
  }

  // One character of a string under `json.dumps(..., ensure_ascii=False)`.
  function Escaped(c: CodePoint): (t: Text)
    ensures t != [] && t[0] != QUOTE
  {
    if c == QUOTE || c == BACKSLASH then [BACKSLASH, c]
    else if c == BACKSPACE then [BACKSLASH, 98]
    else if c == FORM_FEED then [BACKSLASH, 102]
    else if c == NEWLINE then [BACKSLASH, 110]
    else if c == RETURN then [BACKSLASH, 114]
    else if c == TAB then [BACKSLASH, 116]
    else if c < SPACE then [BACKSLASH, 117, ZERO, ZERO, HexDigit(c / 16), HexDigit(c % 16)]
    else [c]
  }

  function EscapedText(s: Text): Text {
    if s == [] then [] else Escaped(s[0]) + EscapedText(s[1..])
  }

  function PrintString(s: Text): Text { [QUOTE] + EscapedText(s) + [QUOTE] }

  // `",".join(fragments)`
  function Join(fragments: seq<Text>): Text {
    if |fragments| == 0 then []
    else if |fragments| == 1 then fragments[0]
    else fragments[0] + [COMMA] + Join(fragments[1..])
  }

  function PrintMember(key: Text, value: Json): Text
    decreases value, 1
  {
    PrintString(key) + [COLON] + Print(value)
  }

  // Prints the members in the order they have; numbers in their normal form.
  function Print(v: Json): Text
    decreases v, 0
  {
    match v
    case Null => NULL
    case Bool(b) => if b then TRUE else FALSE
    case Num(n) => Render(Normalize(n))
    case Str(s) => PrintString(s)
    case Arr(items) => [OPEN_LIST] + Join(ItemFragments(items)) + [CLOSE_LIST]
    case Obj(members) => [OPEN_OBJECT] + Join(MemberFragments(members)) + [CLOSE_OBJECT]
  }

  function ItemFragments(items: Items): seq<Text>
    decreases items, 0
  {
    if items.NoItems? then [] else [Print(items.head)] + ItemFragments(items.tail)
  }

  function MemberFragments(m: Members): seq<Text>
    decreases m, 0
  {
    if m.NoMembers? then [] else [PrintMember(m.key, m.value)] + MemberFragments(m.rest)
  }

  // What canonical JSON prints: the normal form.
  function Canonical(v: Json): Text { Print(Norm(v)) }

  predicate NumbersInBounds(v: Json) {
    match v
    case Num(n) => InBounds(n)
    case Arr(items) => ItemsInBounds(items)
    case Obj(members) => MembersInBounds(members)
    case _ => true
  }

  predicate ItemsInBounds(items: Items) {
    items.NoItems? || (NumbersInBounds(items.head) && ItemsInBounds(items.tail))
  }

  predicate MembersInBounds(m: Members) {
    m.NoMembers? || (NumbersInBounds(m.value) && MembersInBounds(m.rest))
  }

  // ---- `sorted(keys)` ----

  function InsertKey(key: Text, keys: seq<Text>): seq<Text> {
    if keys == [] || Before(key, keys[0]) then [key] + keys else [keys[0]] + InsertKey(key, keys[1..])
  }

  function SortedKeys(keys: seq<Text>): seq<Text> {
    if keys == [] then [] else InsertKey(keys[0], SortedKeys(keys[1..]))
  }

  function KeyList(m: Members): seq<Text> {
    if m.NoMembers? then [] else [m.key] + KeyList(m.rest)
  }

  lemma {:induction false} InsertKeyList(key: Text, value: Json, m: Members)
    ensures KeyList(Insert(key, value, m)) == InsertKey(key, KeyList(m))
  {
    if m.Member? && !Before(key, m.key) {
      InsertKeyList(key, value, m.rest);
      assert KeyList(m)[1..] == KeyList(m.rest);
    }
  }

  lemma {:induction false} SortedKeyList(m: Members)
    ensures KeyList(Sort(NormMembers(m))) == SortedKeys(KeyList(m))
  {
    if m.Member? {
      SortedKeyList(m.rest);
      InsertKeyList(m.key, Norm(m.value), Sort(NormMembers(m.rest)));
      assert KeyList(m)[1..] == KeyList(m.rest);
    }
  }

  lemma {:induction false} LookupInBounds(m: Members, key: Text)
    requires key in Keys(m)
    ensures MembersInBounds(m) ==> NumbersInBounds(Lookup(m, key))
  {
    if m.key != key {
      LookupInBounds(m.rest, key);
    }
  }

  predicate InBoundsAt(m: Members, key: Text)
    requires key in Keys(m)
  {
    NumbersInBounds(Lookup(m, key))
  }

  lemma {:induction false} AllInBounds(m: Members)
    requires MembersWellFormed(m)
    ensures MembersInBounds(m) <==> PrintedInBounds(NoMembers, m)
  {
    if m.Member? {
      AllInBounds(m.rest);
      forall k | k in Keys(m.rest) ensures InBoundsAt(m, k) == InBoundsAt(m.rest, k) {
        assert Lookup(m, k) == Lookup(m.rest, k);
      }
      assert InBoundsAt(m, m.key) == NumbersInBounds(m.value);
    }
  }

  method CanonicalNumberFragment(n: Number) returns (text: Result<Text>)
    ensures text == if InBounds(n) then Ok(Render(Normalize(n))) else Err(NumericLimit)
  {
    if !InBounds(n) {
      return Err(NumericLimit);
    }
    CanonicalIsRendered(n);
    return Ok(CanonicalNumber(n));
  }

  // `_canonical_fragment`: recursion on the value, one fragment per item or per sorted key.
  method CanonicalFragment(v: Json) returns (text: Result<Text>)
    requires WellFormed(v)
    ensures text == if NumbersInBounds(v) then Ok(Canonical(v)) else Err(NumericLimit)
    decreases Size(v)
  {
    match v {
      case Null => text := Ok(NULL);
      case Bool(b) => text := Ok(if b then TRUE else FALSE);
      case Str(s) => text := Ok(PrintString(s));
      case Num(n) =>
        NormalOfNormal(Normalize(n));
        text := CanonicalNumberFragment(n);
      case Obj(members) => text := ObjectFragment(members);
      case Arr(items) => text := ListFragment(items);
    }
  }

  function Bracketed(left: CodePoint, fragments: seq<Text>, right: CodePoint): Text {
    [left] + Join(fragments) + [right]
  }

  // The fragments still to be made, and the ones to be made after the next.
  lemma NextMemberFragment(done: seq<Text>, left: Members)
    requires left.Member?
    ensures done + MemberFragments(left) == (done + [PrintMember(left.key, left.value)]) + MemberFragments(left.rest)
  {
  }

  lemma NextItemFragment(done: seq<Text>, left: Items)
    requires left.Item?
    ensures done + ItemFragments(NormItems(left))
         == (done + [Canonical(left.head)]) + ItemFragments(NormItems(left.tail))
  {
  }

  // The members of the normal form not yet printed.
  ghost predicate Remaining(left: Members, members: Members) {
    && Sorted(left) && Keys(left) <= Keys(members)
    && forall k :: k in Keys(left) ==> Lookup(left, k) == Norm(Lookup(members, k))
  }

  lemma RemainingStep(left: Members, members: Members)
    requires Remaining(left, members) && left.Member?
    ensures Remaining(left.rest, members) && Keys(left.rest) == Keys(left) - {left.key}
    ensures left.key in Keys(members) && left.value == Norm(Lookup(members, left.key))
  {
    SortedHasNoRepeat(left);
    assert forall k :: k in Keys(left.rest) ==> Lookup(left.rest, k) == Lookup(left, k);
    assert Lookup(left, left.key) == left.value;
  }

  lemma CanonicalObject(members: Members)
    ensures Canonical(Obj(members))
         == Bracketed(OPEN_OBJECT, MemberFragments(Sort(NormMembers(members))), CLOSE_OBJECT)
  {
  }

  lemma CanonicalList(items: Items)
    ensures Canonical(Arr(items)) == Bracketed(OPEN_LIST, ItemFragments(NormItems(items)), CLOSE_LIST)
  {
  }

  // The members already printed had numbers in bounds.
  ghost predicate PrintedInBounds(left: Members, members: Members) {
    forall k :: k in Keys(members) && k !in Keys(left) ==> InBoundsAt(members, k)
  }

  lemma NextKey(keys: seq<Text>, i: nat, left: Members)
    requires i < |keys| && keys[i..] == KeyList(left)
    ensures left.Member? && left.key == keys[i] && keys[i + 1..] == KeyList(left.rest)
  {
    assert KeyList(left)[0] == keys[i] && KeyList(left)[1..] == keys[i + 1..];
  }

  method ObjectFragment(members: Members) returns (text: Result<Text>)
    requires MembersWellFormed(members)
    ensures text == if MembersInBounds(members) then Ok(Canonical(Obj(members))) else Err(NumericLimit)
    decreases SizeOfMembers(members)
  {
    var fragments := [];
    var keys := SortedKeys(KeyList(members));
    ghost var total := MemberFragments(Sort(NormMembers(members)));
    ghost var left := Sort(NormMembers(members));
    SortedKeyList(members);
    NormObject(members);
    AllInBounds(members);
    var i := 0;
    while i < |keys|
      invariant 0 <= i <= |keys| && keys[i..] == KeyList(left)
      invariant Remaining(left, members)
      invariant fragments + MemberFragments(left) == total
      invariant PrintedInBounds(left, members)
    {
      var key := keys[i];
      NextKey(keys, i, left);
      RemainingStep(left, members);
      LookupWellFormed(members, key);
      var value := CanonicalFragment(Lookup(members, key));
      if value.Err? {
        assert !InBoundsAt(members, key);
        return value;
      }
      NextMemberFragment(fragments, left);
      fragments := fragments + [PrintString(key) + [COLON] + value.value];
      left := left.rest;
      i := i + 1;
    }
    assert left.NoMembers?;
    assert fragments == total;
    CanonicalObject(members);
    text := Ok(Bracketed(OPEN_OBJECT, fragments, CLOSE_OBJECT));
  }

  method ListFragment(items: Items) returns (text: Result<Text>)
    requires ItemsWellFormed(items)
    ensures text == if ItemsInBounds(items) then Ok(Canonical(Arr(items))) else Err(NumericLimit)
    decreases SizeOfItems(items)
  {
    var fragments := [];
    var left := items;
    ghost var total := ItemFragments(NormItems(items));
    while left.Item?
      invariant ItemsWellFormed(left) && SizeOfItems(left) <= SizeOfItems(items)
      invariant fragments + ItemFragments(NormItems(left)) == total
      invariant ItemsInBounds(items) <==> ItemsInBounds(left)
      decreases left
    {
      var value := CanonicalFragment(left.head);
      if value.Err? {
        return value;
      }
      NextItemFragment(fragments, left);
      fragments := fragments + [value.value];
      left := left.tail;
    }
    assert fragments == total;
    CanonicalList(items);
    text := Ok(Bracketed(OPEN_LIST, fragments, CLOSE_LIST));
  }

  // Normalising a normal number changes nothing.
  lemma NormalOfNormal(p: Plain)
    requires p.Normal()
    ensures Normalize(FromPlain(p)) == p
  {
  }

  // `canonical_json_bytes`
  method CanonicalBytes(v: Json) returns (bytes: Result<seq<Byte>>)
    requires WellFormed(v)
    ensures bytes == CanonicalBytesOf(v)
  {
    var text := CanonicalFragment(v);
    if text.Err? {
      return Err(text.error);
    }
    var encoded := Encode(text.value);
    if encoded.None? {
      return Err(InvalidUnicode);
    }
    return Ok(encoded.value);
  }

  function CanonicalBytesOf(v: Json): Result<seq<Byte>> {
    if !NumbersInBounds(v) then Err(NumericLimit)
    else
      var encoded := Encode(Canonical(v));
      if encoded.None? then Err(InvalidUnicode) else Ok(encoded.value)
  }

  // ---- `_check_nesting` ----

  predicate NestingOk(v: Json, depth: nat) {
    depth <= MAX_NESTING &&
    match v
    case Arr(items) => ItemsNestingOk(items, depth + 1)
    case Obj(members) => MembersNestingOk(members, depth + 1)
    case _ => true
  }

  predicate ItemsNestingOk(items: Items, depth: nat) {
    items.NoItems? || (NestingOk(items.head, depth) && ItemsNestingOk(items.tail, depth))
  }

  predicate MembersNestingOk(m: Members, depth: nat) {
    m.NoMembers? || (NestingOk(m.value, depth) && MembersNestingOk(m.rest, depth))
  }

  // Brackets around the deepest value: an empty list has height 0.
  function Height(v: Json): nat {
    match v
    case Arr(items) => ItemsHeight(items)
    case Obj(members) => MembersHeight(members)
    case _ => 0
  }

  function Larger(a: nat, b: nat): nat { if a < b then b else a }

  function ItemsHeight(items: Items): nat {
    if items.NoItems? then 0 else Larger(1 + Height(items.head), ItemsHeight(items.tail))
  }

  function MembersHeight(m: Members): nat {
    if m.NoMembers? then 0 else Larger(1 + Height(m.value), MembersHeight(m.rest))
  }

  lemma {:induction false} NestingIsHeight(v: Json, depth: nat)
    ensures NestingOk(v, depth) <==> depth + Height(v) <= MAX_NESTING
    decreases v
  {
    match v
    case Arr(items) => if depth <= MAX_NESTING { ItemsNestingIsHeight(items, depth); }
    case Obj(members) => if depth <= MAX_NESTING { MembersNestingIsHeight(members, depth); }
    case _ =>
  }

  lemma {:induction false} ItemsNestingIsHeight(items: Items, depth: nat)
    requires depth <= MAX_NESTING
    ensures ItemsNestingOk(items, depth + 1) <==> depth + ItemsHeight(items) <= MAX_NESTING
    decreases items
  {
    if items.Item? {
      NestingIsHeight(items.head, depth + 1);
      ItemsNestingIsHeight(items.tail, depth);
    }
  }

  lemma {:induction false} MembersNestingIsHeight(m: Members, depth: nat)
    requires depth <= MAX_NESTING
    ensures MembersNestingOk(m, depth + 1) <==> depth + MembersHeight(m) <= MAX_NESTING
    decreases m
  {
    if m.Member? {
      NestingIsHeight(m.value, depth + 1);
      MembersNestingIsHeight(m.rest, depth);
    }
  }

  lemma {:induction false} HeightOfNorm(v: Json)
    ensures Height(Norm(v)) == Height(v)
    decreases v
  {
    match v
    case Arr(items) => HeightOfNormItems(items);
    case Obj(members) => HeightOfNormMembers(members);
    case _ =>
  }

  lemma {:induction false} HeightOfNormItems(items: Items)
    ensures ItemsHeight(NormItems(items)) == ItemsHeight(items)
    decreases items
  {
    if items.Item? {
      HeightOfNorm(items.head);
      HeightOfNormItems(items.tail);
    }
  }

  lemma {:induction false} HeightOfNormMembers(m: Members)
    ensures MembersHeight(Sort(NormMembers(m))) == MembersHeight(m)
    decreases m
  {
    if m.Member? {
      HeightOfNorm(m.value);
      HeightOfNormMembers(m.rest);
      HeightOfInsert(m.key, Norm(m.value), Sort(NormMembers(m.rest)));
    }
  }

  lemma {:induction false} HeightOfInsert(key: Text, value: Json, m: Members)
    ensures MembersHeight(Insert(key, value, m)) == Larger(1 + Height(value), MembersHeight(m))
  {
    if m.Member? && !Before(key, m.key) {
      HeightOfInsert(key, value, m.rest);
    }
  }
}
