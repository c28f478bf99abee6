// JSON values as the decoder builds them, their equality, and the normal form
// that shared/json_contract.py:241-277 prints.
module Json {
  import opened Unicode
  import opened CanonicalNumbers

  // An object is a Python dict: members in insertion order, no key twice.
  datatype Json =
    | Null
    | Bool(b: bool)
    | Num(number: Number)
    | Str(text: Text)
    | Arr(items: Items)
    | Obj(members: Members)

  datatype Items = NoItems | Item(head: Json, tail: Items)

  datatype Members = NoMembers | Member(key: Text, value: Json, rest: Members)

  function Keys(m: Members): set<Text> {
    if m.NoMembers? then {} else {m.key} + Keys(m.rest)
  }

  // `value[key]`
  function Lookup(m: Members, key: Text): (v: Json)
    requires key in Keys(m)
    ensures Size(v) < SizeOfMembers(m)
  {
    if m.key == key then m.value else Lookup(m.rest, key)
  }

  function Size(v: Json): nat {
    match v
    case Arr(items) => 1 + SizeOfItems(items)
    case Obj(members) => 1 + SizeOfMembers(members)
    case _ => 1
  }

  function SizeOfItems(items: Items): nat {
    if items.NoItems? then 0 else 1 + Size(items.head) + SizeOfItems(items.tail)
  }

  function SizeOfMembers(m: Members): nat {
    if m.NoMembers? then 0 else 1 + Size(m.value) + SizeOfMembers(m.rest)
  }

  predicate WellFormed(v: Json) {
    match v
    case Arr(items) => ItemsWellFormed(items)
    case Obj(members) => MembersWellFormed(members)
    case _ => true
  }

  predicate ItemsWellFormed(items: Items) {
    items.NoItems? || (WellFormed(items.head) && ItemsWellFormed(items.tail))
  }

  predicate MembersWellFormed(m: Members) {
    m.NoMembers? || (m.key !in Keys(m.rest) && WellFormed(m.value) && MembersWellFormed(m.rest))
  }

  // ---- Equality of JSON values: numbers by value, objects without order ----

  predicate Same(v: Json, w: Json) {
    match v
    case Num(n) => w.Num? && SameNumber(n, w.number)
    case Arr(items) => w.Arr? && SameItems(items, w.items)
    case Obj(members) => w.Obj? && SameMembers(members, w.members) && Keys(w.members) <= Keys(members)
    case _ => v == w
  }

  predicate SameItems(a: Items, b: Items) {
    if a.NoItems? then b.NoItems? else b.Item? && Same(a.head, b.head) && SameItems(a.tail, b.tail)
  }

  // Every member of m is found in n with the same value.
  predicate SameMembers(m: Members, n: Members) {
    m.NoMembers? || (m.key in Keys(n) && Same(m.value, Lookup(n, m.key)) && SameMembers(m.rest, n))
  }

  // ---- Python's order on strings, and sorting by it ----

  predicate Before(a: Text, b: Text) {
    b != [] && (a == [] || a[0] < b[0] || (a[0] == b[0] && Before(a[1..], b[1..])))
  }

  lemma {:induction false} BeforeIsTotal(a: Text, b: Text)
    ensures a != b ==> Before(a, b) || Before(b, a)
    ensures !(Before(a, b) && Before(b, a)) && !Before(a, a)
  {
    if a != [] && b != [] {
      BeforeIsTotal(a[1..], b[1..]);
      BeforeIsTotal(a[1..], a[1..]);
      assert a == [a[0]] + a[1..] && b == [b[0]] + b[1..];
    } else if a != [] {
      BeforeIsTotal(a[1..], a[1..]);
    }
  }

  lemma {:induction false} BeforeIsTransitive(a: Text, b: Text, c: Text)
    requires Before(a, b) && Before(b, c)
    ensures Before(a, c)
  {
    if a != [] && a[0] == b[0] == c[0] {
      BeforeIsTransitive(a[1..], b[1..], c[1..]);
    }
  }

  predicate Sorted(m: Members) {
    m.NoMembers? || ((forall k :: k in Keys(m.rest) ==> Before(m.key, k)) && Sorted(m.rest))
  }

  function Insert(key: Text, value: Json, m: Members): Members {
    if m.NoMembers? || Before(key, m.key) then Member(key, value, m)
    else Member(m.key, m.value, Insert(key, value, m.rest))
  }

  function Sort(m: Members): Members {
    if m.NoMembers? then m else Insert(m.key, m.value, Sort(m.rest))
  }

  lemma {:induction false} InsertKeeps(key: Text, value: Json, m: Members)
    requires key !in Keys(m)
    ensures var n := Insert(key, value, m);
            && Keys(n) == Keys(m) + {key} && Lookup(n, key) == value
            && (forall k :: k in Keys(m) ==> Lookup(n, k) == Lookup(m, k))
            && (Sorted(m) ==> Sorted(n))
  {
    if m.Member? {
      BeforeIsTotal(key, m.key);
      if !Before(key, m.key) {
        InsertKeeps(key, value, m.rest);
      } else if Sorted(m) {
        forall k | k in Keys(m.rest) ensures Before(key, k) {
          BeforeIsTransitive(key, m.key, k);
        }
      }
    }
  }

  lemma {:induction false} SortKeeps(m: Members)
    requires MembersWellFormed(m)
    ensures Sorted(Sort(m)) && Keys(Sort(m)) == Keys(m)
    ensures forall k :: k in Keys(m) ==> Lookup(Sort(m), k) == Lookup(m, k)
  {
    if m.Member? {
      SortKeeps(m.rest);
      InsertKeeps(m.key, m.value, Sort(m.rest));
    }
  }

  predicate Agree(m: Members, n: Members) {
    Keys(m) == Keys(n) && forall k :: k in Keys(m) ==> Lookup(m, k) == Lookup(n, k)
  }

  lemma HeadsAgree(m: Members, n: Members)
    requires Sorted(m) && Sorted(n) && m.Member? && Agree(m, n)
    ensures n.Member? && m.key == n.key && m.value == n.value
  {
    assert m.key in Keys(n);
    BeforeIsTotal(m.key, n.key);
    assert Lookup(m, m.key) == Lookup(n, m.key);
  }

  lemma SortedHasNoRepeat(m: Members)
    requires Sorted(m) && m.Member?
    ensures m.key !in Keys(m.rest)
  {
    BeforeIsTotal(m.key, m.key);
  }

  lemma HeadIsKey(m: Members)
    ensures m.Member? ==> m.key in Keys(m)
  {
  }

  // Sorted members with the same lookups are the same list.
  lemma {:induction false} SortedIsUnique(m: Members, n: Members)
    requires Sorted(m) && Sorted(n) && Agree(m, n)
    ensures m == n
  {
    if m.NoMembers? {
      HeadIsKey(n);
    } else {
      HeadsAgree(m, n);
      SortedHasNoRepeat(m);
      SortedHasNoRepeat(n);
      assert Keys(m.rest) == Keys(m) - {m.key} && Keys(n.rest) == Keys(n) - {n.key};
      forall k | k in Keys(m.rest) ensures Lookup(m.rest, k) == Lookup(n.rest, k) {
        assert Lookup(m, k) == Lookup(n, k);
      }
      SortedIsUnique(m.rest, n.rest);
    }
  }

  // ---- The normal form ----

  function FromPlain(p: Plain): Number { Dec(p.negative, p.digits, 0 - p.places) }

  function Norm(v: Json): Json {
    match v
    case Num(n) => Num(FromPlain(Normalize(n)))
    case Arr(items) => Arr(NormItems(items))
    case Obj(members) => Obj(Sort(NormMembers(members)))
    case _ => v
  }

  function NormItems(items: Items): Items {
    if items.NoItems? then items else Item(Norm(items.head), NormItems(items.tail))
  }

  function NormMembers(m: Members): (n: Members)
    ensures Keys(n) == Keys(m)
  {
    if m.NoMembers? then m else Member(m.key, Norm(m.value), NormMembers(m.rest))
  }

  lemma {:induction false} NormMembersLookup(m: Members)
    ensures forall k :: k in Keys(m) ==> Lookup(NormMembers(m), k) == Norm(Lookup(m, k))
  {
    if m.Member? {
      NormMembersLookup(m.rest);
    }
  }

  lemma {:induction false} NormIsWellFormed(v: Json)
    requires WellFormed(v)
    ensures WellFormed(Norm(v))
    decreases v
  {
    match v
    case Arr(items) => NormItemsWellFormed(items);
    case Obj(members) =>
      NormMembersWellFormed(members);
      SortWellFormed(NormMembers(members));
    case _ =>
  }

  lemma {:induction false} NormItemsWellFormed(items: Items)
    requires ItemsWellFormed(items)
    ensures ItemsWellFormed(NormItems(items))
    decreases items
  {
    if items.Item? {
      NormIsWellFormed(items.head);
      NormItemsWellFormed(items.tail);
    }
  }

  lemma {:induction false} NormMembersWellFormed(m: Members)
    requires MembersWellFormed(m)
    ensures MembersWellFormed(NormMembers(m))
    decreases m
  {
    if m.Member? {
      NormIsWellFormed(m.value);
      NormMembersWellFormed(m.rest);
    }
  }

  lemma {:induction false} InsertWellFormed(key: Text, value: Json, m: Members)
    requires key !in Keys(m) && WellFormed(value) && MembersWellFormed(m)
    ensures MembersWellFormed(Insert(key, value, m))
  {
    if m.Member? && !Before(key, m.key) {
      InsertKeeps(key, value, m.rest);
      InsertWellFormed(key, value, m.rest);
    }
  }

  lemma {:induction false} SortWellFormed(m: Members)
    requires MembersWellFormed(m)
    ensures MembersWellFormed(Sort(m))
  {
    if m.Member? {
      SortKeeps(m.rest);
      SortWellFormed(m.rest);
      InsertWellFormed(m.key, m.value, Sort(m.rest));
    }
  }

  // The members of a normalised object, looked up.
  lemma NormObject(m: Members)
    requires MembersWellFormed(m)
    ensures var n := Sort(NormMembers(m));
            Sorted(n) && Keys(n) == Keys(m) && forall k :: k in Keys(m) ==> Lookup(n, k) == Norm(Lookup(m, k))
  {
    NormMembersWellFormed(m);
    SortKeeps(NormMembers(m));
    NormMembersLookup(m);
  }

  // ---- Two values have the same normal form exactly when they are equal ----

  lemma {:induction false} NormDecides(v: Json, w: Json)
    requires WellFormed(v) && WellFormed(w)
    ensures Norm(v) == Norm(w) <==> Same(v, w)
    decreases v
  {
    match v
    case Num(n) =>
      if w.Num? {
        NumbersDecide(n, w.number);
      }
    case Arr(items) =>
      if w.Arr? {
        NormDecidesItems(items, w.items);
      }
    case Obj(members) =>
      if w.Obj? {
        NormDecidesMembers(members, w.members);
        NormalObjectsAgree(members, w.members);
      }
    case _ =>
  }

  lemma EqualNormsMatch(m: Members, n: Members)
    requires MembersWellFormed(m) && MembersWellFormed(n) && Sort(NormMembers(m)) == Sort(NormMembers(n))
    ensures Keys(n) == Keys(m) && forall k :: k in Keys(m) ==> Matches(m, n, k)
  {
    NormObject(m);
    NormObject(n);
  }

  lemma MatchingNormsAreEqual(m: Members, n: Members)
    requires MembersWellFormed(m) && MembersWellFormed(n)
    requires Keys(n) <= Keys(m) && forall k :: k in Keys(m) ==> Matches(m, n, k)
    ensures Sort(NormMembers(m)) == Sort(NormMembers(n))
  {
    NormObject(m);
    NormObject(n);
    var a, b := Sort(NormMembers(m)), Sort(NormMembers(n));
    assert forall k :: k in Keys(m) ==> Matches(m, n, k);
    SortedIsUnique(a, b);
  }

  lemma NormalObjectsAgree(m: Members, n: Members)
    requires MembersWellFormed(m) && MembersWellFormed(n)
    ensures Norm(Obj(m)) == Norm(Obj(n)) <==> Keys(n) <= Keys(m) && forall k :: k in Keys(m) ==> Matches(m, n, k)
  {
    if Norm(Obj(m)) == Norm(Obj(n)) {
      EqualNormsMatch(m, n);
    }
    if Keys(n) <= Keys(m) && forall k :: k in Keys(m) ==> Matches(m, n, k) {
      MatchingNormsAreEqual(m, n);
    }
  }

  lemma NumbersDecide(m: Number, n: Number)
    ensures Norm(Num(m)) == Norm(Num(n)) <==> SameNumber(m, n)
  {
    NormalFormDecides(m, n);
    FromPlainIsInjective(Normalize(m), Normalize(n));
  }

  lemma FromPlainIsInjective(p: Plain, q: Plain)
    ensures FromPlain(p) == FromPlain(q) <==> p == q
  {
  }

  lemma {:induction false} NormDecidesItems(a: Items, b: Items)
    requires ItemsWellFormed(a) && ItemsWellFormed(b)
    ensures NormItems(a) == NormItems(b) <==> SameItems(a, b)
    decreases a
  {
    if a.Item? && b.Item? {
      NormDecides(a.head, b.head);
      NormDecidesItems(a.tail, b.tail);
    }
  }

  // n has this key of m, with the same normal value.
  predicate Matches(m: Members, n: Members, key: Text)
    requires key in Keys(m)
  {
    key in Keys(n) && Norm(Lookup(m, key)) == Norm(Lookup(n, key))
  }

  lemma {:induction false} NormDecidesMembers(m: Members, n: Members)
    requires MembersWellFormed(m) && MembersWellFormed(n)
    ensures SameMembers(m, n) <==> forall k :: k in Keys(m) ==> Matches(m, n, k)
    decreases m
  {
    if m.Member? {
      NormDecidesMembers(m.rest, n);
      forall k | k in Keys(m.rest) ensures Matches(m, n, k) == Matches(m.rest, n, k) {
        assert Lookup(m, k) == Lookup(m.rest, k);
      }
      if m.key in Keys(n) {
        LookupWellFormed(n, m.key);
        NormDecides(m.value, Lookup(n, m.key));
      }
      assert Matches(m, n, m.key) == (m.key in Keys(n) && Norm(m.value) == Norm(Lookup(n, m.key)));
    }
  }

  lemma {:induction false} LookupWellFormed(m: Members, key: Text)
    requires MembersWellFormed(m) && key in Keys(m)
    ensures WellFormed(Lookup(m, key))
  {
    if m.key != key {
      LookupWellFormed(m.rest, key);
    }
  }
}
