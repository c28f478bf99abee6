// Slugs derived from names (shared/character_spec.py:47-48, 75-80, 198-209).
module Slug {
  import opened Unicode

  const DASH: CodePoint := 45
  const MAX_SLUG := 48
  const MAX_NAME := 64

  // [a-z0-9]
  predicate Safe(c: CodePoint) { 97 <= c <= 122 || 48 <= c <= 57 }

  predicate Letter(c: CodePoint) { 65 <= c <= 90 || Safe(c) }

  // NAME_PATTERN: a letter or digit at both ends; also spaces, apostrophes and hyphens between.
  predicate ValidName(name: Text) {
    && 1 <= |name| <= MAX_NAME && Letter(name[0]) && Letter(name[|name| - 1])
    && forall c :: c in name ==> Letter(c) || c == 32 || c == 39 || c == DASH
  }

  // SLUG_PATTERN and the length: safe characters in groups joined by single dashes.
  predicate ValidSlug(slug: Text) {
    && 1 <= |slug| <= MAX_SLUG && Safe(slug[0]) && Safe(slug[|slug| - 1]) && Grouped(slug)
  }

  predicate Grouped(t: Text) {
    && (forall c :: c in t ==> Safe(c) || c == DASH)
    && forall i :: 0 <= i < |t| - 1 ==> t[i] != DASH || t[i + 1] != DASH
  }

  // `str.lower` on the characters of a valid name.
  function Lower(c: CodePoint): CodePoint { if 65 <= c <= 90 then c + 32 else c }

  // `re.sub(r"[^a-z0-9]+", "-", name.lower())`
  function Collapsed(name: Text): Text {
    if name == [] then []
    else
      var before, c := Collapsed(name[..|name| - 1]), Lower(name[|name| - 1]);
      if Safe(c) then before + [c]
      else if before != [] && before[|before| - 1] == DASH then before
      else before + [DASH]
  }

  function StripLeft(t: Text): Text { if t != [] && t[0] == DASH then StripLeft(t[1..]) else t }

  function StripRight(t: Text): Text {
    if t != [] && t[|t| - 1] == DASH then StripRight(t[..|t| - 1]) else t
  }

  function Take(t: Text, n: nat): Text { if |t| <= n then t else t[..n] }

  // `_safe_slug_from_name`, without its error for an empty slug.
  function SlugFrom(name: Text): Text { StripRight(Take(StripRight(StripLeft(Collapsed(name))), MAX_SLUG)) }

  lemma {:induction false} CollapsedIsGrouped(name: Text)
    ensures Grouped(Collapsed(name))
    ensures name != [] && Letter(name[0]) ==> Collapsed(name) != [] && Safe(Collapsed(name)[0])
  {
    if name != [] {
      CollapsedIsGrouped(name[..|name| - 1]);
    }
  }

  // A grouped text that starts with a safe character keeps both through the right-hand strip,
  // and then ends with a safe character.
  lemma {:induction false} StripRightKeeps(t: Text)
    requires Grouped(t) && t != [] && Safe(t[0])
    ensures var r := StripRight(t);
            r != [] && |r| <= |t| && r[0] == t[0] && Grouped(r) && Safe(r[|r| - 1])
    decreases |t|
  {
    if t[|t| - 1] == DASH {
      StripRightKeeps(t[..|t| - 1]);
    }
  }

  // Every slug derived from a valid name is a valid slug, so it is never empty.
  lemma DerivedSlugIsValid(name: Text)
    requires ValidName(name)
    ensures ValidSlug(SlugFrom(name))
  {
    CollapsedIsGrouped(name);
    var stripped := StripRight(StripLeft(Collapsed(name)));
    StripRightKeeps(Collapsed(name));
    StripRightKeeps(Take(stripped, MAX_SLUG));
  }

  // ---- What a slug says ----

  // A letter or digit in lower case; 0 for anything else.
  function Lowered(c: CodePoint): CodePoint {
    if 'A' as int <= c <= 'Z' as int then c - 'A' as int + 'a' as int
    else if 'a' as int <= c <= 'z' as int || '0' as int <= c <= '9' as int then c
    else 0
  }

  // The letters and digits of a name in lower case and in order, with one dash between two of them
  // wherever anything else stands there.
  function Dashed(name: Text): Text {
    if name == [] then []
    else
      var front, d := name[..|name| - 1], Lowered(name[|name| - 1]);
      if d == 0 then Dashed(front)
      else if Dashed(front) != [] && Lowered(front[|front| - 1]) == 0 then Dashed(front) + ['-' as int, d]
      else Dashed(front) + [d]
  }

  lemma LoweredIs(c: CodePoint)
    ensures Lowered(c) == if Safe(Lower(c)) then Lower(c) else 0
  {
  }

  // While a name that starts with a letter is read, what has been collapsed is that text, with a
  // dash after it where other characters follow.
  lemma {:induction false} CollapsedIsDashed(name: Text)
    requires name != [] && Letter(name[0])
    ensures Dashed(name) != [] && Dashed(name)[|Dashed(name)| - 1] != DASH
    ensures Collapsed(name) == if Letter(name[|name| - 1]) then Dashed(name) else Dashed(name) + [DASH]
  {
    var front, c := name[..|name| - 1], name[|name| - 1];
    LoweredIs(c);
    if front != [] {
      CollapsedIsDashed(front);
      LoweredIs(front[|front| - 1]);
    }
  }

  // The slug of a valid name is that text, cut after 48 characters, less a dash at the cut.
  lemma SlugIsDashed(name: Text)
    requires ValidName(name)
    ensures var dashed := Dashed(name);
            SlugFrom(name) == if |dashed| <= 48 then dashed
                              else if dashed[47] == '-' as int then dashed[..47] else dashed[..48]
  {
    CollapsedIsDashed(name);
    CollapsedIsGrouped(name);
    var dashed := Dashed(name);
    assert SlugFrom(name) == StripRight(Take(dashed, 48));
    if |dashed| > 48 && dashed[47] == DASH {
      assert dashed[46] != DASH;
      OneDash(dashed[..48], dashed[..47]);
    }
  }

  lemma OneDash(t: Text, front: Text)
    requires |t| > 1 && t[|t| - 1] == DASH && t[|t| - 2] != DASH && front == t[..|t| - 1]
    ensures StripRight(t) == front
  {
    assert front[|front| - 1] != DASH;
  }
}
