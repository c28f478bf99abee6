// Metadata removal from rendered PNG files (blender/render/diagnostics.py:12-54), on the chunk
// layout of section 5.3 of ISO/IEC 15948.
module Png {
  import opened Bytes
  import opened Options

  const SIGNATURE: seq<Byte> := [0x89, 0x50, 0x4E, 0x47, 0x0D, 0x0A, 0x1A, 0x0A]

  const IHDR: seq<Byte> := [73, 72, 68, 82]
  const IDAT: seq<Byte> := [73, 68, 65, 84]
  const IEND: seq<Byte> := [73, 69, 78, 68]
  const TEXT: seq<Byte> := [116, 69, 88, 116]
  const ZTXT: seq<Byte> := [122, 84, 88, 116]
  const ITXT: seq<Byte> := [105, 84, 88, 116]
  const EXIF: seq<Byte> := [101, 88, 73, 102]
  const TIME: seq<Byte> := [116, 73, 77, 69]

  predicate IsMetadata(kind: seq<Byte>) { kind == TEXT || kind == ZTXT || kind == ITXT || kind == EXIF || kind == TIME }

  datatype Chunk = Chunk(kind: seq<Byte>, data: seq<Byte>, crc: seq<Byte>)

  predicate ValidChunk(c: Chunk) { |c.kind| == 4 && |c.crc| == 4 && |c.data| < 0x1_0000_0000 }

  function ChunkBytes(c: Chunk): (b: seq<Byte>)
    requires ValidChunk(c)
    ensures |b| == 12 + |c.data|
  {
    WordBytes(|c.data|) + c.kind + c.data + c.crc
  }

  predicate AllValid(cs: seq<Chunk>) { forall c :: c in cs ==> ValidChunk(c) }

  function ChunksBytes(cs: seq<Chunk>): seq<Byte>
    requires AllValid(cs)
  {
    if cs == [] then []
    else
      assert cs[0] in cs;
      ChunkBytes(cs[0]) + ChunksBytes(cs[1..])
  }

  // The first chunk of the body, when its length field fits.
  function FirstChunk(body: seq<Byte>): (c: Option<Chunk>)
    ensures c.Some? ==> ValidChunk(c.value) && 12 + |c.value.data| <= |body|
  {
    if |body| < 12 || 12 + Word(body[..4]) > |body| then None
    else
      var length := Word(body[..4]);
      Some(Chunk(body[4..8], body[8..8 + length], body[8 + length..12 + length]))
  }

  // The chunk sequence; None when a chunk is truncated or bytes follow IEND.
  function Chunks(body: seq<Byte>): (cs: Option<seq<Chunk>>)
    ensures cs.Some? ==> AllValid(cs.value)
    decreases |body|
  {
    if body == [] then Some([])
    else
      var first := FirstChunk(body);
      if first.None? then None
      else
        var rest := body[12 + |first.value.data|..];
        if first.value.kind == IEND then if rest == [] then Some([first.value]) else None
        else
          var more := Chunks(rest);
          if more.None? then None else Some([first.value] + more.value)
  }

  function WithoutMetadata(cs: seq<Chunk>): (r: seq<Chunk>)
    ensures AllValid(cs) ==> AllValid(r)
  {
    if cs == [] then []
    else
      assert cs[0] in cs;
      assert AllValid(cs) ==> AllValid(cs[1..]);
      (if IsMetadata(cs[0].kind) then [] else [cs[0]]) + WithoutMetadata(cs[1..])
  }

  predicate Has(cs: seq<Chunk>, kind: seq<Byte>) { exists c :: c in cs && c.kind == kind }

  predicate HasRequired(cs: seq<Chunk>) { Has(cs, IHDR) && Has(cs, IDAT) && Has(cs, IEND) }

  // What the file becomes; None when it is refused.
  function Sanitized(payload: seq<Byte>): Option<seq<Byte>> {
    if !(SIGNATURE <= payload) then None
    else
      var cs := Chunks(payload[8..]);
      if cs.None? || !HasRequired(cs.value) then None else Some(SIGNATURE + ChunksBytes(WithoutMetadata(cs.value)))
  }

  // ---- The loop of `_sanitize_png` ----

  lemma FourParts(body: seq<Byte>, length: nat)
    requires 12 + length <= |body|
    ensures body[..4] + body[4..8] + body[8..8 + length] + body[8 + length..12 + length] == body[..12 + length]
  {
    assert body[..4] + body[4..8] == body[..8];
    assert body[..8] + body[8..8 + length] == body[..8 + length];
  }

  lemma FirstChunkBytes(body: seq<Byte>)
    requires FirstChunk(body).Some?
    ensures var c := FirstChunk(body).value; ChunkBytes(c) == body[..12 + |c.data|]
  {
    var length := Word(body[..4]);
    WordRoundTrip(body[..4], 0);
    FourParts(body, length);
  }

  function Append(done: seq<Chunk>, rest: Option<seq<Chunk>>): Option<seq<Chunk>> {
    if rest.None? then None else Some(done + rest.value)
  }

  lemma {:induction false} WithoutMetadataAppend(cs: seq<Chunk>, c: Chunk)
    ensures WithoutMetadata(cs + [c]) == WithoutMetadata(cs) + if IsMetadata(c.kind) then [] else [c]
  {
    if cs == [] {
      assert cs + [c] == [c];
      assert [c][1..] == [];
    } else {
      assert (cs + [c])[1..] == cs[1..] + [c] && (cs + [c])[0] == cs[0];
      WithoutMetadataAppend(cs[1..], c);
      var head := if IsMetadata(cs[0].kind) then [] else [cs[0]];
      var last := if IsMetadata(c.kind) then [] else [c];
      assert head + (WithoutMetadata(cs[1..]) + last) == head + WithoutMetadata(cs[1..]) + last;
    }
  }

  lemma {:induction false} ChunksBytesAppend(cs: seq<Chunk>, c: Chunk)
    requires AllValid(cs) && ValidChunk(c)
    ensures AllValid(cs + [c]) && ChunksBytes(cs + [c]) == ChunksBytes(cs) + ChunkBytes(c)
  {
    if cs == [] {
      assert cs + [c] == [c];
      assert [c][1..] == [];
    } else {
      assert (cs + [c])[1..] == cs[1..] + [c];
      ChunksBytesAppend(cs[1..], c);
    }
  }

  // What has been written after `done` chunks.
  predicate Written(output: seq<Byte>, done: seq<Chunk>) {
    AllValid(done) && output == SIGNATURE + ChunksBytes(WithoutMetadata(done))
  }

  lemma WriteNext(output: seq<Byte>, done: seq<Chunk>, c: Chunk)
    requires Written(output, done) && ValidChunk(c)
    ensures Written(if IsMetadata(c.kind) then output else output + ChunkBytes(c), done + [c])
  {
    WithoutMetadataAppend(done, c);
    if IsMetadata(c.kind) {
      assert WithoutMetadata(done + [c]) == WithoutMetadata(done);
    } else {
      ChunksBytesAppend(WithoutMetadata(done), c);
      assert SIGNATURE + (ChunksBytes(WithoutMetadata(done)) + ChunkBytes(c)) == output + ChunkBytes(c);
    }
  }

  predicate Seen(done: seq<Chunk>, ihdr: bool, idat: bool, iend: bool) {
    ihdr == Has(done, IHDR) && idat == Has(done, IDAT) && iend == Has(done, IEND)
  }

  lemma SeenNext(done: seq<Chunk>, c: Chunk)
    ensures forall kind :: Has(done + [c], kind) <==> Has(done, kind) || c.kind == kind
  {
    forall kind ensures Has(done + [c], kind) <==> Has(done, kind) || c.kind == kind {
      assert (done + [c])[|done|] == c;
      assert forall d :: d in done + [c] <==> d in done || d == c;
    }
  }

  lemma ChunksStep(body: seq<Byte>, done: seq<Chunk>)
    requires body != [] && FirstChunk(body).Some?
    ensures var c := FirstChunk(body).value;
            var rest := body[12 + |c.data|..];
            Append(done, Chunks(body))
            == if c.kind == IEND then if rest == [] then Some(done + [c]) else None else Append(done + [c], Chunks(rest))
  {
    var c := FirstChunk(body).value;
    var rest := Chunks(body[12 + |c.data|..]);
    if c.kind != IEND && rest.Some? {
      assert done + ([c] + rest.value) == done + [c] + rest.value;
    }
  }

  // The state of the loop: what is written and seen, and what the rest of the file decides.
  predicate Reached(payload: seq<Byte>, offset: nat, output: seq<Byte>, done: seq<Chunk>,
                    ihdr: bool, idat: bool, iend: bool)
  {
    && 8 <= offset <= |payload| && Written(output, done) && Seen(done, ihdr, idat, iend)
    && Chunks(payload[8..]) == if iend then Some(done) else Append(done, Chunks(payload[offset..]))
  }

  lemma Cut(payload: seq<Byte>, offset: nat, rest: seq<Byte>, length: nat)
    requires offset <= |payload| && rest == payload[offset..] && length <= |rest|
    ensures rest[..length] == payload[offset..offset + length] && rest[length..] == payload[offset + length..]
  {
  }

  lemma SeenStep(done: seq<Chunk>, c: Chunk, ihdr: bool, idat: bool, iend: bool)
    requires Seen(done, ihdr, idat, iend)
    ensures Seen(done + [c], ihdr || c.kind == IHDR, idat || c.kind == IDAT, iend || c.kind == IEND)
  {
    SeenNext(done, c);
  }

  // The chunk at an offset, in terms of the whole file.
  lemma Piece(payload: seq<Byte>, offset: nat, rest: seq<Byte>, c: Chunk, end: nat)
    requires offset <= |payload| && rest == payload[offset..] && FirstChunk(rest) == Some(c)
    requires end == offset + 12 + |c.data|
    ensures ValidChunk(c) && end <= |payload| && ChunkBytes(c) == payload[offset..end]
    ensures rest[12 + |c.data|..] == payload[end..]
  {
    FirstChunkBytes(rest);
    Cut(payload, offset, rest, 12 + |c.data|);
  }

  predicate Continues(before: Option<seq<Chunk>>, done: seq<Chunk>, c: Chunk, rest: seq<Byte>) {
    before == if c.kind == IEND then if rest == [] then Some(done + [c]) else None else Append(done + [c], Chunks(rest))
  }

  lemma Follow(payload: seq<Byte>, offset: nat, output: seq<Byte>, done: seq<Chunk>, ihdr: bool, idat: bool,
               c: Chunk, end: nat)
    requires Reached(payload, offset, output, done, ihdr, idat, false)
    requires ValidChunk(c) && offset <= end <= |payload| && ChunkBytes(c) == payload[offset..end]
    requires Continues(Append(done, Chunks(payload[offset..])), done, c, payload[end..])
    ensures if c.kind == IEND && end != |payload| then Chunks(payload[8..]).None?
            else Reached(payload, end, if IsMetadata(c.kind) then output else output + payload[offset..end], done + [c],
                         ihdr || c.kind == IHDR, idat || c.kind == IDAT, c.kind == IEND)
  {
    SeenStep(done, c, ihdr, idat, false);
    WriteNext(output, done, c);
    assert payload[end..] == [] <==> end == |payload|;
  }

  // One pass: the chunk at the offset is written or left out, or bytes follow IEND.
  lemma Advance(payload: seq<Byte>, offset: nat, output: seq<Byte>, done: seq<Chunk>,
                ihdr: bool, idat: bool, rest: seq<Byte>, c: Chunk, end: nat)
    requires Reached(payload, offset, output, done, ihdr, idat, false)
    requires rest == payload[offset..] && rest != [] && FirstChunk(rest) == Some(c) && end == offset + 12 + |c.data|
    ensures end <= |payload|
    ensures if c.kind == IEND && end != |payload| then Chunks(payload[8..]).None?
            else Reached(payload, end, if IsMetadata(c.kind) then output else output + payload[offset..end], done + [c],
                         ihdr || c.kind == IHDR, idat || c.kind == IDAT, c.kind == IEND)
  {
    Piece(payload, offset, rest, c, end);
    ChunksStep(rest, done);
    Follow(payload, offset, output, done, ihdr, idat, c, end);
  }

  lemma AtEnd(payload: seq<Byte>, offset: nat, output: seq<Byte>, done: seq<Chunk>, ihdr: bool, idat: bool, iend: bool)
    requires Reached(payload, offset, output, done, ihdr, idat, iend) && (iend || offset == |payload|)
    ensures Chunks(payload[8..]) == Some(done)
  {
    if !iend {
      assert payload[offset..] == [];
      assert done + [] == done;
    }
  }

  lemma AtStart(payload: seq<Byte>)
    requires |payload| >= 8
    ensures Reached(payload, 8, SIGNATURE, [], false, false, false)
  {
    var body := Chunks(payload[8..]);
    assert body.Some? ==> [] + body.value == body.value;
  }

  method SanitizePng(payload: seq<Byte>) returns (written: Option<seq<Byte>>)
    ensures written == Sanitized(payload)
  {
    if !(SIGNATURE <= payload) {
      return None;
    }
    var output := SIGNATURE;
    var offset := 8;
    var sawIhdr, sawIdat, sawIend := false, false, false;
    ghost var done: seq<Chunk> := [];
    AtStart(payload);
    while offset < |payload| && !sawIend
      invariant Reached(payload, offset, output, done, sawIhdr, sawIdat, sawIend)
      decreases |payload| - offset
    {
      var first := FirstChunk(payload[offset..]);
      if first.None? {
        return None;
      }
      var c := first.value;
      var end := offset + 12 + |c.data|;
      Advance(payload, offset, output, done, sawIhdr, sawIdat, payload[offset..], c, end);
      sawIhdr := sawIhdr || c.kind == IHDR;
      sawIdat := sawIdat || c.kind == IDAT;
      sawIend := c.kind == IEND;
      if !IsMetadata(c.kind) {
        output := output + payload[offset..end];
      }
      done := done + [c];
      offset := end;
      if sawIend && offset != |payload| {
        return None;
      }
    }
    AtEnd(payload, offset, output, done, sawIhdr, sawIdat, sawIend);
    if !(sawIhdr && sawIdat && sawIend) {
      return None;
    }
    return Some(output);
  }

  // ---- What the result is ----

  // IEND only at the end.
  predicate Ended(cs: seq<Chunk>) { forall i :: 0 <= i < |cs| - 1 ==> cs[i].kind != IEND }

  lemma EndedRest(cs: seq<Chunk>)
    requires cs != [] && Ended(cs)
    ensures Ended(cs[1..]) && (|cs| > 1 ==> cs[0].kind != IEND)
  {
    forall i | 0 <= i < |cs[1..]| - 1 ensures cs[1..][i].kind != IEND {
      assert cs[1..][i] == cs[i + 1];
    }
  }

  lemma FirstOfBytes(c: Chunk, rest: seq<Byte>)
    requires ValidChunk(c)
    ensures FirstChunk(ChunkBytes(c) + rest) == Some(c) && (ChunkBytes(c) + rest)[12 + |c.data|..] == rest
  {
    var body := ChunkBytes(c) + rest;
    WordRoundTrip(WordBytes(|c.data|), |c.data|);
    assert body[..4] == WordBytes(|c.data|);
    assert body[4..8] == c.kind;
    assert body[8..8 + |c.data|] == c.data;
    assert body[8 + |c.data|..12 + |c.data|] == c.crc;
  }

  lemma ChunksOfBytes(c: Chunk, rest: seq<Byte>)
    requires ValidChunk(c) && (c.kind == IEND ==> rest == []) && Chunks(rest).Some?
    ensures Chunks(ChunkBytes(c) + rest) == Some([c] + Chunks(rest).value)
  {
    FirstOfBytes(c, rest);
    assert [c] + [] == [c];
  }

  // Writing chunks and parsing them gives them back.
  lemma {:induction false} ChunksRoundTrip(cs: seq<Chunk>)
    requires AllValid(cs) && Ended(cs)
    ensures Chunks(ChunksBytes(cs)) == Some(cs)
  {
    if cs != [] {
      assert cs[0] in cs;
      EndedRest(cs);
      var rest := ChunksBytes(cs[1..]);
      ChunksRoundTrip(cs[1..]);
      ChunksOfBytes(cs[0], rest);
      assert [cs[0]] + cs[1..] == cs;
    }
  }

  // Parsing keeps every byte.
  lemma {:induction false} ParsedBytes(body: seq<Byte>)
    requires Chunks(body).Some?
    ensures Ended(Chunks(body).value) && ChunksBytes(Chunks(body).value) == body
    decreases |body|
  {
    if body != [] {
      var c := FirstChunk(body).value;
      var rest := body[12 + |c.data|..];
      FirstChunkBytes(body);
      assert body == body[..12 + |c.data|] + rest;
      if c.kind == IEND {
        assert [c][1..] == [];
      } else {
        ParsedBytes(rest);
        assert ([c] + Chunks(rest).value)[1..] == Chunks(rest).value;
      }
    }
  }

  lemma {:induction false} FilterKeeps(cs: seq<Chunk>)
    ensures forall c :: c in WithoutMetadata(cs) <==> c in cs && !IsMetadata(c.kind)
  {
    if cs != [] {
      FilterKeeps(cs[1..]);
    }
  }

  lemma {:induction false} FilterIsIdempotent(cs: seq<Chunk>)
    ensures WithoutMetadata(WithoutMetadata(cs)) == WithoutMetadata(cs)
  {
    if cs != [] {
      FilterIsIdempotent(cs[1..]);
      var rest := WithoutMetadata(cs[1..]);
      assert ([cs[0]] + rest)[1..] == rest;
      assert [] + rest == rest;
    }
  }

  lemma EndedFront(c: Chunk, rest: seq<Chunk>)
    requires Ended(rest) && (rest != [] ==> c.kind != IEND)
    ensures Ended([c] + rest)
  {
    forall i | 0 <= i < |[c] + rest| - 1 ensures ([c] + rest)[i].kind != IEND {
      if i > 0 {
        assert ([c] + rest)[i] == rest[i - 1];
      }
    }
  }

  lemma {:induction false} FilterKeepsEnd(cs: seq<Chunk>)
    requires Ended(cs)
    ensures Ended(WithoutMetadata(cs)) && |WithoutMetadata(cs)| <= |cs|
  {
    if cs != [] {
      EndedRest(cs);
      FilterKeepsEnd(cs[1..]);
      var rest := WithoutMetadata(cs[1..]);
      EndedFront(cs[0], rest);
      assert [] + rest == rest;
    }
  }

  lemma RequiredStays(cs: seq<Chunk>)
    ensures HasRequired(WithoutMetadata(cs)) <==> HasRequired(cs)
  {
    FilterKeeps(cs);
    forall kind | !IsMetadata(kind) ensures Has(WithoutMetadata(cs), kind) <==> Has(cs, kind) {
      if Has(cs, kind) {
        var c :| c in cs && c.kind == kind;
        assert c in WithoutMetadata(cs);
      }
    }
    assert !IsMetadata(IHDR) && !IsMetadata(IDAT) && !IsMetadata(IEND);
  }

  lemma {:induction false} EndsWithIend(cs: seq<Chunk>)
    requires Ended(cs) && Has(cs, IEND)
    ensures cs != [] && cs[|cs| - 1].kind == IEND
  {
    var last :| last in cs && last.kind == IEND;
    var i :| 0 <= i < |cs| && cs[i] == last;
  }

  lemma BodyOfFile(cs: seq<Chunk>)
    requires AllValid(cs)
    ensures var file := SIGNATURE + ChunksBytes(cs); SIGNATURE <= file && file[8..] == ChunksBytes(cs)
  {
  }

  // An accepted file is its chunks, ending at IEND.
  lemma AcceptedIsChunks(payload: seq<Byte>)
    requires Sanitized(payload).Some?
    ensures var cs := Chunks(payload[8..]).value;
            payload == SIGNATURE + ChunksBytes(cs) && Ended(cs) && cs != [] && cs[|cs| - 1].kind == IEND
  {
    var body := payload[8..];
    ParsedBytes(body);
    EndsWithIend(Chunks(body).value);
    assert payload == payload[..8] + body;
  }

  // The result is a PNG whose chunks are the input's without the five metadata kinds, in order and
  // byte for byte.
  lemma SanitizedKeepsTheRest(payload: seq<Byte>)
    requires Sanitized(payload).Some?
    ensures var out := Sanitized(payload).value;
            var kept := WithoutMetadata(Chunks(payload[8..]).value);
            out == SIGNATURE + ChunksBytes(kept) && SIGNATURE <= out && Chunks(out[8..]) == Some(kept)
  {
    var cs := Chunks(payload[8..]).value;
    AcceptedIsChunks(payload);
    FilterKeepsEnd(cs);
    ChunksRoundTrip(WithoutMetadata(cs));
    BodyOfFile(WithoutMetadata(cs));
  }

  // Sanitizing the result again changes nothing.
  lemma SanitizedIsIdempotent(payload: seq<Byte>)
    requires Sanitized(payload).Some?
    ensures Sanitized(Sanitized(payload).value) == Sanitized(payload)
  {
    var cs := Chunks(payload[8..]).value;
    SanitizedKeepsTheRest(payload);
    FilterIsIdempotent(cs);
    RequiredStays(cs);
  }
}
