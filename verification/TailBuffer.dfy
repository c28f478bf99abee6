// The bounded log tail (service/src/hbcb_service/launcher.py:48-62).
module TailBuffer {
  import opened Bytes

  // The last bytes of everything written, at most `maximum`.
  function Last(written: seq<Byte>, maximum: nat): (tail: seq<Byte>)
    ensures |tail| <= maximum && |tail| <= |written|
  {
    if |written| > maximum then written[|written| - maximum..] else written
  }

  // Cutting before a later chunk arrives loses nothing that is kept in the end.
  lemma LastOfLast(written: seq<Byte>, chunk: seq<Byte>, maximum: nat)
    ensures Last(Last(written, maximum) + chunk, maximum) == Last(written + chunk, maximum)
  {
    var cut := Last(written, maximum) + chunk;
    var start := |written| - |Last(written, maximum)|;
    assert cut == (written + chunk)[start..];
    if |cut| > maximum {
      assert cut[|cut| - maximum..] == (written + chunk)[|written + chunk| - maximum..];
    }
  }

  class Buffer {
    const maximum: nat
    var payload: seq<Byte>
    ghost var written: seq<Byte>

    ghost predicate Valid()
      reads this
    {
      payload == Last(written, maximum)
    }

    constructor (maximum: nat)
      ensures Valid() && written == [] && this.maximum == maximum
    {
      this.maximum := maximum;
      payload, written := [], [];
    }

    method Append(chunk: seq<Byte>)
      requires Valid()
      modifies this
      ensures Valid() && written == old(written) + chunk
    {
      LastOfLast(written, chunk, maximum);
      written := written + chunk;
      payload := payload + chunk;
      if |payload| > maximum {
        payload := payload[|payload| - maximum..];
      }
    }

    method Bytes() returns (tail: seq<Byte>)
      requires Valid()
      ensures tail == Last(written, maximum)
    {
      return payload;
    }
  }
}
