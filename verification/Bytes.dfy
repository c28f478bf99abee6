module Bytes {
  type Byte = b: int | 0 <= b < 256

  // `struct.unpack(">I", ...)` and its inverse.
  function Word(b: seq<Byte>): (n: nat)
    requires |b| == 4
    ensures n < 0x1_0000_0000
  {
    16777216 * Digit(b[0]) + 65536 * Digit(b[1]) + 256 * Digit(b[2]) + Digit(b[3])
  }

  function Digit(b: Byte): nat { b }

  function WordBytes(n: nat): (b: seq<Byte>)
    requires n < 0x1_0000_0000
    ensures |b| == 4
  {
    [n / 16777216, n / 65536 % 256, n / 256 % 256, n % 256]
  }

  lemma DigitsOfWord(w: nat, x: nat, y: nat, z: nat)
    requires w < 256 && x < 256 && y < 256 && z < 256
    ensures var n := 16777216 * w + 65536 * x + 256 * y + z;
            n / 16777216 == w && n / 65536 == 256 * w + x && n / 65536 % 256 == x
            && n / 256 == 65536 * w + 256 * x + y && n / 256 % 256 == y && n % 256 == z
  {
  }

  lemma WordOfDigits(n: nat)
    ensures n == 256 * (n / 256) + n % 256
    ensures n / 256 == 256 * (n / 65536) + n / 256 % 256
    ensures n / 65536 == 256 * (n / 16777216) + n / 65536 % 256
  {
  }

  lemma WordRoundTrip(b: seq<Byte>, n: nat)
    requires |b| == 4 && n < 0x1_0000_0000
    ensures WordBytes(Word(b)) == b && Word(WordBytes(n)) == n
  {
    DigitsOfWord(b[0], b[1], b[2], b[3]);
    WordOfDigits(n);
  }
}
