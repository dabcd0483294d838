/** Bytes and UTF-8. */
module Bytes {

  newtype Byte = b: int | 0 <= b < 256

  /** The UTF-8 bytes of a rune. */
  function Utf8(c: char): seq<Byte> {
    var r := c as int;
    if r < 0x80 then [r as Byte]
    else if r < 0x800 then [(0xc0 + r / 64) as Byte, (0x80 + r % 64) as Byte]
    else if r < 0x10000 then [(0xe0 + r / 4096) as Byte, (0x80 + r / 64 % 64) as Byte, (0x80 + r % 64) as Byte]
    else [(0xf0 + r / 262144) as Byte, (0x80 + r / 4096 % 64) as Byte,
          (0x80 + r / 64 % 64) as Byte, (0x80 + r % 64) as Byte]
  }

  predicate Continues(b: Byte) {
    0x80 <= b < 0xc0
  }

  /** The number that a sequence of UTF-8 bytes stands for, if it is well-formed: the bits of its lead byte and six bits
      of each byte that follows (table 3-6 of the Unicode standard). */
  function Utf8Value(b: seq<Byte>): int {
    if |b| == 1 && b[0] < 0x80 then b[0] as int
    else if |b| == 2 && 0xc0 <= b[0] < 0xe0 && Continues(b[1]) then
      (b[0] as int - 0xc0) * 64 + (b[1] as int - 0x80)
    else if |b| == 3 && 0xe0 <= b[0] < 0xf0 && Continues(b[1]) && Continues(b[2]) then
      ((b[0] as int - 0xe0) * 64 + (b[1] as int - 0x80)) * 64 + (b[2] as int - 0x80)
    else if |b| == 4 && 0xf0 <= b[0] < 0xf8 && Continues(b[1]) && Continues(b[2]) && Continues(b[3]) then
      (((b[0] as int - 0xf0) * 64 + (b[1] as int - 0x80)) * 64 + (b[2] as int - 0x80)) * 64 + (b[3] as int - 0x80)
    else -1
  }

  lemma SixBits(r: int)
    requires r >= 0
    ensures r == r / 64 * 64 + r % 64 && r / 4096 == r / 64 / 64 && r / 262144 == r / 4096 / 64
    ensures r / 4096 % 64 == r / 64 / 64 % 64
  {
  }

  /** The bytes stand for the rune, and there are no more of them than needed. */
  lemma Utf8Stands(c: char)
    ensures Utf8Value(Utf8(c)) == c as int && |Utf8(c)| == Utf8Length(c as int)
  {
    var r := c as int;
    SixBits(r);
    SixBits(r / 64);
    SixBits(r / 4096);
    if 0x800 <= r < 0x10000 {
      Utf8Three(c);
    } else if r >= 0x10000 {
      Utf8Four(c);
    }
  }

  function Utf8Length(r: int): int {
    if r < 0x80 then 1 else if r < 0x800 then 2 else if r < 0x10000 then 3 else 4
  }

  lemma Utf8Three(c: char)
    requires 0x800 <= c as int < 0x10000
    ensures Utf8Value(Utf8(c)) == c as int
  {
    var r := c as int;
    SixBits(r);
    SixBits(r / 64);
  }

  lemma Utf8Four(c: char)
    requires c as int >= 0x10000
    ensures Utf8Value(Utf8(c)) == c as int
  {
    var r := c as int;
    SixBits(r);
    SixBits(r / 64);
    SixBits(r / 4096);
    assert r / 262144 < 8;
  }

  function Utf8All(s: string): seq<Byte> {
    if s == "" then [] else Utf8(s[0]) + Utf8All(s[1..])
  }

  lemma {:induction false} Utf8Concat(x: string, y: string)
    ensures Utf8All(x + y) == Utf8All(x) + Utf8All(y)
  {
    if x == "" {
      assert x + y == y;
    } else {
      assert (x + y)[1..] == x[1..] + y;
      Utf8Concat(x[1..], y);
    }
  }
}
