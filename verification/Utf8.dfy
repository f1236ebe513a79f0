/** The length of a text in bytes. */
module Utf8 {
  /** Bytes of one character in UTF-8. */
  function Size(c: char): (n: nat)
    ensures 1 <= n <= 4
  {
    var v := c as int;
    if v < 0x80 then 1 else if v < 0x800 then 2 else if v < 0x10000 then 3 else 4
  }

  const size: char -> nat := (c: char) => Size(c)

  function Length(s: string): nat {
    if s == [] then 0 else Size(s[0]) + Length(s[1..])
  }

  /** UTF-8 spends 7, 11, 16 or 21 bits on a character, in one to four bytes, and no more bytes than that needs. */
  lemma SizeIsLeast(c: char)
    ensures var n := c as int;
      && (Size(c) == 1 <==> n < 128) && (Size(c) <= 2 <==> n < 128 * 16) && (Size(c) <= 3 <==> n < 128 * 16 * 32)
  {
  }
}
