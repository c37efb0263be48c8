/** Character classes shared by the tile-file loader and the hand notation. */
module Chars {

  /** An ASCII decimal digit: what `[0-9]` matches, and what `\d` matches on ASCII text. */
  predicate IsDigit(c: char)
  {
    '0' <= c <= '9'
  }

  /** `str.lower()` on one character, restricted to the ASCII letters. */
  function Lower(c: char): (l: char)
    ensures 'A' <= c <= 'Z' ==> 'a' <= l <= 'z' && l as int - c as int == 32
    ensures !('A' <= c <= 'Z') ==> l == c
  {
    if 'A' <= c <= 'Z' then (c as int + 32) as char else c
  }
}
