/** Case-insensitive matching as the marker patterns use it. */
module CaseFold {
  function Lower(c: char): char
  {
    if 'A' <= c <= 'Z' then c + 32 as char else c
  }

  /** Case-insensitive match of a character against an upper-case pattern letter; S also matches the long s. */
  predicate EqFold(c: char, p: char)
  {
    c == p || c == Lower(p) || (p == 'S' && c == '\U{017F}')
  }
}
