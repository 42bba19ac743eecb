/** Character classes of the HTTP parser in strict mode.  A buffer is a `string`
    that holds one `char` per byte; every function is total. */
module Chars {

  predicate IsNum(c: char) { '0' <= c <= '9' }

  /** `c | 0x20` on a byte: bit 5 is set. */
  function Lower(c: char): char {
    if c < ' ' || '@' <= c < '`' || '\U{80}' <= c < '\U{A0}' || '\U{C0}' <= c < '\U{E0}'
    then (c as int + 32) as char else c
  }

  predicate IsAlpha(c: char) { 'a' <= Lower(c) <= 'z' }

  predicate IsAlphaNum(c: char) { IsAlpha(c) || IsNum(c) }

  predicate IsHex(c: char) { IsNum(c) || 'a' <= Lower(c) <= 'f' }

  predicate IsMark(c: char) {
    c == '-' || c == '_' || c == '.' || c == '!' || c == '~' || c == '*' || c == '\'' || c == '(' || c == ')'
  }

  predicate IsUserinfoChar(c: char) {
    || IsAlphaNum(c) || IsMark(c) || c == '%' || c == ';' || c == ':' || c == '&' || c == '=' || c == '+'
    || c == '$' || c == ','
  }

  predicate IsHostChar(c: char) { IsAlphaNum(c) || c == '.' || c == '-' }

  /** The bit table `normal_url_char`: printable ASCII but space, `#` and `?`. */
  predicate IsUrlChar(c: char) { '!' <= c <= '~' && c != '#' && c != '?' }

  /** The punctuation that a token may hold. */
  predicate IsTokenMark(c: char) {
    || c == '!' || ('#' <= c <= '\'') || c == '*' || c == '+' || c == '-' || c == '.'
    || c == '^' || c == '_' || c == '`' || c == '|' || c == '~'
  }

  /** The table `tokens`: lower-cases letters, and is zero outside tokens. */
  function Token(c: char): char {
    if 'A' <= c <= 'Z' then (c as int + 32) as char
    else if 'a' <= c <= 'z' || IsNum(c) || IsTokenMark(c) then c
    else '\0'
  }

  predicate IsToken(c: char) { Token(c) != '\0' }

  predicate IsHeaderChar(c: char) { c == '\r' || c == '\n' || c == '\t' || (c > '\U{1F}' && c != '\U{7F}') }

  /** The table `unhex`.  Its initialiser stops at 128, so every later entry is 0. */
  function Unhex(c: char): int {
    if IsNum(c) then c as int - '0' as int
    else if 'A' <= c <= 'F' then c as int - 'A' as int + 10
    else if 'a' <= c <= 'f' then c as int - 'a' as int + 10
    else if c < '\U{80}' then -1
    else 0
  }

  function Digit(c: char): nat
    requires IsNum(c)
  {
    c as int - '0' as int
  }
}
