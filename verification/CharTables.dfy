/** The character classes against lists of their members. */
module CharTables {
  import opened Chars

  predicate OneOf(c: char, s: string) { c in s }

  predicate Capital(c: char) { 'A' <= c <= 'Z' }

  predicate Small(c: char) { 'a' <= c <= 'z' }

  lemma Letters(c: char)
    ensures IsAlpha(c) <==> Capital(c) || Small(c)
    ensures 'a' <= Lower(c) <= 'f' <==> 'a' <= c <= 'f' || 'A' <= c <= 'F'
  {
  }

  /** The characters of a token, section 3.2.6 of RFC 7230. */
  lemma Tokens(c: char)
    ensures IsToken(c) <==> OneOf(c, "!#$%&'*+-.^_`|~") || IsAlpha(c) || IsNum(c)
    ensures Capital(c) ==> Token(c) as int == c as int + 32
    ensures IsToken(c) && !Capital(c) ==> Token(c) == c
  {
    Letters(c);
  }

  /** The characters of a URL but `?` and `#`. */
  lemma UrlChars(c: char)
    ensures IsUrlChar(c) <==> OneOf(c, "!\"$%&'()*+,-./:;<=>@[\\]^_`{|}~") || IsAlpha(c) || IsNum(c)
  {
    Letters(c);
  }

  lemma ServerChars(c: char)
    ensures IsUserinfoChar(c) <==> OneOf(c, "-_.!~*'()%;:&=+$,") || IsAlpha(c) || IsNum(c)
    ensures IsHostChar(c) <==> OneOf(c, ".-") || IsAlpha(c) || IsNum(c)
    ensures IsHex(c) <==> OneOf(c, "abcdefABCDEF") || IsNum(c)
  {
    Letters(c);
    hide IsAlpha, Lower;
  }

  /** A header value may hold everything but control characters, among which the tab is allowed. */
  lemma HeaderChars(c: char)
    ensures !IsHeaderChar(c) <==> c == '\U{7F}' || (c as int < 32 && !OneOf(c, "\t\r\n"))
  {
  }

  /** Bytes beyond ASCII are the digit 0 of a chunk size. */
  lemma HexDigits(c: char)
    ensures IsNum(c) ==> "0123456789"[Digit(c)] == c && Unhex(c) == Digit(c)
    ensures OneOf(c, "abcdef") ==> 10 <= Unhex(c) < 16 && "abcdef"[Unhex(c) - 10] == c
    ensures OneOf(c, "ABCDEF") ==> 10 <= Unhex(c) < 16 && "ABCDEF"[Unhex(c) - 10] == c
    ensures c as int >= 128 ==> Unhex(c) == 0
    ensures c as int < 128 && !IsNum(c) && !OneOf(c, "abcdefABCDEF") ==> Unhex(c) == -1
  {
  }

  /** The bit that tells capitals from small letters is set, whatever the byte. */
  lemma Lowered(c: char)
    requires c as int < 256
    ensures Lower(c) as int == if c as int / 32 % 2 == 1 then c as int else c as int + 32
  {
  }
}
