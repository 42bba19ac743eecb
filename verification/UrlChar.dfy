/** The URL automaton shared by the request line and the URL splitter. */
module UrlChar {
  import opened Chars
  import opened ParserState

  predicate IsUrlState(s: State) {
    || s.ReqSchema? || s.ReqSchemaSlash? || s.ReqSchemaSlashSlash? || s.ReqServerStart? || s.ReqServer?
    || s.ReqServerWithAt? || s.ReqPath? || s.ReqQueryStringStart? || s.ReqQueryString? || s.ReqFragmentStart?
    || s.ReqFragment?
  }

  function ServerChar(ch: char): State {
    if ch == '/' then ReqPath
    else if ch == '?' then ReqQueryStringStart
    else if ch == '@' then ReqServerWithAt
    else if IsUserinfoChar(ch) || ch == '[' || ch == ']' then ReqServer
    else Dead
  }

  /** `parse_url_char` in strict mode. */
  function ParseUrlChar(s: State, ch: char): (r: State)
    ensures r.Dead? || IsUrlState(r)
  {
    if ch == ' ' || ch == '\r' || ch == '\n' || ch == '\t' || ch == '\U{C}' then Dead
    else match s
      case ReqSpacesBeforeUrl =>
        if ch == '/' || ch == '*' then ReqPath else if IsAlpha(ch) then ReqSchema else Dead
      case ReqSchema =>
        if IsAlpha(ch) then s else if ch == ':' then ReqSchemaSlash else Dead
      case ReqSchemaSlash => if ch == '/' then ReqSchemaSlashSlash else Dead
      case ReqSchemaSlashSlash => if ch == '/' then ReqServerStart else Dead
      case ReqServerWithAt => if ch == '@' then Dead else ServerChar(ch)
      case ReqServerStart => ServerChar(ch)
      case ReqServer => ServerChar(ch)
      case ReqPath =>
        if IsUrlChar(ch) then s
        else if ch == '?' then ReqQueryStringStart else if ch == '#' then ReqFragmentStart else Dead
      case ReqQueryStringStart =>
        if IsUrlChar(ch) || ch == '?' then ReqQueryString else if ch == '#' then ReqFragmentStart else Dead
      case ReqQueryString =>
        if IsUrlChar(ch) || ch == '?' then ReqQueryString else if ch == '#' then ReqFragmentStart else Dead
      case ReqFragmentStart =>
        if IsUrlChar(ch) || ch == '?' then ReqFragment else if ch == '#' then s else Dead
      case ReqFragment => if IsUrlChar(ch) || ch == '?' || ch == '#' then s else Dead
      case _ => Dead
  }
}
