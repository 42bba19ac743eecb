/** What the parser object does with names and lengths, however they are cut into calls. */
module Splits {
  import opened Chars
  import opened Numbers
  import opened ParserState
  import opened StepMachine
  import opened ParserInvariant
  import opened LogInvariant
  import opened Runs
  import opened Calls
  import opened Stepping
  import opened Reading
  import opened HeaderName
  import opened Lengths

  /** The size limit stopped the calls, as it may. */
  ghost predicate Stopped(cfg: Config, a: Parser, pieces: seq<string>, b: Parser) {
    b.errno.HeaderOverflow? && !Fits(cfg, a.m, Flat(pieces), 0, FedRoom(cfg, a, pieces))
  }

  /** After any field name and its colon the matcher stands in the state of a framing header if and
      only if the lower-cased name is that header's, and `index` has stayed within its bits. */
  lemma NameAnySplit(cfg: Config, a: Parser, name: string, pieces: seq<string>, b: Parser, exited: bool)
    requires a.errno.Ok? && ParserInv(a) && a.m.f.state.HeaderFieldStart? && IsName(name)
    requires Flat(pieces) == name + ":" && Fed(cfg, a, pieces, b, exited)
    ensures Stopped(cfg, a, pieces, b)
        || (b.errno.Ok? && !exited && b.m.f.state.HeaderValueDiscardWs? && b.m.f.index <= 16)
    ensures !b.errno.HeaderOverflow? ==>
              && (b.m.f.hstate.Connection? <==> LowerName(name) == CONNECTION || LowerName(name) == PROXY_CONNECTION)
              && (b.m.f.hstate.ContentLength? <==> LowerName(name) == CONTENT_LENGTH)
              && (b.m.f.hstate.TransferEncoding? <==> LowerName(name) == TRANSFER_ENCODING)
              && (b.m.f.hstate.Upgrade? <==> LowerName(name) == UPGRADE)
  {
    hide Fed, Fits, Fold, Reads, LowerName, IsName, AfterName;
    NameNonempty(name);
    ReadNameColon(cfg, a.m, name);
    var n := NameRead(a.m, name);
    FedReads(cfg, a, pieces, b, exited, n.(nread := n.nread + 1, f := n.f.(state := HeaderValueDiscardWs)));
    FedIsFold(cfg, a, pieces, b, exited);
  }

  /** A first `Content-Length` is accepted if and only if its digits make at most
      18446744073709551609, and the stored length is then exact. */
  lemma LengthAnySplit(cfg: Config, a: Parser, v: string, pieces: seq<string>, b: Parser, exited: bool)
    requires a.errno.Ok? && ParserInv(a)
    requires a.m.f.state.HeaderValueDiscardWs? && a.m.f.hstate.ContentLength? && !a.m.f.m.flags.contentLength
    requires v != "" && v[0] != ' ' && v[0] != '\t' && forall c :: c in v ==> IsValueChar(cfg, c)
    requires Flat(pieces) == v && Fed(cfg, a, pieces, b, exited)
    ensures Stopped(cfg, a, pieces, b) || (b.errno.Ok? <==> IsLength(v) && Decimal(v) <= 18446744073709551609)
    ensures b.errno.Ok? ==> b.m.f.length == Decimal(v) && b.m.f.m.flags.contentLength
    ensures Stopped(cfg, a, pieces, b) || b.errno.Ok? || b.errno.InvalidContentLength?
  {
    hide Fed, Fits, Fold, IsLength, Decimal, IsValueChar, MachineInv;
    ReadLength(cfg, a.m, v);
    if GoodLength(v) {
      FedReads(cfg, a, pieces, b, exited, LengthRead(a.m, v));
    } else {
      FedRefuses(cfg, a, pieces, b, exited, InvalidContentLength);
    }
  }

  /** A chunk size is accepted if and only if all its bytes are digits to the parser and their number is at
      most 2^64 - 17, and the stored length is then exact. */
  lemma SizeAnySplit(cfg: Config, a: Parser, s: string, pieces: seq<string>, b: Parser, exited: bool)
    requires a.errno.Ok? && ParserInv(a) && a.m.f.state.ChunkSizeStart?
    requires s != "" && forall c :: c in s ==> IsSizeChar(c)
    requires Flat(pieces) == s && Fed(cfg, a, pieces, b, exited)
    ensures Stopped(cfg, a, pieces, b) || (b.errno.Ok? <==> IsSize(s) && Hex(s) <= 0x1_0000_0000_0000_0000 - 17)
    ensures b.errno.Ok? ==> b.m.f.length == Hex(s) && b.m.f.state.ChunkSize?
    ensures Stopped(cfg, a, pieces, b) || b.errno.Ok? || b.errno.InvalidContentLength? || b.errno.InvalidChunkSize?
  {
    hide Fed, Fits, Fold, IsSize, Hex, IsSizeChar;
    ReadSize(cfg, a.m, s);
    if GoodSize(s) {
      FedReads(cfg, a, pieces, b, exited, SizeRead(a.m, s));
    } else if Refuses(cfg, a.m, s, InvalidChunkSize) {
      FedRefuses(cfg, a, pieces, b, exited, InvalidChunkSize);
    } else {
      FedRefuses(cfg, a, pieces, b, exited, InvalidContentLength);
    }
  }
}
