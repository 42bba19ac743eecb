/** Chunked bodies: what the parser makes of the chunked form of a list of pieces. */
module Chunked {
  import opened Chars
  import opened Numbers
  import opened ParserState
  import opened UrlChar
  import opened ByteTransition
  import opened StepMachine
  import opened ParserInvariant
  import opened CallRefinement
  import opened LogInvariant
  import opened Runs
  import opened Calls
  import opened Stepping
  import opened Reading
  import opened HeaderName
  import opened Lengths
  import opened HeaderLine

  /** A chunk as it is written: its size in hexadecimal, an extension, and its bytes. */
  datatype Chunk = Chunk(size: string, ext: string, body: string)

  predicate IsExtension(ext: string) {
    ext == "" || ((ext[0] == ';' || ext[0] == ' ') && forall c :: c in ext ==> c != '\r')
  }

  predicate GoodHead(c: Chunk) {
    GoodSize(c.size) && Hex(c.size) == |c.body| && IsExtension(c.ext) && forall d :: d in c.size ==> IsSizeChar(d)
  }

  predicate GoodChunk(c: Chunk) { GoodHead(c) && c.body != "" }

  function ChunkHead(c: Chunk): string { c.size + c.ext + "\r\n" }

  function ChunkText(c: Chunk): string { ChunkHead(c) + (c.body + "\r\n") }

  function ChunkEvents(c: Chunk): seq<Event> {
    [Note(ChunkHeader(|c.body|)), Data(Body, c.body), Note(ChunkComplete)]
  }

  // ----- the head of a chunk -----

  lemma ExtensionTransition(cfg: Config, f: Fields, c: char)
    requires f.m.flags.chunked
    ensures f.state.ChunkSize? && (c == ';' || c == ' ') ==>
        Transition(cfg, f, c) == Do(f.(state := ChunkParameters), [])
    ensures f.state.ChunkParameters? && c != '\r' ==> Transition(cfg, f, c) == Do(f, [])
    ensures (f.state.ChunkSize? || f.state.ChunkParameters?) && c == '\r' ==>
              Transition(cfg, f, c) == Do(f.(state := ChunkSizeAlmostDone), [])
  {
  }

  lemma ReadExtension(cfg: Config, m: Machine, ext: string)
    requires m.f.state.ChunkSize? && m.f.m.flags.chunked && IsExtension(ext)
    ensures Reads(cfg, m, ext + "\r", m.(f := m.f.(state := ChunkSizeAlmostDone), nread := m.nread + |ext| + 1))
  {
    hide Transition, Step, Reads, ParsingHeader;
    ParsingStates();
    var done := m.(f := m.f.(state := ChunkSizeAlmostDone), nread := m.nread + |ext| + 1);
    if ext == "" {
      assert ext + "\r" == ['\r'];
      ExtensionTransition(cfg, m.f, '\r');
      Quiet(cfg, m, '\r', done.f);
      ReadByte(cfg, m, '\r', done);
    } else {
      var c, rest := ext[0], ext[1..];
      assert ext == [c] + rest;
      var n := m.(f := m.f.(state := ChunkParameters), nread := m.nread + 1);
      ExtensionTransition(cfg, m.f, c);
      Quiet(cfg, m, c, n.f);
      ReadByte(cfg, m, c, n);
      forall d | d in rest ensures Transition(cfg, n.f, d) == Do(n.f, []) {
        assert d in ext;
        ExtensionTransition(cfg, n.f, d);
      }
      ReadLoop(cfg, n, rest);
      var o := n.(nread := m.nread + |ext|);
      ReadThen(cfg, m, [c], n, rest, o);
      ExtensionTransition(cfg, o.f, '\r');
      Quiet(cfg, o, '\r', done.f);
      ReadBytes(cfg, m, ext, o, '\r', done);
    }
  }

  /** The fields after the head of a chunk of `n` bytes. */
  function HeadFields(f: Fields, n: nat): Fields {
    if n == 0 then f.(length := 0, state := HeaderFieldStart, m := f.m.(flags := f.m.flags.(trailing := true)))
    else f.(length := n, state := ChunkData)
  }

  lemma HeadTransition(cfg: Config, f: Fields)
    requires f.state.ChunkSizeAlmostDone? && f.m.flags.chunked
    ensures Transition(cfg, f, '\n') == Out(HeadFields(f, f.length), [Notify(ChunkHeader(f.length))], true, false)
  {
  }

  predicate AtChunk(m: Machine) { m.f.state.ChunkSizeStart? && m.nread == 0 && m.f.m.flags.chunked }

  lemma HeadParts(c: Chunk)
    requires GoodHead(c)
    ensures c.size != "" && |c.body| < ULLONG_MAX
  {
    hide Hex;
  }

  lemma ReadChunkHead(cfg: Config, m: Machine, c: Chunk)
    requires AtChunk(m) && GoodHead(c)
    ensures Reads(cfg, m, ChunkHead(c), Machine(HeadFields(m.f, |c.body|), 0, m.log + [Note(ChunkHeader(|c.body|))]))
  {
    hide Transition, Step, Reads, Fold, Hex, GoodSize, IsSizeChar, IsExtension;
    HeadParts(c);
    ReadSize(cfg, m, c.size);
    var n := SizeRead(m, c.size);
    ReadExtension(cfg, n, c.ext);
    var o := n.(f := n.f.(state := ChunkSizeAlmostDone), nread := n.nread + |c.ext| + 1);
    ReadThen(cfg, m, c.size, n, c.ext + "\r", o);
    HeadTransition(cfg, o.f);
    StepNotify(cfg, o, '\n', ChunkHeader(|c.body|));
    ReadBytes(cfg, m, c.size + (c.ext + "\r"), o, '\n',
      Machine(HeadFields(m.f, |c.body|), 0, m.log + [Note(ChunkHeader(|c.body|))]));
    assert ChunkHead(c) == c.size + (c.ext + "\r") + ['\n'];
  }

  // ----- the bytes of a chunk -----

  function BodyFields(f: Fields, n: nat): Fields
    requires n <= f.length
  {
    f.(length := f.length - n, state := if f.length == n then ChunkDataAlmostDone else ChunkData)
  }

  function BodyRead(m: Machine, body: string): Machine
    requires |body| <= m.f.length
  {
    Machine(BodyFields(m.f, |body|), m.nread, Emit(m.log, Data(Body, body)))
  }

  lemma BodyTransition(cfg: Config, f: Fields, c: char)
    requires f.state.ChunkData? && f.m.flags.chunked && HasLength(f)
    ensures Transition(cfg, f, c) == Do(BodyFields(f, 1), [Mark(Body)])
  {
  }

  lemma {:induction false} ReadBody(cfg: Config, m: Machine, body: string)
    requires m.f.state.ChunkData? && m.f.m.flags.chunked && body != "" && |body| <= m.f.length < ULLONG_MAX
    ensures Reads(cfg, m, body, BodyRead(m, body))
  {
    hide Transition, Step, Reads, Emit;
    var c, init := body[|body| - 1], body[..|body| - 1];
    assert body == init + [c];
    if init == "" {
      assert body == [c];
      BodyTransition(cfg, m.f, c);
      Sets(cfg, m, c, BodyFields(m.f, 1), Body);
      ReadByte(cfg, m, c, BodyRead(m, body));
    } else {
      ReadBody(cfg, m, init);
      var n := BodyRead(m, init);
      BodyTransition(cfg, n.f, c);
      Sets(cfg, n, c, BodyFields(n.f, 1), Body);
      Grow(m.log, Body, init, c);
      ReadBytes(cfg, m, init, n, c, BodyRead(m, body));
    }
  }

  lemma ChunkEndTransition(cfg: Config, f: Fields)
    requires f.m.flags.chunked
    ensures f.state.ChunkDataAlmostDone? && f.length == 0 ==>
              Transition(cfg, f, '\r') == Do(f.(state := ChunkDataDone), [Flush(Body, false)])
    ensures f.state.ChunkDataDone? ==>
              Transition(cfg, f, '\n') == Out(f.(state := ChunkSizeStart), [Notify(ChunkComplete)], true, false)
  {
  }

  lemma ReadChunkEnd(cfg: Config, m: Machine)
    requires m.f.state.ChunkDataAlmostDone? && m.f.m.flags.chunked && m.f.length == 0
    ensures Reads(cfg, m, "\r\n", Machine(m.f.(state := ChunkSizeStart), 0, m.log + [Note(ChunkComplete)]))
  {
    hide Transition, Step, Reads;
    var n := m.(f := m.f.(state := ChunkDataDone));
    ChunkEndTransition(cfg, m.f);
    ChunkEndTransition(cfg, n.f);
    StepChunkEnd(cfg, m, '\r');
    ReadByte(cfg, m, '\r', n);
    StepNotify(cfg, n, '\n', ChunkComplete);
    ReadBytes(cfg, m, "\r", n, '\n', Machine(m.f.(state := ChunkSizeStart), 0, m.log + [Note(ChunkComplete)]));
    assert ['\r'] + ['\n'] == "\r\n";
  }

  lemma ReadChunk(cfg: Config, m: Machine, c: Chunk)
    requires AtChunk(m) && GoodChunk(c)
    ensures Reads(cfg, m, ChunkText(c), Machine(m.f.(length := 0), 0, m.log + ChunkEvents(c)))
  {
    hide Transition, Step, Reads, Fold, Hex, GoodHead;
    HeadParts(c);
    ReadChunkHead(cfg, m, c);
    var n := Machine(HeadFields(m.f, |c.body|), 0, m.log + [Note(ChunkHeader(|c.body|))]);
    ReadBody(cfg, n, c.body);
    var o := BodyRead(n, c.body);
    var d := Machine(m.f.(length := 0), 0, m.log + ChunkEvents(c));
    ReadChunkEnd(cfg, o);
    assert o.log + [Note(ChunkComplete)] == d.log;
    assert o.f.(state := ChunkSizeStart) == d.f;
    ReadThen(cfg, n, c.body, o, "\r\n", d);
    ReadThen(cfg, m, ChunkHead(c), n, c.body + "\r\n", d);
  }

  // ----- a whole body -----

  function ChunksText(cs: seq<Chunk>): string { if cs == [] then "" else ChunkText(cs[0]) + ChunksText(cs[1..]) }

  function ChunksEvents(cs: seq<Chunk>): seq<Event> {
    if cs == [] then [] else ChunkEvents(cs[0]) + ChunksEvents(cs[1..])
  }

  lemma {:induction false} ReadChunks(cfg: Config, m: Machine, cs: seq<Chunk>)
    requires AtChunk(m) && forall c :: c in cs ==> GoodChunk(c)
    ensures Reads(cfg, m, ChunksText(cs),
        Machine(m.f.(length := if cs == [] then m.f.length else 0), 0, m.log + ChunksEvents(cs)))
    decreases |cs|
  {
    hide Reads, GoodChunk, ChunkText, ChunkEvents;
    if cs == [] {
      ReadNothing(cfg, m);
      assert m.log + [] == m.log;
    } else {
      var n := Machine(m.f.(length := 0), 0, m.log + ChunkEvents(cs[0]));
      ReadChunk(cfg, m, cs[0]);
      ReadChunks(cfg, n, cs[1..]);
      assert n.log + ChunksEvents(cs[1..]) == m.log + ChunksEvents(cs);
      ReadThen(cfg, m, ChunkText(cs[0]), n, ChunksText(cs[1..]), Machine(n.f, 0, m.log + ChunksEvents(cs)));
    }
  }

  lemma HeadEndTransition(cfg: Config, f: Fields)
    ensures f.state.HeaderFieldStart? ==> Transition(cfg, f, '\r') == Do(f.(state := HeadersAlmostDone), [])
    ensures f.state.HeadersAlmostDone? ==> Transition(cfg, f, '\n') == HeadersAlmostDoneStep(cfg, f, '\n')
  {
    hide HeadersAlmostDoneStep;
  }

  /** The empty line after the trailers. */
  lemma ReadTrailerEnd(cfg: Config, m: Machine)
    requires m.f.state.HeaderFieldStart? && m.f.m.flags.trailing && m.f.m.flags.chunked && !m.f.m.upgrade
    ensures Reads(cfg, m, "\r\n", Machine(m.f.(state := NewMessage(m.f)), m.nread + 2,
                    m.log + [Note(ChunkComplete), Note(MessageComplete(ShouldKeepAlive(m.f)))]))
  {
    hide Step, Reads, Transition;
    var n := m.(f := m.f.(state := HeadersAlmostDone), nread := m.nread + 1);
    HeadEndTransition(cfg, m.f);
    HeadEndTransition(cfg, n.f);
    Quiet(cfg, m, '\r', n.f);
    ReadByte(cfg, m, '\r', n);
    assert [Notify(ChunkComplete)] + [Notify(MessageComplete(ShouldKeepAlive(m.f)))]
        == [Notify(ChunkComplete), Notify(MessageComplete(ShouldKeepAlive(m.f)))];
    StepNotifyTwice(cfg, n, '\n', ChunkComplete, MessageComplete(ShouldKeepAlive(m.f)));
    ReadBytes(cfg, m, "\r", n, '\n', Machine(m.f.(state := NewMessage(m.f)), m.nread + 2,
              m.log + [Note(ChunkComplete), Note(MessageComplete(ShouldKeepAlive(m.f)))]));
    assert ['\r'] + ['\n'] == "\r\n";
  }

  /** The whole chunked body: chunks, the last chunk, trailers, and an empty line. */
  function BodyText(cs: seq<Chunk>, last: Chunk, trailers: seq<Header>): string {
    ChunksText(cs) + (ChunkHead(last) + (Lines(trailers) + "\r\n"))
  }

  function BodyEvents(cs: seq<Chunk>, trailers: seq<Header>, keepAlive: bool): seq<Event> {
    ChunksEvents(cs) + [Note(ChunkHeader(0))] + LineEvents(trailers)
      + [Note(ChunkComplete), Note(MessageComplete(keepAlive))]
  }

  lemma ReadTrailers(cfg: Config, m: Machine, last: Chunk, trailers: seq<Header>) returns (n: Machine)
    requires AtChunk(m) && !m.f.m.upgrade && GoodHead(last) && last.body == "" && AllPlain(cfg, trailers)
    ensures Reads(cfg, m, ChunkHead(last) + (Lines(trailers) + "\r\n"), n)
    ensures n.log == m.log + [Note(ChunkHeader(0))] + LineEvents(trailers)
                     + [Note(ChunkComplete), Note(MessageComplete(ShouldKeepAlive(m.f)))]
    ensures n.f.state == NewMessage(m.f) && n.nread == |Lines(trailers)| + 2
  {
    hide Step, Reads, Transition, ChunkHead, GoodHead, Lines, LineEvents, IsPlain;
    var a := Machine(HeadFields(m.f, 0), 0, m.log + [Note(ChunkHeader(0))]);
    ReadChunkHead(cfg, m, last);
    var b := ReadLines(cfg, a, trailers, "\r\n");
    ReadTrailerEnd(cfg, b);
    n := Machine(b.f.(state := NewMessage(b.f)), b.nread + 2,
                 b.log + [Note(ChunkComplete), Note(MessageComplete(ShouldKeepAlive(b.f)))]);
    LeadsReads(cfg, a, Lines(trailers), b, "\r\n", n);
    ReadThen(cfg, m, ChunkHead(last), a, Lines(trailers) + "\r\n", n);
  }

  /** Decoding inverts chunking: whatever the sizes are written like, the parser delivers the
      pieces in order, one header and one end per chunk with the last one too, and one message. */
  lemma ReadChunked(cfg: Config, m: Machine, cs: seq<Chunk>, last: Chunk, trailers: seq<Header>) returns (n: Machine)
    requires AtChunk(m) && !m.f.m.upgrade && forall c :: c in cs ==> GoodChunk(c)
    requires GoodHead(last) && last.body == "" && AllPlain(cfg, trailers)
    ensures Reads(cfg, m, BodyText(cs, last, trailers), n)
    ensures n.log == m.log + BodyEvents(cs, trailers, ShouldKeepAlive(m.f))
    ensures n.f.state == NewMessage(m.f) && n.nread == |Lines(trailers)| + 2
  {
    hide Reads, ChunkHead, GoodHead, GoodChunk, Lines, LineEvents, AllPlain, ChunksText, ChunksEvents;
    ReadChunks(cfg, m, cs);
    var a := Machine(m.f.(length := if cs == [] then m.f.length else 0), 0, m.log + ChunksEvents(cs));
    n := ReadTrailers(cfg, a, last, trailers);
    ReadThen(cfg, m, ChunksText(cs), a, ChunkHead(last) + (Lines(trailers) + "\r\n"), n);
  }

  // ----- what a consumer of the callbacks sees -----

  /** All the bytes given to `on_body`. */
  function Delivered(log: seq<Event>): string {
    if log == [] then ""
    else Delivered(log[..|log| - 1]) + (if LastIs(log, Body) then log[|log| - 1].bytes else "")
  }

  function Pieces(cs: seq<Chunk>): seq<string> { if cs == [] then [] else [cs[0].body] + Pieces(cs[1..]) }

  lemma {:induction false} DeliveredConcat(a: seq<Event>, b: seq<Event>)
    ensures Delivered(a + b) == Delivered(a) + Delivered(b)
    decreases |b|
  {
    if b == [] {
      assert a + b == a;
      assert Delivered(a) + "" == Delivered(a);
    } else {
      var init := b[..|b| - 1];
      assert (a + b)[..|a + b| - 1] == a + init;
      DeliveredConcat(a, init);
    }
  }

  lemma {:induction false} ChunksDelivered(cs: seq<Chunk>)
    ensures Delivered(ChunksEvents(cs)) == Flat(Pieces(cs))
  {
    if cs != [] {
      var e := ChunkEvents(cs[0]);
      DeliveredConcat(e, ChunksEvents(cs[1..]));
      assert e[..2] == [e[0], e[1]] && e[..2][..1] == [e[0]] && [e[0]][..0] == [];
      assert Delivered([]) == "" && Delivered([e[0]]) == "" && Delivered(e[..2]) == cs[0].body
        && Delivered(e) == cs[0].body;
      ChunksDelivered(cs[1..]);
      assert Pieces(cs)[1..] == Pieces(cs[1..]);
    }
  }

  /** A chunked body cut into calls in any way: body bytes, chunk and message notifications. */
  lemma ChunkedAnySplit(cfg: Config, a: Parser, cs: seq<Chunk>, last: Chunk, trailers: seq<Header>,
                        pieces: seq<string>, b: Parser, exited: bool)
    requires a.errno.Ok? && ParserInv(a) && AtChunk(a.m) && !a.m.f.m.upgrade
    requires (forall c :: c in cs ==> GoodChunk(c)) && GoodHead(last) && last.body == "" && AllPlain(cfg, trailers)
    requires Flat(pieces) == BodyText(cs, last, trailers) && Fed(cfg, a, pieces, b, exited)
    ensures if b.errno.HeaderOverflow?
            then !Fits(cfg, a.m, Flat(pieces), 0, FedRoom(cfg, a, pieces))
            else b.errno.Ok? && !exited
                 && b.m.log == a.m.log + BodyEvents(cs, trailers, ShouldKeepAlive(a.m.f))
                 && Delivered(b.m.log) == Delivered(a.m.log) + Flat(Pieces(cs))
  {
    hide Fed, Fits, ParserInv, AllPlain, GoodHead, GoodChunk, Fold, BodyText;
    var n := ReadChunked(cfg, a.m, cs, last, trailers);
    FedReads(cfg, a, pieces, b, exited, n);
    BodyDelivered(cs, trailers, ShouldKeepAlive(a.m.f));
    DeliveredConcat(a.m.log, BodyEvents(cs, trailers, ShouldKeepAlive(a.m.f)));
  }

  lemma {:induction false} LinesDelivered(hs: seq<Header>)
    ensures Delivered(LineEvents(hs)) == ""
  {
    if hs != [] {
      var e := [Data(Field, hs[0].name), Data(Value, Whole(hs[0]))];
      assert e[..1] == [e[0]] && e[..0] == [];
      assert Delivered(e[..0]) == "" && Delivered(e[..1]) == "" && Delivered(e) == "";
      DeliveredConcat(e, LineEvents(hs[1..]));
      LinesDelivered(hs[1..]);
    }
  }

  lemma BodyDelivered(cs: seq<Chunk>, trailers: seq<Header>, keepAlive: bool)
    ensures Delivered(BodyEvents(cs, trailers, keepAlive)) == Flat(Pieces(cs))
  {
    hide Flat, Pieces, ChunksEvents, LineEvents;
    var e, d: seq<Event> := [Note(ChunkHeader(0))], [Note(ChunkComplete), Note(MessageComplete(keepAlive))];
    ChunksDelivered(cs);
    LinesDelivered(trailers);
    assert e[..0] == [] && d[..1][..0] == [] && Delivered([]) == "" && Delivered(d[..1]) == "";
    assert Delivered(e) == "" && Delivered(d) == "";
    DeliveredConcat(ChunksEvents(cs), e);
    DeliveredConcat(ChunksEvents(cs) + e, LineEvents(trailers));
    DeliveredConcat(ChunksEvents(cs) + e + LineEvents(trailers), d);
  }

  // ----- writing chunks -----

  function HexDigit(d: nat): char
    requires d < 16
  {
    if d < 10 then ('0' as int + d) as char else ('a' as int + d - 10) as char
  }

  function HexText(n: nat): string { (if n < 16 then "" else HexText(n / 16)) + [HexDigit(n % 16)] }

  lemma {:induction false} HexTextValue(n: nat)
    ensures Hex(HexText(n)) == n && IsSize(HexText(n)) && forall c :: c in HexText(n) ==> IsSizeChar(c)
  {
    var init, c := if n < 16 then "" else HexText(n / 16), HexDigit(n % 16);
    assert HexText(n) == init + [c];
    assert Unhex(c) == n % 16 && IsSizeChar(c);
    if n >= 16 { HexTextValue(n / 16); } else { assert init + [c] == [c]; }
    SizeParts(init, c);
    assert Hex("") == 0;
    hide Unhex, IsSizeChar, HexDigit;
  }

  function Encode(piece: string): Chunk { Chunk(HexText(|piece|), "", piece) }

  function EncodeAll(ps: seq<string>): seq<Chunk> { if ps == [] then [] else [Encode(ps[0])] + EncodeAll(ps[1..]) }

  lemma EncodeOne(piece: string)
    requires |piece| <= MAX_CHUNK
    ensures GoodHead(Encode(piece)) && Encode(piece).body == piece
  {
    hide HexText;
    HexTextValue(|piece|);
    EncodeFrom(HexText(|piece|), piece);
  }

  lemma EncodeFrom(s: string, piece: string)
    requires IsSize(s) && Hex(s) == |piece| <= MAX_CHUNK && forall c :: c in s ==> IsSizeChar(c)
    ensures GoodHead(Chunk(s, "", piece))
  {
    hide Hex, IsSize, IsSizeChar;
  }

  /** Every list of non-empty pieces has a chunked form. */
  lemma {:induction false} EncodeGood(ps: seq<string>)
    requires forall p :: p in ps ==> p != "" && |p| <= MAX_CHUNK
    ensures forall c :: c in EncodeAll(ps) ==> GoodChunk(c)
    ensures Pieces(EncodeAll(ps)) == ps && GoodHead(Encode("")) && Encode("").body == ""
  {
    hide GoodHead, Encode;
    EncodeOne("");
    if ps != [] {
      assert ps[0] in ps;
      EncodeOne(ps[0]);
      forall p | p in ps[1..] ensures p in ps {}
      EncodeGood(ps[1..]);
      assert ps == [ps[0]] + ps[1..];
      assert EncodeAll(ps)[1..] == EncodeAll(ps[1..]);
    }
  }
}
