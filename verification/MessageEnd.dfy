/** A message from its header lines to its end: what both requests and responses have behind their first line. */
module MessageEnd {
  import opened Bytes
  import opened Graph
  import opened Machine
  import opened Strides
  import opened Walk
  import opened HeaderValues
  import opened HeaderBlock
  import Chunked
  import FixedLength
  import Framing
  import Messages

  /** The body as it is sent. The last line of a chunked one is the end of its trailers. */
  datatype Body =
    | NoBody
    | Sized(data: seq<byte>)
    | InChunks(chunks: seq<Chunked.Chunk>, last: Chunked.Chunk, trailers: seq<Header>, eol: seq<byte>)

  function PrintBody(b: Body): seq<byte> {
    match b
    case NoBody => []
    case Sized(data) => data
    case InChunks(cs, last, trailers, eol) =>
      Chunked.EncodeAll(cs) + last.size + last.ext + [CR, LF] + (PrintHeaders(trailers) + eol)
  }

  function ShownBody(b: Body): Messages.Content {
    match b
    case NoBody => Messages.Nothing
    case Sized(data) => Messages.Identity(data)
    case InChunks(cs, _, trailers, _) => Messages.Chunked(Chunked.Data(cs), AllShown(trailers))
  }

  /** What is told before the first trailer. */
  function InTrailer(t: Told): Told {
    Told(t.flags.(trailing := true), 0)
  }

  /** The body is what the header has told. A trailer may tell no length. */
  ghost predicate Announced(b: Body, t: Told, typ: nat, status: nat) {
    match b
    case NoBody =>
      && !t.flags.chunked && !t.flags.transferEncoding
      && (if t.flags.contentLength then t.length == 0 else typ == HTTP_REQUEST || Framing.NeverHasBody(status))
    case Sized(data) =>
      !t.flags.chunked && !t.flags.transferEncoding && t.flags.contentLength && t.length == |data| > 0
    case InChunks(cs, last, trailers, eol) =>
      && t.flags.chunked
      && Chunked.Sendable(cs) && Chunked.Sized(last) && Chunked.Extends(last.ext) && last.data == []
      && AreLines(trailers) && IsBlankEol(eol)
      && FirstWrong(InTrailer(t), trailers) == 0 && TellAll(InTrailer(t), trailers).length == 0
  }

  const NOTHING_TOLD := Told(NO_FLAGS, 0)

  /** The lines of a header, its empty line, and the body. */
  datatype End = End(headers: seq<Header>, eol: seq<byte>, body: Body)

  function PrintEnd(e: End): seq<byte> {
    PrintHeaders(e.headers) + e.eol + PrintBody(e.body)
  }

  /** Header lines that are good and coherent, and do not ask for another protocol; and the body they tell of. */
  ghost predicate SendableEnd(e: End, typ: nat, verb: nat, status: nat) {
    var t := TellAll(NOTHING_TOLD, e.headers);
    && AreLines(e.headers) && IsBlankEol(e.eol) && FirstWrong(NOTHING_TOLD, e.headers) == 0 && Coherent(t)
    && verb != HTTP_CONNECT && !(t.flags.upgrade && t.flags.connectionUpgrade && (typ == HTTP_REQUEST || status == 101))
    && Announced(e.body, t, typ, status)
  }

  /** The start of a message: nothing of the one before is in the way. */
  predicate Ready(s: Core) {
    && s.cur == START && s.error == 0 && s.span == None && s.index == 0
    && s.m.flags == NO_FLAGS && s.m.finish == FINISH_SAFE && s.m.length == 0 && !s.m.lenientHeaders && !s.m.lenientLength
    && (s.trace == [] || !s.trace[|s.trace| - 1].Piece?)
  }

  /** Behind the first line of a message. */
  predicate AtHeaders(s: Core) {
    && s.cur == HEADER_FIELD_START && s.error == 0 && s.span == None && s.index == 0
    && s.m.flags == NO_FLAGS && s.m.length == 0 && !s.m.lenientHeaders && !s.m.lenientLength
    && s.trace != [] && !s.trace[|s.trace| - 1].Piece?
  }

  /** The choice of the body, where none is announced, or one with a length, or one in chunks. */
  lemma BodyChosen(m: Fields, b: Body)
    requires Announced(b, Told(m.flags, m.length), m.typ, m.status) && !m.flags.skipBody && !m.upgrade
    requires m.typ == HTTP_REQUEST || m.typ == HTTP_RESPONSE
    ensures BodyDecision(m) ==
      if b.NoBody? then ON_MESSAGE_COMPLETE else if b.Sized? then SPAN_START_BODY_1 else INVOKE_UPDATE_CONTENT_LENGTH
  {
    hide Chunked.Sendable, Chunked.Sized, Chunked.Extends, AreLines, FirstWrong, TellAll;
  }

  /** The trailers, and the end of the message. */
  lemma TrailersRead(d: Policy, s: Core, hs: seq<Header>, eol: seq<byte>, rest: seq<byte>) returns (t: Core)
    requires s.cur == HEADER_FIELD_START && s.error == 0 && s.span == None && s.index == 0 && s.m.flags.trailing && s.m.length == 0
    requires !s.m.lenientHeaders && !s.m.lenientLength && s.trace != [] && !s.trace[|s.trace| - 1].Piece? && Accepts(d) && !s.m.upgrade
    requires AreLines(hs) && IsBlankEol(eol) && FirstWrong(ToldBy(s), hs) == 0 && TellAll(ToldBy(s), hs).length == 0
    ensures Ready(t) && t.m.typ == s.m.typ && t.m.verb == s.m.verb
    ensures t.trace == s.trace + Messages.ShowFields(AllShown(hs)) + [ChunkComplete, MessageComplete]
    ensures Run(d, Config(s, PrintHeaders(hs) + eol + rest)) == Run(d, Config(t, rest))
  {
    hide Run, FirstWrong, TellAll, AreLines, IsBlank, Messages.ShowFields, AllShown, PrintHeaders;
    var tail := eol + rest;
    assert PrintHeaders(hs) + eol + rest == PrintHeaders(hs) + ([tail[0]] + tail[1..]);
    EolIsNoValue(tail[0]);
    var h := HeadersRead(d, s, hs, tail[0], tail[1..]);
    TellAllKeeps(ToldBy(s), hs);
    var u := Behind(s, AllShown(hs), TellAll(ToldBy(s), hs), h);
    assert [tail[0]] + tail[1..] == eol + rest;
    EmptyLine(d, u, eol, rest);
    Chunked.TrailersDone(d, u.(cur := HEADERS_ALMOST_DONE), eol[|eol| - 1], rest);
    t := u.(cur := START, trace := u.trace + [ChunkComplete, MessageComplete], m := u.m.(finish := FINISH_SAFE, flags := NO_FLAGS));
  }

  lemma ChunksJoin(t: seq<Event>, cs: seq<Chunked.Chunk>, fields: seq<Messages.Field>)
    ensures t + Messages.ShowChunks(Chunked.Data(cs)) + [ChunkHeader(0)] + Messages.ShowFields(fields) + [ChunkComplete, MessageComplete] ==
      t + Messages.ShowContent(Messages.Chunked(Chunked.Data(cs), fields)) + [MessageComplete]
  {
  }

  /** The body, and the end of the message. */
  lemma BodyRead(d: Policy, s: Core, b: Body, rest: seq<byte>) returns (t: Core)
    requires s.cur == (if b.NoBody? then ON_MESSAGE_COMPLETE else if b.Sized? then SPAN_START_BODY_1 else INVOKE_UPDATE_CONTENT_LENGTH)
    requires s.error == 0 && s.span == None && s.index == 0 && !s.m.upgrade && !s.m.lenientHeaders && !s.m.lenientLength && Accepts(d)
    requires Announced(b, ToldBy(s), s.m.typ, s.m.status) && s.trace != [] && !s.trace[|s.trace| - 1].Piece?
    requires s.m.flags.contentLength || s.m.length == 0
    ensures Ready(t) && t.m.typ == s.m.typ && t.m.verb == s.m.verb
    ensures t.trace == s.trace + Messages.ShowContent(ShownBody(b)) + [MessageComplete]
    ensures Run(d, Config(s, PrintBody(b) + rest)) == Run(d, Config(t, rest))
  {
    hide Run, Chunked.Sendable, Chunked.Sized, Chunked.Extends, Chunked.EncodeAll, AreLines, FirstWrong, TellAll, AllShown, PrintHeaders, Messages.ShowFields, Messages.ShowChunks;
    match b {
      case NoBody =>
        assert PrintBody(b) + rest == rest;
        Framing.NothingFollows(d, s, rest);
        t := s.(cur := START, trace := s.trace + [MessageComplete], m := s.m.(finish := FINISH_SAFE, flags := NO_FLAGS));
      case Sized(data) =>
        FixedLength.BodyDecodes(d, s, data, rest);
        t := s.(cur := START, trace := s.trace + [Piece(OnBody, data), MessageComplete],
                m := s.m.(length := 0, finish := FINISH_SAFE, flags := NO_FLAGS));
      case InChunks(cs, last, trailers, eol) =>
        var tail := PrintHeaders(trailers) + eol + rest;
        assert PrintBody(b) + rest == Chunked.EncodeAll(cs) + last.size + last.ext + [CR, LF] + tail;
        Chunked.ChunksEnd(d, s, cs, last, LF, tail);
        var u := s.(cur := HEADER_FIELD_START, m := s.m.(length := 0, flags := s.m.flags.(trailing := true)),
                    trace := s.trace + Messages.ShowChunks(Chunked.Data(cs)) + [ChunkHeader(0)]);
        t := TrailersRead(d, u, trailers, eol, rest);
        ChunksJoin(s.trace, cs, AllShown(trailers));
    }
  }

  /** From the first header line to the start of the next message. */
  lemma EndRead(d: Policy, s: Core, e: End, rest: seq<byte>) returns (t: Core)
    requires AtHeaders(s) && Accepts(d) && (s.m.typ == HTTP_REQUEST || s.m.typ == HTTP_RESPONSE)
    requires SendableEnd(e, s.m.typ, s.m.verb, s.m.status)
    ensures Ready(t) && t.m.typ == s.m.typ && t.m.verb == s.m.verb
    ensures t.trace == s.trace + Messages.ShowFields(AllShown(e.headers)) + [HeadersComplete] +
      Messages.ShowContent(ShownBody(e.body)) + [MessageComplete]
    ensures Run(d, Config(s, PrintEnd(e) + rest)) == Run(d, Config(t, rest))
  {
    hide Run, FirstWrong, TellAll, AreLines, Announced, BodyDecision, AllShown, PrintHeaders, PrintBody, ShownBody, Messages.ShowFields, Messages.ShowContent;
    var b := e.body;
    var body := PrintBody(b) + rest;
    assert PrintEnd(e) + rest == PrintHeaders(e.headers) + e.eol + body;
    assert ToldBy(s) == NOTHING_TOLD;
    var h := BlockRead(d, s, e.headers, e.eol, body);
    TellAllKeeps(NOTHING_TOLD, e.headers);
    var u := Behind(s, AllShown(e.headers), TellAll(NOTHING_TOLD, e.headers), h);
    var m := u.m.(upgrade := false);
    assert UpgradeDecision(u.m) == false;
    BodyChosen(m, b);
    t := BodyRead(d, u.(cur := BodyDecision(m), trace := u.trace + [HeadersComplete], m := m), b, rest);
  }

  /** The parts of a message behind what was shown before. */
  lemma ShownWhole(t: seq<Event>, m: Messages.Message)
    ensures t + [MessageBegin] + Messages.ShowLine(m.line) + Messages.ShowFields(m.fields) + [HeadersComplete] +
      Messages.ShowContent(m.content) + [MessageComplete] == t + Messages.Show(m)
  {
    hide Messages.ShowLine, Messages.ShowFields, Messages.ShowContent;
  }
}
