/**
 The whole way of a request, behind whatever line its reader takes: what a client sends is what the
 callbacks show. The parser is told to read requests, or finds it out.
 */
module Request {
  import opened Bytes
  import opened Graph
  import opened Machine
  import opened Walk
  import opened HeaderValues
  import opened HeaderBlock
  import opened MessageEnd
  import opened Requests
  import Framing
  import Messages
  import P = Parser
  import S = Session
  import Server
  import Starts

  /** The request line as it is sent, and what its reader takes it for. */
  datatype Start = Start(line: seq<byte>, verb: nat, major: nat, minor: nat, url: seq<byte>)

  datatype Request = Request(start: Start, end: End)

  ghost predicate TakenBehindHead(reader: Reader, t: Start) {
    && Starts.W_HEAD <= t.line && t.verb == HTTP_HEAD
    && var v := reader(REQ_FIRST_SPACE_BEFORE_URL, t.line[4..]);
       v.Line? && v == Line(|t.line| - 4, v.verb, t.major, t.minor, t.url)
  }

  /** A request line that the reader takes whole: from its first byte, and a HEAD also behind these letters. */
  ghost predicate SendableStart(reader: Reader, t: Start) {
    && t.line != [] && !Starts.IsLineEnd(t.line[0])
    && reader(START_REQ, t.line) == Line(|t.line|, t.verb, t.major, t.minor, t.url)
    && (t.line[0] == 72 ==> TakenBehindHead(reader, t))
  }

  ghost predicate SendableRequest(reader: Reader, r: Request) {
    SendableStart(reader, r.start) && SendableEnd(r.end, HTTP_REQUEST, r.start.verb, 0)
  }

  function Print(r: Request): seq<byte> {
    r.start.line + PrintEnd(r.end)
  }

  function Message(r: Request): Messages.Message {
    Messages.Message(Messages.Request(r.start.url), AllShown(r.end.headers), ShownBody(r.end.body))
  }

  /** The start of a request, for a parser of requests or of both types. */
  predicate AtStart(s: Core) {
    Ready(s) && (s.m.typ == HTTP_REQUEST || s.m.typ == HTTP_BOTH)
  }

  /** Behind the request line. */
  function AfterStart(s: Core, t: Start): Core {
    s.(cur := HEADER_FIELD_START, trace := s.trace + [MessageBegin] + Messages.ShowLine(Messages.Request(t.url)),
       m := s.m.(finish := FINISH_UNSAFE, typ := HTTP_REQUEST, verb := t.verb, major := t.major, minor := t.minor))
  }

  /** The line itself, from where the machine waits for it. */
  lemma LineTaken(d: Policy, reader: Reader, s: Core, line: seq<byte>, v: Verdict, rest: seq<byte>)
    requires Steady(reader) && AtRequestLine(s) && v.Line? && v.size == |line| && reader(s.cur, line) == v
    ensures Served(d, reader, Config(s, line + rest)) ==
      Served(d, reader, Config(AfterRequestLine(s, v.verb, v.major, v.minor, v.url), rest))
  {
    hide Run, Served;
    BehindMore(d, reader, Config(s, line), rest);
    assert line[|line|..] + rest == rest;
  }

  lemma TypedStart(d: Policy, reader: Reader, s: Core, t: Start, rest: seq<byte>)
    requires Ready(s) && s.m.typ == HTTP_REQUEST && Accepts(d) && Steady(reader) && SendableStart(reader, t)
    ensures Served(d, reader, Config(s, t.line + rest)) == Served(d, reader, Config(AfterStart(s, t), rest))
  {
    hide Run, Served, Steady, Starts.IsLineEnd;
    var u := Starts.Begun(s).(cur := START_REQ);
    assert t.line + rest == [t.line[0]] + (t.line[1..] + rest);
    Starts.RequestBegins(d, s, t.line[0], t.line[1..] + rest);
    Starts.Parked(d, Config(u, t.line + rest));
    ServedRun(d, reader, Config(s, t.line + rest), Config(u, t.line + rest));
    LineTaken(d, reader, u, t.line, reader(START_REQ, t.line), rest);
    assert u.trace + [Piece(OnUrl, t.url)] + [UrlComplete] == AfterStart(s, t).trace;
  }

  /** HEAD, read by a parser of both types. */
  lemma HeadStart(d: Policy, reader: Reader, s: Core, t: Start, rest: seq<byte>)
    requires Ready(s) && s.m.typ == HTTP_BOTH && Accepts(d) && Steady(reader) && SendableStart(reader, t) && t.line[0] == 72
    ensures Served(d, reader, Config(s, t.line + rest)) == Served(d, reader, Config(AfterStart(s, t), rest))
  {
    hide Run, Served, Steady;
    var w := t.line + rest;
    assert w[1] == t.line[1] == 69 && w[0] == 72;
    assert w[..4] == t.line[..4] == Starts.W_HEAD;
    Starts.GuessesWord(d, s, w);
    var u := Starts.Begun(s);
    var v := u.(cur := REQ_FIRST_SPACE_BEFORE_URL, m := u.m.(typ := HTTP_REQUEST, verb := HTTP_HEAD));
    assert !(W_HTTP <= w);
    assert Starts.W_HEAD <= w;
    assert w[4..] == t.line[4..] + rest;
    Starts.Parked(d, Config(v, w[4..]));
    ServedRun(d, reader, Config(s, w), Config(v, w[4..]));
    LineTaken(d, reader, v, t.line[4..], reader(REQ_FIRST_SPACE_BEFORE_URL, t.line[4..]), rest);
    assert v.trace + [Piece(OnUrl, t.url)] + [UrlComplete] == AfterStart(s, t).trace;
  }

  /** The request line, from the start of the message. */
  lemma StartRead(d: Policy, reader: Reader, s: Core, t: Start, rest: seq<byte>)
    requires AtStart(s) && Accepts(d) && Steady(reader) && SendableStart(reader, t)
    ensures Served(d, reader, Config(s, t.line + rest)) == Served(d, reader, Config(AfterStart(s, t), rest))
    ensures var u := AfterStart(s, t); AtHeaders(u) && u.m.typ == HTTP_REQUEST && u.m.verb == t.verb && ToldBy(u) == NOTHING_TOLD
  {
    hide Run, Served, Steady, Starts.IsLineEnd;
    if s.m.typ == HTTP_REQUEST {
      TypedStart(d, reader, s, t, rest);
    } else if t.line[0] == 72 {
      HeadStart(d, reader, s, t, rest);
    } else {
      var u := s.(m := s.m.(typ := HTTP_REQUEST));
      assert t.line + rest == [t.line[0]] + (t.line[1..] + rest);
      Starts.ReadsRequest(d, s, t.line[0], t.line[1..] + rest);
      ServedRun(d, reader, Config(s, t.line + rest), Config(u, t.line + rest));
      TypedStart(d, reader, u, t, rest);
      assert AfterStart(u, t) == AfterStart(s, t);
    }
  }

  /**
   The round trip: the bytes of a request make exactly the callbacks that show it, the parser is
   back at the start of a message with nothing left behind, and what follows is not read.
   */
  lemma RequestRead(d: Policy, reader: Reader, s: Core, r: Request, rest: seq<byte>) returns (t: Core)
    requires AtStart(s) && Accepts(d) && Steady(reader) && SendableRequest(reader, r)
    ensures AtStart(t) && t.m.typ == HTTP_REQUEST && t.trace == s.trace + Messages.Show(Message(r))
    ensures Served(d, reader, Config(s, Print(r) + rest)) == Served(d, reader, Config(t, rest))
  {
    hide Run, Served, Steady, Accepts, PrintEnd, SendableStart, Ready, AtHeaders;
    hide Messages.ShowLine, Messages.ShowFields, Messages.ShowContent, ShownBody, AllShown, TellAll, FirstWrong, Announced;
    var tail := PrintEnd(r.end) + rest;
    assert Print(r) + rest == r.start.line + tail;
    StartRead(d, reader, s, r.start, tail);
    var u := AfterStart(s, r.start);
    StatusIsFree(r.end, r.start.verb, u.m.status);
    t := EndRead(d, u, r.end, rest);
    ServedRun(d, reader, Config(u, tail), Config(t, rest));
    ShownWhole(s.trace, Message(r));
  }

  /** The status code of a response before does not matter to a request. */
  lemma StatusIsFree(e: End, verb: nat, status: nat)
    requires SendableEnd(e, HTTP_REQUEST, verb, 0)
    ensures SendableEnd(e, HTTP_REQUEST, verb, status)
  {
    hide AreLines, FirstWrong, TellAll;
  }

  /** A request with both a length and a coding, in whatever order, is refused at the end of its header: it is not shown as complete, and its body is not read. */
  lemma LengthsRefused(d: Policy, reader: Reader, s: Core, t: Start, hs: seq<Header>, eol: seq<byte>, rest: seq<byte>)
    requires AtStart(s) && Accepts(d) && Steady(reader) && SendableStart(reader, t) && AreLines(hs) && IsBlankEol(eol)
    requires FirstWrong(NOTHING_TOLD, hs) == 0 && !Coherent(TellAll(NOTHING_TOLD, hs))
    ensures var r := Served(d, reader, Config(s, t.line + (PrintHeaders(hs) + eol + rest)));
      && r.s.error == HPE_UNEXPECTED_CONTENT_LENGTH && r.input == rest
      && r.s.trace == s.trace + [MessageBegin] + Messages.ShowLine(Messages.Request(t.url)) + Messages.ShowFields(AllShown(hs))
  {
    hide Run, Served, Steady, Accepts, SendableStart, FirstWrong, TellAll, AreLines, Messages.ShowLine, Messages.ShowFields, AllShown, Coherent, PrintHeaders, Ready;
    var u, tail := AfterStart(s, t), PrintHeaders(hs) + eol + rest;
    StartRead(d, reader, s, t, tail);
    HeadersAreBlock(u);
    var h := BlockRead(d, u, hs, eol, rest);
    Server.StopsServed(d, reader, Config(u, tail));
  }

  lemma HeadersAreBlock(s: Core)
    requires AtHeaders(s)
    ensures AtHeader(s) && !s.m.flags.trailing && !s.m.lenientLength
  {
  }

  predicate NamesNoBody(f: Flags) {
    !f.transferEncoding && !f.chunked && !f.contentLength
  }

  /**
   A request that names no body. With Upgrade and Connection: upgrade, or with the method CONNECT, it
   is the last of its protocol: the parser stops with HPE_PAUSED_UPGRADE, and not one of the later
   bytes is read. Otherwise it is complete.
   */
  lemma SwitchRead(d: Policy, reader: Reader, s: Core, t: Start, hs: seq<Header>, eol: seq<byte>, rest: seq<byte>)
    requires AtStart(s) && Accepts(d) && Steady(reader) && SendableStart(reader, t) && AreLines(hs) && IsBlankEol(eol)
    requires FirstWrong(NOTHING_TOLD, hs) == 0 && NamesNoBody(TellAll(NOTHING_TOLD, hs).flags)
    ensures var r, f := Served(d, reader, Config(s, t.line + (PrintHeaders(hs) + eol + rest))), TellAll(NOTHING_TOLD, hs).flags;
      var trace := s.trace + [MessageBegin] + Messages.ShowLine(Messages.Request(t.url)) + Messages.ShowFields(AllShown(hs)) +
        [HeadersComplete] + [MessageComplete];
      if (f.upgrade && f.connectionUpgrade) || t.verb == HTTP_CONNECT then
        r.s.error == HPE_PAUSED_UPGRADE && r.s.trace == trace && r.input == rest
      else
        exists u: Core :: AtStart(u) && u.trace == trace && r == Served(d, reader, Config(u, rest))
  {
    hide Run, Served, Steady, FirstWrong, TellAll, AreLines, Messages.ShowLine, Messages.ShowFields, AllShown, PrintHeaders, IsBlank, SendableStart;
    var tail := eol + rest;
    var u := AfterStart(s, t);
    StartRead(d, reader, s, t, PrintHeaders(hs) + eol + rest);
    HeadersAreBlock(u);
    assert PrintHeaders(hs) + eol + rest == PrintHeaders(hs) + ([tail[0]] + tail[1..]);
    EolIsNoValue(tail[0]);
    var h := HeadersRead(d, u, hs, tail[0], tail[1..]);
    assert [tail[0]] + tail[1..] == eol + rest;
    TellAllKeeps(NOTHING_TOLD, hs);
    var v := HeaderBlock.Behind(u, AllShown(hs), TellAll(NOTHING_TOLD, hs), h);
    EmptyLine(d, v, eol, rest);
    var w := v.(cur := HEADERS_ALMOST_DONE);
    Framing.BodilessEnds(d, w, eol[|eol| - 1], rest);
    if Framing.AsksForProtocol(w.m) {
      Server.StopsServed(d, reader, Config(u, PrintHeaders(hs) + eol + rest));
    } else {
      var x := w.(cur := START, trace := w.trace + [HeadersComplete] + [MessageComplete],
                  m := w.m.(upgrade := false, finish := FINISH_SAFE, flags := NO_FLAGS));
      ServedRun(d, reader, Config(u, PrintHeaders(hs) + eol + rest), Config(x, rest));
      assert AtStart(x);
    }
  }

  /** A coding is told that is not chunked, no length, and no upgrade. */
  predicate NamesCoding(f: Flags) {
    f.transferEncoding && !f.chunked && !f.contentLength && !(f.upgrade && f.connectionUpgrade)
  }

  /** A request with a coding that is not chunked: its body would have no end, and so it is refused behind its header. */
  lemma CodingRefused(d: Policy, reader: Reader, s: Core, t: Start, hs: seq<Header>, eol: seq<byte>, rest: seq<byte>)
    requires AtStart(s) && Accepts(d) && Steady(reader) && SendableStart(reader, t) && AreLines(hs) && IsBlankEol(eol)
    requires FirstWrong(NOTHING_TOLD, hs) == 0 && t.verb != HTTP_CONNECT && NamesCoding(TellAll(NOTHING_TOLD, hs).flags)
    ensures var r := Served(d, reader, Config(s, t.line + (PrintHeaders(hs) + eol + rest)));
      && r.s.error == HPE_INVALID_TRANSFER_ENCODING && r.input == rest
      && r.s.trace == s.trace + [MessageBegin] + Messages.ShowLine(Messages.Request(t.url)) + Messages.ShowFields(AllShown(hs)) + [HeadersComplete]
  {
    hide Run, Served, Steady, FirstWrong, TellAll, AreLines, Messages.ShowLine, Messages.ShowFields, AllShown, PrintHeaders, IsBlank, SendableStart;
    var tail := eol + rest;
    var u := AfterStart(s, t);
    StartRead(d, reader, s, t, PrintHeaders(hs) + eol + rest);
    HeadersAreBlock(u);
    assert PrintHeaders(hs) + eol + rest == PrintHeaders(hs) + ([tail[0]] + tail[1..]);
    EolIsNoValue(tail[0]);
    var h := HeadersRead(d, u, hs, tail[0], tail[1..]);
    assert [tail[0]] + tail[1..] == eol + rest;
    TellAllKeeps(NOTHING_TOLD, hs);
    var v := HeaderBlock.Behind(u, AllShown(hs), TellAll(NOTHING_TOLD, hs), h);
    EmptyLine(d, v, eol, rest);
    Framing.CodedEnds(d, v.(cur := HEADERS_ALMOST_DONE), eol[|eol| - 1], rest);
    Server.StopsServed(d, reader, Config(u, PrintHeaders(hs) + eol + rest));
  }

  function PrintAll(rs: seq<Request>): seq<byte> {
    if rs == [] then [] else Print(rs[0]) + PrintAll(rs[1..])
  }

  function AllMessages(rs: seq<Request>): seq<Messages.Message> {
    seq(|rs|, i requires 0 <= i < |rs| => Message(rs[i]))
  }

  lemma NoMessages()
    ensures AllMessages([]) == []
  {
  }

  lemma ShowFirst(rs: seq<Request>)
    requires rs != []
    ensures Messages.ShowAll(AllMessages(rs)) == Messages.Show(Message(rs[0])) + Messages.ShowAll(AllMessages(rs[1..]))
  {
    hide Message, Messages.Show;
    assert AllMessages(rs)[1..] == AllMessages(rs[1..]);
  }

  /** Any number of requests, one after another. */
  lemma {:induction false} RequestsRead(d: Policy, reader: Reader, s: Core, rs: seq<Request>, rest: seq<byte>) returns (t: Core)
    requires AtStart(s) && Accepts(d) && Steady(reader)
    requires forall i :: 0 <= i < |rs| ==> SendableRequest(reader, rs[i])
    ensures AtStart(t) && t.trace == s.trace + Messages.ShowAll(AllMessages(rs))
    ensures Served(d, reader, Config(s, PrintAll(rs) + rest)) == Served(d, reader, Config(t, rest))
    decreases |rs|
  {
    hide Served, Steady, Accepts, Print, Message, AllMessages, Messages.Show, SendableRequest, Ready;
    if rs == [] {
      t := s;
      assert PrintAll(rs) + rest == rest;
      assert AllMessages(rs) == [] by { NoMessages(); }
      assert s.trace + Messages.ShowAll(AllMessages(rs)) == s.trace;
    } else {
      assert PrintAll(rs) + rest == Print(rs[0]) + (PrintAll(rs[1..]) + rest);
      var u := RequestRead(d, reader, s, rs[0], PrintAll(rs[1..]) + rest);
      t := RequestsRead(d, reader, u, rs[1..], rest);
      ShowFirst(rs);
      assert u.trace + Messages.ShowAll(AllMessages(rs[1..])) == s.trace + Messages.ShowAll(AllMessages(rs));
    }
  }

  lemma NothingToServe(d: Policy, reader: Reader, s: Core)
    requires AtStart(s) && Steady(reader)
    ensures Served(d, reader, Config(s, [])) == Config(s, [])
  {
    assert Halted(Config(s, []));
    ServedHalted(d, reader, Config(s, []));
  }

  /**
   All of it together: requests arrive at the parser in any chunks, the user pauses at any callback
   and as often as is liked, and what was reported in the end shows these requests.
   */
  method Receive(p: P.Parser, rs: seq<Request>, chunks: seq<seq<byte>>, reader: Reader, ghost d: Policy) returns (unread: seq<byte>)
    requires p.Valid() && AtStart(p.View()) && P.Obeys(p.answer, d) && Accepts(d) && Steady(reader)
    requires forall i :: 0 <= i < |rs| ==> SendableRequest(reader, rs[i])
    requires chunks != [] && S.Flat(chunks) == PrintAll(rs)
    modifies p
    ensures p.Valid() && (p.error == 0 || p.error == HPE_PAUSED || p.Refused())
    ensures p.error == 0 ==> unread == [] && AtStart(p.View())
    ensures p.error == 0 ==> Glue(p.calls) == old(Glue(p.calls)) + Messages.ShowAll(AllMessages(rs))
  {
    hide Served, Steady, P.Parser.Valid, P.Obeys, P.Parser.Refused, SendableRequest, PrintAll, Messages.ShowAll;
    ghost var s := p.View();
    ghost var t := RequestsRead(d, reader, s, rs, []);
    NothingToServe(d, reader, t);
    assert PrintAll(rs) + [] == S.Flat(chunks);
    assert s.(error := 0) == s;
    unread := Server.Serve(p, chunks, reader, d);
  }
}
