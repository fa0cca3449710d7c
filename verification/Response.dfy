/**
 The whole way of a response, from its first byte to its last: what a server sends is what the
 callbacks show. The parser is told to read responses, or finds it out.
 */
module Response {
  import opened Bytes
  import opened Graph
  import opened Machine
  import opened Strides
  import opened Walk
  import opened HeaderNames
  import opened HeaderValues
  import opened HeaderBlock
  import opened MessageEnd
  import opened Numbers
  import opened StatusLine
  import CL = ContentLength
  import TE = TransferEncoding
  import CO = Connection
  import Framing
  import Messages
  import Starts
  import P = Parser
  import Session

  datatype Response = Response(status: Status, end: End)

  function CodeOf(t: Status): nat
    requires SendableStatus(t)
  {
    Value(10, 0, DecimalDigits(t.code))
  }

  ghost predicate SendableResponse(r: Response) {
    SendableStatus(r.status) && SendableEnd(r.end, HTTP_RESPONSE, 0, CodeOf(r.status))
  }

  function Print(r: Response): seq<byte> {
    PrintStatus(r.status) + PrintEnd(r.end)
  }

  function Message(r: Response): Messages.Message {
    Messages.Message(ShownLine(r.status), AllShown(r.end.headers), ShownBody(r.end.body))
  }

  /** The start of a response: the method of a parser that has read no request is 0. */
  predicate AtStart(s: Core) {
    Ready(s) && (s.m.typ == HTTP_RESPONSE || s.m.typ == HTTP_BOTH) && s.m.verb == 0
  }

  /** A parser of both types that has begun to read a response reads responses from then on. */
  lemma TypeFound(d: Policy, s: Core, t: Status, rest: seq<byte>)
    requires AtStart(s) && Accepts(d)
    ensures Run(d, Config(s, PrintStatus(t) + rest)) == Run(d, Config(s.(m := s.m.(typ := HTTP_RESPONSE)), PrintStatus(t) + rest))
  {
    hide Run;
    if s.m.typ == HTTP_BOTH {
      var more := PrintStatus(t)[|W_HTTP|..] + rest;
      assert PrintStatus(t) + rest == W_HTTP + more;
      Starts.ReadsResponse(d, s, more);
    } else {
      assert s.(m := s.m.(typ := HTTP_RESPONSE)) == s;
    }
  }

  /** Behind the status line. */
  function Named(s: Core, t: Status): Core
    requires SendableStatus(t)
  {
    AfterStatus(Starts.Begun(s.(m := s.m.(typ := HTTP_RESPONSE))), t)
  }

  /** The status line, from the start of the message. */
  lemma StatusRead(d: Policy, s: Core, t: Status, rest: seq<byte>)
    requires AtStart(s) && Accepts(d) && SendableStatus(t)
    ensures Run(d, Config(s, PrintStatus(t) + rest)) == Run(d, Config(Named(s, t), rest))
    ensures AtHeaders(Named(s, t)) && Named(s, t).m.verb == 0 && Named(s, t).m.typ == HTTP_RESPONSE
  {
    hide Run, Value;
    var u := s.(m := s.m.(typ := HTTP_RESPONSE));
    TypeFound(d, s, t, rest);
    var more := PrintStatus(t)[1..] + rest;
    assert PrintStatus(t) + rest == [72] + more;
    Starts.Begins(d, u, 72, more);
    StatusLine.LineRead(d, Starts.Begun(u).(cur := START_RES), t, rest);
  }

  /**
   The round trip: the bytes of a response make exactly the callbacks that show it, the parser is
   back at the start of a message with nothing left behind, and what follows is not read.
   */
  lemma ResponseRead(d: Policy, s: Core, r: Response, rest: seq<byte>) returns (t: Core)
    requires AtStart(s) && Accepts(d) && SendableResponse(r)
    ensures AtStart(t) && t.m.typ == HTTP_RESPONSE && t.trace == s.trace + Messages.Show(Message(r))
    ensures Run(d, Config(s, Print(r) + rest)) == Run(d, Config(t, rest))
  {
    hide Run, Value, PrintStatus, PrintEnd, SendableStatus, SendableEnd, Ready;
    hide Messages.ShowLine, Messages.ShowFields, Messages.ShowContent, ShownBody, AllShown, ShownLine;
    assert Print(r) + rest == PrintStatus(r.status) + (PrintEnd(r.end) + rest);
    StatusRead(d, s, r.status, PrintEnd(r.end) + rest);
    t := EndRead(d, Named(s, r.status), r.end, rest);
    ShownWhole(s.trace, Message(r));
  }

  /** A response with both a length and a coding, in whatever order, is refused at the end of its header: it is not shown as complete, and its body is not read. */
  lemma LengthsRefused(d: Policy, s: Core, t: Status, hs: seq<Header>, eol: seq<byte>, rest: seq<byte>)
    requires AtStart(s) && Accepts(d) && SendableStatus(t) && AreLines(hs) && IsBlankEol(eol)
    requires FirstWrong(NOTHING_TOLD, hs) == 0 && !Coherent(TellAll(NOTHING_TOLD, hs))
    ensures var r := Run(d, Config(s, PrintStatus(t) + (PrintHeaders(hs) + eol + rest)));
      && r.s.error == HPE_UNEXPECTED_CONTENT_LENGTH && r.input == rest
      && r.s.trace == s.trace + [MessageBegin] + Messages.ShowLine(ShownLine(t)) + Messages.ShowFields(AllShown(hs))
  {
    hide Run, Value, PrintStatus, SendableStatus, FirstWrong, TellAll, AreLines, Messages.ShowLine, Messages.ShowFields, AllShown, Coherent;
    StatusRead(d, s, t, PrintHeaders(hs) + eol + rest);
    assert ToldBy(Named(s, t)) == NOTHING_TOLD;
    var h := BlockRead(d, Named(s, t), hs, eol, rest);
  }

  /** A header that names no body, with its empty line. */
  ghost predicate NamesNoBody(hs: seq<Header>, eol: seq<byte>) {
    var t := TellAll(NOTHING_TOLD, hs);
    && AreLines(hs) && IsBlankEol(eol) && FirstWrong(NOTHING_TOLD, hs) == 0
    && !t.flags.transferEncoding && !t.flags.chunked && !t.flags.contentLength
  }

  /** All that follows, as a body. */
  function UntilEnd(rest: seq<byte>): Messages.Content {
    if rest == [] then Messages.Nothing else Messages.Identity(rest)
  }

  /**
   A response that names no body. With Upgrade and Connection: upgrade and the status 101, and only
   then, it is the last of its protocol: the parser stops with HPE_PAUSED_UPGRADE, and not one of the
   later bytes is read. Otherwise it is complete when its status has no body, and else all that
   follows is its body.
   */
  lemma SwitchRead(d: Policy, s: Core, t: Status, hs: seq<Header>, eol: seq<byte>, rest: seq<byte>)
    requires AtStart(s) && Accepts(d) && SendableStatus(t) && NamesNoBody(hs, eol)
    ensures var r, f := Run(d, Config(s, PrintStatus(t) + (PrintHeaders(hs) + eol + rest))), TellAll(NOTHING_TOLD, hs).flags;
      var code := CodeOf(t);
      var trace := s.trace + [MessageBegin] + Messages.ShowLine(ShownLine(t)) + Messages.ShowFields(AllShown(hs)) + [HeadersComplete];
      if f.upgrade && f.connectionUpgrade && code == 101 then
        r.s.error == HPE_PAUSED_UPGRADE && r.s.trace == trace + [MessageComplete] && r.input == rest
      else if Framing.NeverHasBody(code) then
        exists u: Core :: AtStart(u) && u.trace == trace + [MessageComplete] && r == Run(d, Config(u, rest))
      else
        && r.s.error == 0 && r.input == [] && (r.s.cur == SPAN_START_BODY_2 || r.s.cur == EOF)
        && r.s.trace == trace + Messages.ShowContent(UntilEnd(rest))
  {
    hide Run, Value, PrintStatus, SendableStatus, FirstWrong, TellAll, AreLines, Messages.ShowLine, Messages.ShowFields, AllShown, PrintHeaders, IsBlank;
    var tail := eol + rest;
    var u := Named(s, t);
    StatusRead(d, s, t, PrintHeaders(hs) + eol + rest);
    assert PrintHeaders(hs) + eol + rest == PrintHeaders(hs) + ([tail[0]] + tail[1..]);
    assert ToldBy(u) == NOTHING_TOLD;
    EolIsNoValue(tail[0]);
    var h := HeadersRead(d, u, hs, tail[0], tail[1..]);
    assert [tail[0]] + tail[1..] == eol + rest;
    TellAllKeeps(NOTHING_TOLD, hs);
    var v := Behind(u, AllShown(hs), TellAll(NOTHING_TOLD, hs), h);
    EmptyLine(d, v, eol, rest);
    Framing.BodilessEnds(d, v.(cur := HEADERS_ALMOST_DONE), eol[|eol| - 1], rest);
    if !Framing.AsksForProtocol(v.m) && !Framing.NeverHasBody(v.m.status) {
      Framing.BodyUntilEnd(d, v.(cur := SPAN_START_BODY_2, trace := v.trace + [HeadersComplete],
        m := v.m.(upgrade := false, finish := FINISH_SAFE_WITH_CB)), rest);
    }
  }

  /** A header that names a coding that is not chunked, and no length, and does not ask for another protocol. */
  ghost predicate NamesCoding(code: nat, hs: seq<Header>, eol: seq<byte>) {
    var t := TellAll(NOTHING_TOLD, hs);
    && AreLines(hs) && IsBlankEol(eol) && FirstWrong(NOTHING_TOLD, hs) == 0
    && t.flags.transferEncoding && !t.flags.chunked && !t.flags.contentLength
    && !(t.flags.upgrade && t.flags.connectionUpgrade && code == 101)
  }

  /** All that follows such a header is the body, even of a status that has none. */
  lemma CodedRead(d: Policy, s: Core, t: Status, hs: seq<Header>, eol: seq<byte>, rest: seq<byte>)
    requires AtStart(s) && Accepts(d) && SendableStatus(t) && NamesCoding(CodeOf(t), hs, eol)
    ensures var r := Run(d, Config(s, PrintStatus(t) + (PrintHeaders(hs) + eol + rest)));
      var trace := s.trace + [MessageBegin] + Messages.ShowLine(ShownLine(t)) + Messages.ShowFields(AllShown(hs)) + [HeadersComplete];
      && r.s.error == 0 && r.input == [] && (r.s.cur == SPAN_START_BODY_2 || r.s.cur == EOF)
      && r.s.trace == trace + Messages.ShowContent(UntilEnd(rest))
  {
    hide Run, Value, PrintStatus, SendableStatus, FirstWrong, TellAll, AreLines, Messages.ShowLine, Messages.ShowFields, AllShown, PrintHeaders, IsBlank;
    var tail := eol + rest;
    var u := Named(s, t);
    StatusRead(d, s, t, PrintHeaders(hs) + eol + rest);
    assert PrintHeaders(hs) + eol + rest == PrintHeaders(hs) + ([tail[0]] + tail[1..]);
    assert ToldBy(u) == NOTHING_TOLD;
    EolIsNoValue(tail[0]);
    var h := HeadersRead(d, u, hs, tail[0], tail[1..]);
    assert [tail[0]] + tail[1..] == eol + rest;
    TellAllKeeps(NOTHING_TOLD, hs);
    var v := Behind(u, AllShown(hs), TellAll(NOTHING_TOLD, hs), h);
    EmptyLine(d, v, eol, rest);
    Framing.CodedEnds(d, v.(cur := HEADERS_ALMOST_DONE), eol[|eol| - 1], rest);
    Framing.BodyUntilEnd(d, v.(cur := SPAN_START_BODY_2, trace := v.trace + [HeadersComplete],
      m := v.m.(upgrade := false, finish := FINISH_SAFE_WITH_CB)), rest);
  }

  function PrintAll(rs: seq<Response>): seq<byte> {
    if rs == [] then [] else Print(rs[0]) + PrintAll(rs[1..])
  }

  function AllMessages(rs: seq<Response>): seq<Messages.Message> {
    seq(|rs|, i requires 0 <= i < |rs| => Message(rs[i]))
  }

  /** Any number of responses, one after another. */
  lemma {:induction false} ResponsesRead(d: Policy, s: Core, rs: seq<Response>, rest: seq<byte>) returns (t: Core)
    requires AtStart(s) && Accepts(d) && forall i :: 0 <= i < |rs| ==> SendableResponse(rs[i])
    ensures AtStart(t) && t.trace == s.trace + Messages.ShowAll(AllMessages(rs))
    ensures Run(d, Config(s, PrintAll(rs) + rest)) == Run(d, Config(t, rest))
    decreases |rs|
  {
    hide Run, Print, Message, AllMessages, Messages.Show, SendableResponse, Ready;
    if rs == [] {
      t := s;
      assert PrintAll(rs) + rest == rest;
      assert AllMessages(rs) == [] by { NoMessages(); }
      assert s.trace + Messages.ShowAll(AllMessages(rs)) == s.trace;
    } else {
      assert PrintAll(rs) + rest == Print(rs[0]) + (PrintAll(rs[1..]) + rest);
      var u := ResponseRead(d, s, rs[0], PrintAll(rs[1..]) + rest);
      t := ResponsesRead(d, u, rs[1..], rest);
      ShowFirst(rs);
      assert u.trace + Messages.ShowAll(AllMessages(rs[1..])) == s.trace + Messages.ShowAll(AllMessages(rs));
    }
  }

  lemma NoMessages()
    ensures AllMessages([]) == []
  {
  }

  lemma ShowFirst(rs: seq<Response>)
    requires rs != []
    ensures Messages.ShowAll(AllMessages(rs)) == Messages.Show(Message(rs[0])) + Messages.ShowAll(AllMessages(rs[1..]))
  {
    hide Message, Messages.Show;
    assert AllMessages(rs)[1..] == AllMessages(rs[1..]);
  }

  lemma NothingToRead(d: Policy, s: Core)
    requires AtStart(s)
    ensures Run(d, Config(s, [])) == Config(s, [])
  {
  }

  /**
   All of it together: responses arrive at the parser in any chunks, the user pauses at any
   callback and as often as is liked, and what was reported in the end shows these responses.
   */
  method Receive(p: P.Parser, rs: seq<Response>, chunks: seq<seq<byte>>, ghost d: Policy) returns (unread: seq<byte>)
    requires p.Valid() && AtStart(p.View()) && P.Obeys(p.answer, d) && Accepts(d)
    requires forall i :: 0 <= i < |rs| ==> SendableResponse(rs[i])
    requires chunks != [] && Session.Flat(chunks) == PrintAll(rs)
    modifies p
    ensures p.Valid() && (p.error == 0 || p.error == HPE_PAUSED || p.Refused())
    ensures p.error == 0 ==> unread == [] && AtStart(p.View())
    ensures p.error == 0 ==> Glue(p.calls) == old(Glue(p.calls)) + Messages.ShowAll(AllMessages(rs))
  {
    hide Run, P.Parser.Valid, P.Obeys, SendableResponse, PrintAll, Messages.ShowAll;
    ghost var s := p.View();
    ghost var t := ResponsesRead(d, s, rs, []);
    NothingToRead(d, t);
    assert PrintAll(rs) + [] == Session.Flat(chunks);
    assert s.(error := 0) == s;
    unread := Session.Feed(p, chunks, d);
  }

  const CRLF: seq<byte> := [CR, LF]

  // HTTP/1.1 204, with Content-Length: 1, and x.
  const LENGTH_ONE := Header([67, 111, 110, 116, 101, 110, 116, 45, 76, 101, 110, 103, 116, 104], [SP], [49], CRLF)
  const NO_CONTENT := Response(Status(49, 49, [50, 48, 52], Some([]), CRLF), End([LENGTH_ONE], CRLF, Sized([120])))

  /** A response without content, as its code says, is shown with a body all the same. */
  lemma NoContentHasBody(d: Policy, rest: seq<byte>) returns (t: Core)
    requires Accepts(d)
    ensures Framing.NeverHasBody(Value(10, 0, DecimalDigits(NO_CONTENT.status.code)))
    ensures AtStart(t) && |t.trace| >= 3 && t.trace[|t.trace| - 3..] == [HeadersComplete, Piece(OnBody, [120]), MessageComplete]
    ensures Run(d, Config(Fresh(HTTP_RESPONSE), Print(NO_CONTENT) + rest)) == Run(d, Config(t, rest))
  {
    hide Run, Print, SendableResponse;
    NoContentIsSendable();
    t := ResponseRead(d, Fresh(HTTP_RESPONSE), NO_CONTENT, rest);
  }

  lemma LengthOneNames(name: seq<byte>)
    requires name == LENGTH_ONE.name
    ensures NameCode(name) == 2
  {
    assert CONTENT_LENGTH == [99, 111, 110, 116, 101, 110, 116, 45, 108, 101, 110, 103, 116, 104];
    assert CONNECTION[3] == 110 && Lower(name[3]) == 116;
    assert PROXY_CONNECTION[0] == 112 && Lower(name[0]) == 99;
    assert Names(name, CONTENT_LENGTH);
  }

  lemma LengthOneIsLength()
    ensures CL.IsLength([49]) && CL.Shown([49]) == 1
  {
    assert CL.Digits([49]) == 1;
    assert [49][..1] == [49] && DecimalDigits([49]) == [1] && [1][..0] == [];
  }

  lemma LengthOneIsLine(name: seq<byte>)
    requires name == LENGTH_ONE.name
    ensures AllNameBytes(name) && COLON !in name && IsLine(LENGTH_ONE)
  {
    assert AllNameBytes(name);
    assert COLON !in name;
  }

  lemma LengthOneTells()
    ensures IsLine(LENGTH_ONE) && Wrong(NOTHING_TOLD, LENGTH_ONE) == 0
    ensures Tell(NOTHING_TOLD, LENGTH_ONE) == Told(NO_FLAGS.(contentLength := true), 1)
  {
    hide NameCode, CL.IsLength, CL.Shown, AllValueBytes, AllNameBytes, IsLine, TE.IsChunked, CO.WithOptions;
    LengthOneIsLine(LENGTH_ONE.name);
    LengthOneNames(LENGTH_ONE.name);
    LengthOneIsLength();
  }

  lemma NoContentIsSendable()
    ensures SendableResponse(NO_CONTENT) && Value(10, 0, DecimalDigits(NO_CONTENT.status.code)) == 204
  {
    hide IsLine, Wrong, Tell;
    assert DecimalDigits([50, 48, 52]) == [2, 0, 4];
    assert Value(10, 0, [2, 0, 4]) == 204 by {
      assert [2, 0, 4][..2] == [2, 0] && [2, 0][..1] == [2] && [2][..0] == [];
    }
    LengthOneTells();
    assert [LENGTH_ONE][1..] == [];
    var t := Told(NO_FLAGS.(contentLength := true), 1);
    assert FirstWrong(t, []) == 0 && TellAll(t, []) == t;
  }
}
