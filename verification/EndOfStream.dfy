/**
 What llhttp_finish makes of parsers that have read whole messages: after a pause behind the last
 message, and after an upgrade, it reports an unfinished one. And what comes of a parser that is
 used again after the end of the stream.
 */
module EndOfStream {
  import opened Bytes
  import opened Graph
  import opened Machine
  import opened Soundness
  import opened Strides
  import opened Walk
  import Chunked
  import Framing
  import Grammar
  import Messages
  import Starts
  import HeaderBlock
  import Numbers
  import Response
  import Session
  import StatusLine
  import P = Parser

  /** A callback without data is the last of the glued callbacks only when it is the last. */
  lemma LastCall(raw: seq<Event>)
    requires Glue(raw) != [] && !Glue(raw)[|Glue(raw)| - 1].Piece?
    ensures raw != [] && raw[|raw| - 1] == Glue(raw)[|Glue(raw)| - 1]
  {
  }

  /** Only the stop behind a message gives HPE_PAUSED_UPGRADE. */
  lemma {:induction false} UpgradeStop(d: Policy, k: Config)
    requires k.s.error != HPE_PAUSED_UPGRADE || k.s.cur == INVOKE_AFTER_MESSAGE_COMPLETE
    ensures Run(d, k).s.error == HPE_PAUSED_UPGRADE ==> Run(d, k).s.cur == INVOKE_AFTER_MESSAGE_COMPLETE
    decreases |k.input|, k.s.cur
  {
    if !Halted(k) {
      TickDescends(d, k);
      UpgradeTick(d, k);
      hide Tick;
      UpgradeStop(d, Tick(d, k));
    }
  }

  lemma UpgradeTick(d: Policy, k: Config)
    requires !Halted(k)
    ensures var s := Tick(d, k).s; s.error == HPE_PAUSED_UPGRADE ==> s.cur == INVOKE_AFTER_MESSAGE_COMPLETE
  {
    hide Branch, Goto, Update, Route, EventOf, NextOf, MissOf, WordOf, FoldOf, KindOf, Skips, AfterDigit, TakeDigit, Add;
  }

  /** Behind a message and not yet at the start of the next, all messages are whole. */
  lemma DoneShows(s: Core)
    requires Grammar.Fits(s) && Grammar.Place(s.cur) == Grammar.DONE
    ensures Messages.Shows(s.trace)
  {
    hide Grammar.PhaseOf, Messages.Shows;
    Messages.WholeMessages(s.trace);
  }

  lemma FitsWithoutError(s: Core, e: int)
    ensures Grammar.Fits(s.(error := e)) <==> Grammar.Fits(s)
  {
  }

  lemma StopIsDone(s: Core)
    ensures s.cur == INVOKE_AFTER_MESSAGE_COMPLETE ==> Grammar.Place(s.cur) == Grammar.DONE
  {
  }

  /** Behind a message the machine does not wait. */
  lemma DoneIsNoHalt(k: Config)
    requires Halted(k) && k.s.error == 0
    ensures Grammar.Place(k.s.cur) != Grammar.DONE
  {
  }

  /**
   Right after an execution that returned no error, the end of the stream is told exactly: nothing
   when all messages are whole, the end of the message in a body that lasts until here, and an
   invalid state inside any other message.
   */
  method FinishAfterExecute(p: P.Parser, data: seq<byte>, ghost d: Policy) returns (seen: seq<Event>, end: int)
    requires p.Stable() && p.error == 0 && Grammar.Fits(p.Shown()) && P.Obeys(p.answer, d)
    modifies p
    ensures p.error == 0 && Messages.Shows(Glue(seen)) ==> end == 0 && p.calls == seen
    ensures p.error == 0 && !Messages.Shows(Glue(seen)) ==>
      if p.cur == SPAN_START_BODY_2 || p.cur == EOF
      then p.calls == seen + [MessageComplete] && Messages.Shows(Glue(p.calls))
      else end == HPE_INVALID_EOF_STATE && p.calls == seen
  {
    hide Run, Gain, Glue, P.Parser.Valid, P.Parser.Stable, P.Parser.Shown, P.Parser.Heeds, P.Parser.Resumes, Grammar.Fits, Grammar.Place, Messages.Shows, P.Obeys;
    ghost var k := Config(p.Shown(), data);
    var err, read := p.Execute(data, d);
    seen := p.calls;
    if err == 0 { DoneIsNoHalt(Run(d, k)); }
    end := p.Finish();
  }

  /**
   A user who pauses at the end of a message, and resumes: all messages reported are whole, and the
   end of the stream is an invalid state all the same.
   */
  method FinishAfterPause(p: P.Parser, data: seq<byte>, ghost d: Policy) returns (paused: bool, end: int)
    requires p.Stable() && p.error == 0 && Grammar.Fits(p.Shown()) && P.Obeys(p.answer, d)
    modifies p
    ensures paused ==> p.calls != [] && p.calls[|p.calls| - 1] == MessageComplete && p.answer(p.calls) == HPE_PAUSED
    ensures paused ==> Messages.Shows(Glue(p.calls)) && end == HPE_INVALID_EOF_STATE
    ensures !paused ==> p.error != HPE_PAUSED || p.calls == [] || p.calls[|p.calls| - 1] != MessageComplete
  {
    hide Run, Gain, Glue, P.Parser.Valid, P.Parser.Stable, P.Parser.Shown, P.Parser.Heeds, P.Parser.Resumes, Grammar.Fits, Grammar.Place, Messages.Shows, P.Obeys;
    var err, read := p.Execute(data, d);
    paused := err == HPE_PAUSED && p.calls != [] && p.calls[|p.calls| - 1] == MessageComplete;
    end := 0;
    if paused {
      FitsWithoutError(p.View(), 0);
      p.Resume();
      DoneShows(p.View());
      end := p.Finish();
    }
  }

  /** A user who resumes after an upgrade. */
  method FinishAfterUpgrade(p: P.Parser, data: seq<byte>, ghost d: Policy) returns (upgraded: bool, end: int)
    requires p.Stable() && p.error == 0 && Grammar.Fits(p.Shown()) && P.Obeys(p.answer, d)
    requires forall t: seq<Event> :: p.answer(t) != HPE_PAUSED_UPGRADE
    modifies p
    ensures upgraded ==> Messages.Shows(Glue(p.calls)) && end == HPE_INVALID_EOF_STATE
    ensures !upgraded ==> p.error != HPE_PAUSED_UPGRADE
  {
    hide Run, Gain, Glue, P.Parser.Valid, P.Parser.Stable, P.Parser.Shown, P.Parser.Heeds, P.Parser.Resumes, Grammar.Fits, Grammar.Place, Messages.Shows, P.Obeys;
    ShownKeepsError(p);
    UpgradeStop(d, Config(p.Shown(), data));
    var err, read := p.Execute(data, d);
    upgraded := err == HPE_PAUSED_UPGRADE;
    end := 0;
    if upgraded {
      AtKeepsNode(p, data, read);
      FitsWithoutError(p.View(), 0);
      StopIsDone(p.View());
      p.ResumeAfterUpgrade();
      DoneShows(p.View());
      end := p.Finish();
    }
  }

  lemma ShownKeepsError(p: P.Parser)
    ensures p.Shown().error == p.error
  {
  }

  lemma AtKeepsNode(p: P.Parser, data: seq<byte>, q: nat)
    requires q <= |data| && (p.span.Some? ==> p.spanPos <= q)
    ensures p.At(data, q).s.cur == p.cur && p.At(data, q).s.error == p.error
  {
  }

  /** It happens: with every response, to a user who pauses at the end of messages. */
  method ResponsePaused(p: P.Parser, r: Response.Response, ghost d: Policy) returns (end: int)
    requires p.Valid() && Response.AtStart(p.View()) && Grammar.Fits(p.View())
    requires Accepts(d) && Response.SendableResponse(r)
    requires forall t: seq<Event> {:trigger p.answer(t)} :: t != [] ==>
      p.answer(t) == if t[|t| - 1] == MessageComplete then HPE_PAUSED else 0
    modifies p
    ensures Messages.Shows(Glue(p.calls)) && old(p.calls) < p.calls && end == HPE_INVALID_EOF_STATE
  {
    hide Run, Gain, Glue, P.Parser.Stable, P.Parser.Shown, P.Parser.Resumes, P.Parser.Heeds, P.Parser.Valid, Grammar.Fits, Grammar.Place, Messages.Show, Messages.Shows, Response.Print, Response.SendableResponse;
    ghost var s := p.View();
    p.ShownIsView();
    PausesObey(p.answer, d);
    var data := Response.Print(r);
    ghost var t := Response.ResponseRead(d, s, r, []);
    assert data + [] == data;
    Response.NothingToRead(d, t);
    var err, read := p.Execute(data, d);
    if err == 0 {
      MessageIsNew(old(p.calls), p.calls, Response.Message(r));
      RefusedIsError(p, |old(p.calls)|);
    }
    AtKeepsNode(p, data, read);
    FitsWithoutError(p.View(), 0);
    p.Resume();
    DoneShows(p.View());
    end := p.Finish();
  }

  /** A response that names no body, or a coding that is not chunked, as it is sent; what follows its header is its body. */
  datatype Lasting = Lasting(status: StatusLine.Status, headers: seq<HeaderBlock.Header>, eol: seq<byte>, body: seq<byte>)

  ghost predicate SendableLasting(r: Lasting) {
    && StatusLine.SendableStatus(r.status)
    && var code := Response.CodeOf(r.status);
       (Response.NamesNoBody(r.headers, r.eol) && !Framing.NeverHasBody(code)) || Response.NamesCoding(code, r.headers, r.eol)
  }

  function PrintLasting(r: Lasting): seq<byte> {
    StatusLine.PrintStatus(r.status) + (HeaderBlock.PrintHeaders(r.headers) + r.eol + r.body)
  }

  function LastingMessage(r: Lasting): Messages.Message {
    Messages.Message(StatusLine.ShownLine(r.status), HeaderBlock.AllShown(r.headers), Response.UntilEnd(r.body))
  }

  lemma LastingShown(t: seq<Event>, r: Lasting)
    ensures Add(t + [MessageBegin] + Messages.ShowLine(StatusLine.ShownLine(r.status)) + Messages.ShowFields(HeaderBlock.AllShown(r.headers)) +
      [HeadersComplete] + Messages.ShowContent(Response.UntilEnd(r.body)), MessageComplete) == t + Messages.Show(LastingMessage(r))
  {
  }

  /** All of it is read, and what the end of the stream adds makes the message whole. */
  lemma LastingRead(d: Policy, s: Core, r: Lasting)
    requires Response.AtStart(s) && Accepts(d) && SendableLasting(r)
    ensures var k := Run(d, Config(s, PrintLasting(r)));
      && k.s.error == 0 && k.input == [] && (k.s.cur == SPAN_START_BODY_2 || k.s.cur == EOF)
      && Add(k.s.trace, MessageComplete) == s.trace + Messages.Show(LastingMessage(r))
  {
    hide Run, Response.NamesNoBody, Response.NamesCoding, StatusLine.SendableStatus, Numbers.Value, Response.AtStart, StatusLine.PrintStatus;
    hide Messages.ShowLine, Messages.ShowFields, Messages.ShowContent, HeaderBlock.PrintHeaders, HeaderBlock.AllShown, StatusLine.ShownLine;
    hide Messages.Show, LastingMessage, Response.UntilEnd, Add;
    LastingShown(s.trace, r);
    if Response.NamesCoding(Response.CodeOf(r.status), r.headers, r.eol) {
      Response.CodedRead(d, s, r.status, r.headers, r.eol, r.body);
    } else {
      Response.SwitchRead(d, s, r.status, r.headers, r.eol, r.body);
    }
  }

  /**
   A response whose body lasts until the end of the stream: it arrives in any chunks, the user pauses
   as often as is liked, the end of the stream is told, and what was reported shows this response.
   */
  method ResponseToEnd(p: P.Parser, r: Lasting, chunks: seq<seq<byte>>, ghost d: Policy) returns (unread: seq<byte>, end: int)
    requires p.Valid() && Response.AtStart(p.View()) && P.Obeys(p.answer, d) && Accepts(d)
    requires SendableLasting(r) && chunks != [] && Session.Flat(chunks) == PrintLasting(r)
    modifies p
    ensures old(p.calls) <= p.calls && (p.error == 0 || p.error == HPE_PAUSED || p.Refused())
    ensures p.error == 0 ==> unread == [] && p.calls != [] && end == p.answer(p.calls)
    ensures p.error == 0 ==> Glue(p.calls) == old(Glue(p.calls)) + Messages.Show(LastingMessage(r))
  {
    hide Run, Glue, Add, P.Parser.Valid, P.Parser.Stable, P.Obeys, P.Parser.Refused, SendableLasting, PrintLasting, LastingMessage;
    hide Messages.Show, Messages.Shows, Grammar.Fits, Grammar.Place;
    ghost var s := p.View();
    assert s.(error := 0) == s;
    LastingRead(d, s, r);
    unread := Session.Feed(p, chunks, d);
    if p.error != 0 { return unread, 0; }
    p.ValidIsStable();
    GlueSnoc(p.calls, MessageComplete);
    end := p.Finish();
  }

  lemma LastOfSum(z: seq<Event>, x: seq<Event>, y: seq<Event>, e: Event)
    requires z == x + y && y != [] && y[|y| - 1] == e
    ensures z != [] && z != x && z[|z| - 1] == e
  {
    assert |z| == |x| + |y|;
  }

  lemma GlueGrows(before: seq<Event>, calls: seq<Event>)
    requires before <= calls && Glue(before) != Glue(calls)
    ensures |before| < |calls|
  {
    hide Glue;
    assert before == calls[..|before|] && calls == calls[..|calls|];
  }

  lemma EndIsLast(before: seq<Event>, calls: seq<Event>, m: Messages.Message)
    requires Glue(calls) == Glue(before) + Messages.Show(m)
    ensures calls != [] && calls[|calls| - 1] == MessageComplete && Glue(before) != Glue(calls)
  {
    hide Glue, Messages.Show;
    ShowEnds(m);
    LastOfSum(Glue(calls), Glue(before), Messages.Show(m), MessageComplete);
    LastCall(calls);
  }

  /** When one more message is shown, its end was the last of new callbacks. */
  lemma MessageIsNew(before: seq<Event>, calls: seq<Event>, m: Messages.Message)
    requires before <= calls && Glue(calls) == Glue(before) + Messages.Show(m)
    ensures |before| < |calls| && calls[|calls| - 1] == MessageComplete
  {
    hide Glue, Messages.Show;
    EndIsLast(before, calls, m);
    GlueGrows(before, calls);
  }

  lemma RefusedIsError(p: P.Parser, n: nat)
    requires n < |p.calls| && p.Heeds(n) && p.Refuses(p.calls)
    ensures p.error != 0
  {
    assert p.calls[..|p.calls|] == p.calls;
  }

  lemma PausesObey(answer: seq<Event> -> int, d: Policy)
    requires Accepts(d) && forall t: seq<Event> {:trigger answer(t)} :: t != [] ==> answer(t) == 0 || answer(t) == HPE_PAUSED
    ensures P.Obeys(answer, d)
  {
  }

  lemma ShowEnds(m: Messages.Message)
    ensures var t := Messages.Show(m); t != [] && t[|t| - 1] == MessageComplete
  {
  }

  /** A CONNECT without headers stops behind its empty line. */
  lemma ConnectRun(d: Policy, s: Core)
    requires s.cur == HEADER_FIELD_START && s.error == 0 && s.span == None && Accepts(d)
    requires s.m.verb == HTTP_CONNECT && s.m.flags == NO_FLAGS
    ensures Run(d, Config(s, [CR, LF])) == Config(s.(cur := INVOKE_AFTER_MESSAGE_COMPLETE, error := HPE_PAUSED_UPGRADE,
      trace := s.trace + [HeadersComplete] + [MessageComplete], m := s.m.(upgrade := true)), [])
  {
    hide Run, ShapeOf, Branch;
    var t := s.(cur := HEADERS_ALMOST_DONE);
    assert [CR, LF] == [CR] + [LF] && [LF] == [LF] + [];
    Chunked.EndShape(HEADER_FIELD_START);
    Chunked.EndEdges(CR, s.m);
    StepSwitch(d, s, CR, [LF]);
    assert Framing.AtChoice(t, 0) == s.m.(upgrade := true);
    Framing.UpgradeExit(d, t, LF, []);
  }

  /** What an execution comes to when the user never refuses. */
  lemma Unhindered(p: P.Parser, data: seq<byte>, read: nat, d: Policy, k: Config)
    requires read <= |data| && (p.error != 0 ==> (p.span.Some? ==> p.spanPos <= read) && p.Settled(data, read, d, k))
    requires p.error == 0 ==> Config(p.View(), data[read..]) == Run(d, k)
    requires forall t: seq<Event> {:trigger p.answer(t)} :: t != [] ==> p.answer(t) == 0
    ensures p.error == Run(d, k).s.error && data[read..] == Run(d, k).input && (p.span == None ==> p.View() == Run(d, k).s)
    ensures p.span == Run(d, k).s.span
  {
    hide Run;
  }

  /** A fresh parser of requests that waits for a request line, and one that has read a CONNECT. */
  function Asked(): Core {
    var s := Fresh(HTTP_REQUEST);
    s.(cur := START_REQ, trace := [MessageBegin], m := s.m.(finish := FINISH_UNSAFE))
  }

  function Connecting(url: seq<byte>): Core {
    var s := Asked();
    s.(cur := HEADER_FIELD_START, trace := [MessageBegin] + [Piece(OnUrl, url)] + [UrlComplete],
       m := s.m.(verb := HTTP_CONNECT, major := 1, minor := 1))
  }

  lemma AskedRun(d: Policy, url: seq<byte>)
    requires Accepts(d)
    ensures Run(d, Config(Fresh(HTTP_REQUEST), [67])) == Config(Asked(), [67])
    ensures AtRequestLine(Asked()) && AfterRequestLine(Asked(), HTTP_CONNECT, 1, 1, url) == Connecting(url)
  {
    hide Run;
    Starts.RequestBegins(d, Fresh(HTTP_REQUEST), 67, []);
    assert [67] + [] == [67] && [] + [MessageBegin] == [MessageBegin];
  }

  /** A request has begun, and its line is a CONNECT. */
  method Connect(p: P.Parser, url: seq<byte>, ghost d: Policy)
    requires p.Valid() && p.View() == Fresh(HTTP_REQUEST) && Accepts(d)
    requires forall t: seq<Event> {:trigger p.answer(t)} :: t != [] ==> p.answer(t) == 0
    modifies p
    ensures p.Valid() && Grammar.Fits(p.View()) && p.View() == Connecting(url)
  {
    hide Run, Gain, Glue, P.Parser.Settled, P.Parser.Stable, P.Parser.Shown, P.Parser.Heeds, P.Parser.Valid, P.Parser.Resumes;
    hide Grammar.Fits, Grammar.Place, Messages.Shows, P.Obeys, Connecting, AfterRequestLine, Accepts, Add;
    PausesObey(p.answer, d);
    ghost var s := Fresh(HTTP_REQUEST);
    p.ShownIsView();
    FreshFits(s);
    AskedRun(d, url);
    var err, read := p.Execute([67], d);
    Unhindered(p, [67], read, d, Config(s, [67]));
    Messages.RequestLineFits(p.View(), HTTP_CONNECT, 1, 1, url);
    p.RequestLine(HTTP_CONNECT, 1, 1, url);
  }

  /** It happens: with every CONNECT without headers. */
  method ConnectUpgraded(p: P.Parser, url: seq<byte>, ghost d: Policy) returns (end: int)
    requires p.Valid() && p.View() == Fresh(HTTP_REQUEST) && Accepts(d)
    requires forall t: seq<Event> {:trigger p.answer(t)} :: t != [] ==> p.answer(t) == 0
    modifies p
    ensures Glue(p.calls) == [MessageBegin] + [Piece(OnUrl, url)] + [UrlComplete] + [HeadersComplete] + [MessageComplete]
    ensures Messages.Shows(Glue(p.calls)) && end == HPE_INVALID_EOF_STATE
  {
    hide Run, Gain, Glue, P.Parser.Settled, P.Parser.Stable, P.Parser.Shown, P.Parser.Heeds, P.Parser.Valid, P.Parser.Resumes;
    hide Grammar.Fits, Grammar.Place, Messages.Shows, P.Obeys;
    PausesObey(p.answer, d);
    Connect(p, url, d);
    p.ShownIsView();
    ConnectRun(d, p.View());
    ghost var k := Config(p.View(), [CR, LF]);
    var err, read := p.Execute([CR, LF], d);
    Unhindered(p, [CR, LF], read, d, k);
    FitsWithoutError(p.View(), 0);
    StopIsDone(p.View());
    p.ResumeAfterUpgrade();
    DoneShows(p.View());
    end := p.Finish();
  }

  lemma FreshFits(s: Core)
    requires s == Fresh(HTTP_REQUEST)
    ensures Grammar.Fits(s)
  {
  }

  /** At the end of a stream that was the end of a body: the message ends once more with every call. */
  method FinishTwice(p: P.Parser) returns (first: int, second: int)
    requires p.Stable() && p.error == 0 && Grammar.Fits(p.View()) && (p.cur == SPAN_START_BODY_2 || p.cur == EOF)
    modifies p`calls
    ensures p.calls == old(p.calls) + [MessageComplete, MessageComplete]
    ensures Messages.Shows(Glue(p.calls[..|p.calls| - 1])) && !Messages.Begins(Glue(p.calls))
  {
    hide Glue, Placed, Grammar.Fits, Grammar.Place, Grammar.PhaseOf, Messages.Shows, Messages.Begins, Add;
    ghost var s := p.View();
    P.Parser.EndOfStream(s);
    first := p.Finish();
    ghost var calls := p.calls;
    second := p.Finish();
    GlueSnoc(calls, MessageComplete);
    Grammar.PhaseAdd(Glue(calls), MessageComplete);
    Messages.WholeMessages(Glue(calls));
    Messages.Prefixes(Glue(p.calls));
    assert p.calls[..|p.calls| - 1] == calls;
  }

  /** A parser that goes on after the end of the stream reports the bytes as a body without a message. */
  method ExecuteAfterFinish(p: P.Parser, data: seq<byte>, ghost d: Policy) returns (err: int)
    requires p.Stable() && p.error == 0 && Grammar.Fits(p.View()) && p.cur == EOF
    requires Accepts(d) && forall t: seq<Event> {:trigger p.answer(t)} :: t != [] ==> p.answer(t) == 0
    modifies p
    ensures err == 0 && Glue(p.calls) == old(Glue(p.calls)) + [MessageComplete, Piece(OnBody, data)]
    ensures !Messages.Begins(Glue(p.calls))
  {
    hide Run, Glue, Grammar.Fits, Grammar.Place, Grammar.PhaseOf, Messages.Shows, Messages.Begins, P.Parser.Resumes, P.Parser.Heeds, P.Parser.Valid;
    ghost var trace := Glue(p.calls);
    P.Parser.EndOfStream(p.View());
    EofSpan(p);
    GlueSnoc(p.calls, MessageComplete);
    err := p.Finish();
    Messages.WholeMessages(Glue(p.calls));
    PausesObey(p.answer, d);
    ghost var s := p.Shown();
    Framing.BodyTakesAll(d, s, data);
    AddPieces(Glue(p.calls), OnBody, [], data);
    assert [] + data == data;
    var read;
    err, read := p.Execute(data, d);
    if err != 0 {
      AtKeepsNode(p, data, read);
      assert false;
    }
    Grammar.PhaseAdd(trace + [MessageComplete], Piece(OnBody, data));
    Messages.Prefixes(Glue(p.calls));
  }

  lemma EofSpan(p: P.Parser)
    requires p.Stable() && p.cur == EOF
    ensures p.span == Some(OnBody)
  {
  }
}
