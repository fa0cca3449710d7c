/** How the body of a message is delimited, beside the list of section 3.3.3 of RFC 7230. */
module Framing {
  import opened Bytes
  import opened Graph
  import opened Machine
  import opened Strides
  import opened Walk

  datatype Body = NoBody | Chunked | Sized(length: nat) | UntilClose | Rejected | Tunnel

  /** What a choice of the parser means for the bytes that follow. */
  function Meaning(n: Node, length: nat): Body {
    match n
    case INVOKE_UPDATE_CONTENT_LENGTH => Chunked
    case SPAN_START_BODY_1 => Sized(length)
    case INVOKE_UPDATE_FINISH_2 => UntilClose
    case FAIL_INVALID_TRANSFER_ENCODING => Rejected
    case ON_MESSAGE_COMPLETE_1 => Tunnel
    case _ => NoBody
  }

  predicate NeverHasBody(status: nat) {
    status / 100 == 1 || status == 204 || status == 304
  }

  /** The list of the standard: response codes without a body first, then Transfer-Encoding, then Content-Length. */
  function Standard(m: Fields): Body {
    if m.flags.skipBody || (m.typ == HTTP_RESPONSE && NeverHasBody(m.status)) then NoBody
    else if m.flags.transferEncoding then
      if m.flags.chunked then Chunked else if m.typ == HTTP_REQUEST then Rejected else UntilClose
    else if m.flags.contentLength then
      if m.length == 0 then NoBody else Sized(m.length)
    else if m.typ == HTTP_REQUEST then NoBody
    else UntilClose
  }

  /** What holds of the fields when the header of a message is complete (`HeaderEndIsDone`). */
  predicate HeaderDone(m: Fields) {
    (m.typ == HTTP_REQUEST || m.typ == HTTP_RESPONSE) && (m.flags.chunked ==> m.flags.transferEncoding)
  }

  /**
   Without an upgrade and without lenience the parser decides as the standard does, but for one
   family: a 1xx, 204 or 304 response that names a coding or a length is given a body all the same.
   */
  lemma DecidesAsStandard(m: Fields)
    requires HeaderDone(m) && !m.upgrade && !m.lenientLength
    ensures Meaning(BodyDecision(m), m.length) == Standard(m) <==>
      !(m.typ == HTTP_RESPONSE && NeverHasBody(m.status) && !m.flags.skipBody &&
        (m.flags.transferEncoding || (m.flags.contentLength && m.length > 0)))
  {
  }

  /** `llhttp_message_needs_eof` tells the messages whose body lasts until the end of the stream. */
  lemma NeedsEof(m: Fields)
    requires HeaderDone(m)
    ensures MessageNeedsEof(m) <==> Standard(m) == UntilClose
  {
  }

  /** With an upgrade, what would be no body is the other protocol. */
  function Wanted(m: Fields): Body {
    if m.upgrade && Standard(m) == NoBody then Tunnel else Standard(m)
  }

  /** Nothing follows the header but the other protocol. */
  predicate Tunnels(m: Fields) {
    m.upgrade && (m.verb == HTTP_CONNECT || m.flags.skipBody || !(m.flags.chunked || m.length > 0))
  }

  /** The header tells of a body, be it one that lasts until the end of the stream. */
  predicate Announces(m: Fields) {
    m.flags.transferEncoding || (m.flags.contentLength && m.length > 0) || (m.typ == HTTP_RESPONSE && !m.flags.contentLength)
  }

  /** Where the choice at an upgrade is that of the standard. */
  predicate UpgradeFits(m: Fields) {
    if m.flags.skipBody then true
    else if m.typ == HTTP_REQUEST && m.verb == HTTP_CONNECT then !m.flags.transferEncoding && (!m.flags.contentLength || m.length == 0)
    else if m.typ == HTTP_REQUEST && (m.flags.chunked || m.length > 0) then m.flags.transferEncoding || m.flags.contentLength
    else if m.typ == HTTP_REQUEST then !m.flags.transferEncoding
    else if NeverHasBody(m.status) then Tunnels(m)
    else Tunnels(m) <==> !Announces(m)
  }

  /**
   With an upgrade the parser decides as the standard does, but for these: a CONNECT that announces
   a body; another request with a coding that is not chunked and no body, or with a length that an
   earlier message left behind; a 101 response that announces a body; and a response to another
   status that is taken for an upgrade and announces a body, or is not and announces nothing.
   */
  lemma UpgradesAsStandard(m: Fields)
    requires HeaderDone(m) && m.upgrade && !m.lenientLength
    ensures Meaning(BodyDecision(m), m.length) == Wanted(m) <==> UpgradeFits(m)
  {
  }

  /** What the answer to on_headers_complete makes of the fields. */
  function Answered(m: Fields, answer: int): Fields {
    if answer == 1 then m.(flags := m.flags.(skipBody := true))
    else if answer == 2 then m.(upgrade := true, flags := m.flags.(skipBody := true))
    else m
  }

  lemma EndNodes(n: Node, c: byte, m: Fields)
    ensures n == HEADERS_ALMOST_DONE ==> ShapeOf(n).Switch? && Branch(n, c) == Turn(INVOKE_TEST_FLAGS, true)
    ensures n == INVOKE_TEST_FLAGS || n == INVOKE_BEFORE_HEADERS_COMPLETE || n == INVOKE_AFTER_HEADERS_COMPLETE ==> ShapeOf(n).Invoke?
    ensures n == INVOKE_SKIP_BODY || n == INVOKE_SKIP_FOR_UPGRADE || n == INVOKE_AFTER_MESSAGE_COMPLETE ==> ShapeOf(n).Invoke?
    ensures n == ON_HEADERS_COMPLETE || n == ON_MESSAGE_COMPLETE || n == ON_MESSAGE_COMPLETE_1 ==> ShapeOf(n).Call?
    ensures n == PAUSE_UPGRADE ==> ShapeOf(n).Stop?
  {
  }

  lemma EndGotos(n: Node, m: Fields)
    ensures n == INVOKE_SKIP_BODY ==> Goto(n, m) == INVOKE_AFTER_HEADERS_COMPLETE && Update(n, m) == Answered(m, 1)
    ensures n == INVOKE_SKIP_FOR_UPGRADE ==> Goto(n, m) == INVOKE_AFTER_HEADERS_COMPLETE && Update(n, m) == Answered(m, 2)
    ensures n == INVOKE_AFTER_MESSAGE_COMPLETE ==> Goto(n, m) == START && Update(n, m) == m.(finish := FINISH_SAFE, flags := NO_FLAGS)
    ensures n == INVOKE_AFTER_HEADERS_COMPLETE ==> Goto(n, m) == BodyDecision(m) && Update(n, m) == m
    ensures n == INVOKE_BEFORE_HEADERS_COMPLETE ==> Goto(n, m) == ON_HEADERS_COMPLETE && Update(n, m) == m.(upgrade := UpgradeDecision(m))
  {
    hide BodyDecision, OrHeaderFlag, UpgradeDecision;
  }

  /** A header block whose lengths do not contradict each other. */
  predicate Agreed(m: Fields) {
    !m.flags.trailing && (m.flags.transferEncoding && m.flags.contentLength ==> m.lenientLength)
  }

  lemma TestPasses(m: Fields)
    requires Agreed(m)
    ensures Goto(INVOKE_TEST_FLAGS, m) == INVOKE_BEFORE_HEADERS_COMPLETE && Update(INVOKE_TEST_FLAGS, m) == m
  {
    hide BodyDecision, OrHeaderFlag, UpgradeDecision;
  }

  lemma EndRoutes(n: Node, m: Fields)
    ensures n == ON_HEADERS_COMPLETE ==> EventOf(n, m) == HeadersComplete && Route(n, 0) == INVOKE_AFTER_HEADERS_COMPLETE
    ensures n == ON_HEADERS_COMPLETE ==> Route(n, 1) == INVOKE_SKIP_BODY && Route(n, 2) == INVOKE_SKIP_FOR_UPGRADE
    ensures n == ON_MESSAGE_COMPLETE_1 ==> EventOf(n, m) == MessageComplete && Route(n, 0) == PAUSE_UPGRADE
    ensures n == ON_MESSAGE_COMPLETE ==> EventOf(n, m) == MessageComplete && Route(n, 0) == INVOKE_AFTER_MESSAGE_COMPLETE
  {
  }

  /** The fields that the choice of the body is made with. */
  function AtChoice(s: Core, answer: int): Fields {
    Answered(s.m.(upgrade := UpgradeDecision(s.m)), answer)
  }

  /** The end of the header block, for every answer of the user that is not an error. */
  lemma HeadersAnswered(d: Policy, s: Core, c: byte, rest: seq<byte>)
    requires s.cur == HEADERS_ALMOST_DONE && s.error == 0 && s.span == None && Agreed(s.m) && 0 <= d(s.trace + [HeadersComplete]) <= 2
    ensures var t := s.trace + [HeadersComplete];
      Run(d, Config(s, [c] + rest)) ==
        Run(d, Config(s.(cur := BodyDecision(AtChoice(s, d(t))), trace := t, m := AtChoice(s, d(t))), rest))
  {
    hide Run, ShapeOf, Branch, Goto, Update, Route, EventOf, BodyDecision, UpgradeDecision, Answered, Agreed;
    var t, m := s.trace + [HeadersComplete], s.m.(upgrade := UpgradeDecision(s.m));
    var a := d(t);
    EndNodes(HEADERS_ALMOST_DONE, c, m);
    EndNodes(INVOKE_TEST_FLAGS, c, m);
    EndNodes(INVOKE_BEFORE_HEADERS_COMPLETE, c, m);
    EndNodes(ON_HEADERS_COMPLETE, c, m);
    EndNodes(INVOKE_AFTER_HEADERS_COMPLETE, c, m);
    TestPasses(s.m);
    EndGotos(INVOKE_BEFORE_HEADERS_COMPLETE, s.m);
    EndRoutes(ON_HEADERS_COMPLETE, m);
    StepSwitch(d, s, c, rest);
    StepInvoke(d, s.(cur := INVOKE_TEST_FLAGS), rest);
    StepInvoke(d, s.(cur := INVOKE_BEFORE_HEADERS_COMPLETE), rest);
    StepCall(d, s.(cur := ON_HEADERS_COMPLETE, m := m), rest);
    var u := s.(cur := INVOKE_AFTER_HEADERS_COMPLETE, m := Answered(m, a), trace := t);
    if a == 0 {
      NothingAnswered(m);
      assert u.m == m;
    } else {
      var n := if a == 1 then INVOKE_SKIP_BODY else INVOKE_SKIP_FOR_UPGRADE;
      EndNodes(n, c, m);
      EndGotos(n, m);
      StepInvoke(d, s.(cur := n, m := m, trace := t), rest);
      assert Run(d, Config(s.(cur := n, m := m, trace := t), rest)) == Run(d, Config(u, rest));
    }
    EndGotos(INVOKE_AFTER_HEADERS_COMPLETE, u.m);
    StepInvoke(d, u, rest);
  }

  lemma NothingAnswered(m: Fields)
    ensures Answered(m, 0) == m
  {
  }

  lemma TunnelNode(m: Fields)
    requires Tunnels(m)
    ensures BodyDecision(m) == ON_MESSAGE_COMPLETE_1
  {
  }

  /**
   The exit for an upgrade: the message ends with its header, the parser stops with
   HPE_PAUSED_UPGRADE, and not one of the later bytes is read. Resumed, it stands at the start of a
   message, with the length of this one still in content_length.
   */
  lemma UpgradeExit(d: Policy, s: Core, c: byte, rest: seq<byte>)
    requires s.cur == HEADERS_ALMOST_DONE && s.error == 0 && s.span == None && Agreed(s.m) && 0 <= d(s.trace + [HeadersComplete]) <= 2
    requires Tunnels(AtChoice(s, d(s.trace + [HeadersComplete]))) && d(s.trace + [HeadersComplete] + [MessageComplete]) == 0
    ensures var r := Run(d, Config(s, [c] + rest));
      && r == Config(s.(cur := INVOKE_AFTER_MESSAGE_COMPLETE, error := HPE_PAUSED_UPGRADE,
           trace := s.trace + [HeadersComplete] + [MessageComplete], m := AtChoice(s, d(s.trace + [HeadersComplete]))), rest)
      && Run(d, Config(r.s.(error := 0), rest)) ==
           Run(d, Config(r.s.(error := 0, cur := START, m := r.s.m.(finish := FINISH_SAFE, flags := NO_FLAGS)), rest))
      && r.s.m.length == s.m.length
  {
    hide Run, ShapeOf, Branch, Goto, Update, Route, EventOf, BodyDecision, UpgradeDecision, Agreed, Tunnels;
    var t := s.trace + [HeadersComplete];
    var m := AtChoice(s, d(t));
    HeadersAnswered(d, s, c, rest);
    TunnelNode(m);
    EndNodes(ON_MESSAGE_COMPLETE_1, c, m);
    EndNodes(PAUSE_UPGRADE, c, m);
    EndRoutes(ON_MESSAGE_COMPLETE_1, m);
    StepCall(d, s.(cur := ON_MESSAGE_COMPLETE_1, m := m, trace := t), rest);
    var u := s.(cur := PAUSE_UPGRADE, m := m, trace := t + [MessageComplete]);
    StepStop(d, u, rest);
    EndNodes(INVOKE_AFTER_MESSAGE_COMPLETE, c, m);
    EndGotos(INVOKE_AFTER_MESSAGE_COMPLETE, m);
    StepInvoke(d, u.(cur := INVOKE_AFTER_MESSAGE_COMPLETE), rest);
  }

  /** A message without a body is complete, and what follows is left to the next. */
  lemma NothingFollows(d: Policy, s: Core, rest: seq<byte>)
    requires s.cur == ON_MESSAGE_COMPLETE && s.error == 0 && Accepts(d)
    ensures Run(d, Config(s, rest)) == Run(d, Config(s.(cur := START, trace := s.trace + [MessageComplete],
      m := s.m.(finish := FINISH_SAFE, flags := NO_FLAGS)), rest))
  {
    hide Run, ShapeOf, Goto, Update, Route, EventOf;
    EndNodes(ON_MESSAGE_COMPLETE, 0, s.m);
    EndRoutes(ON_MESSAGE_COMPLETE, s.m);
    StepCall(d, s, rest);
    EndNodes(INVOKE_AFTER_MESSAGE_COMPLETE, 0, s.m);
    EndGotos(INVOKE_AFTER_MESSAGE_COMPLETE, s.m);
    StepInvoke(d, s.(cur := INVOKE_AFTER_MESSAGE_COMPLETE, trace := s.trace + [MessageComplete]), rest);
  }

  /**
   The upgrade that is lost: a request without a body, which asks for an upgrade while a length is
   left over from an earlier message, ends without a stop, and the bytes of the other protocol are
   read as the next message.
   */
  lemma UpgradeLost(d: Policy, s: Core, c: byte, rest: seq<byte>)
    requires s.cur == HEADERS_ALMOST_DONE && s.error == 0 && s.span == None && Agreed(s.m) && Accepts(d)
    requires s.m.typ == HTTP_REQUEST && s.m.verb != HTTP_CONNECT && s.m.flags.upgrade && s.m.flags.connectionUpgrade && !s.m.flags.skipBody
    requires !s.m.flags.transferEncoding && !s.m.flags.chunked && !s.m.flags.contentLength && s.m.length > 0
    ensures Run(d, Config(s, [c] + rest)) == Run(d, Config(s.(cur := START, trace := s.trace + [HeadersComplete] + [MessageComplete],
      m := s.m.(upgrade := true, finish := FINISH_SAFE, flags := NO_FLAGS)), rest))
  {
    var t, m := s.trace + [HeadersComplete], s.m.(upgrade := true);
    assert AtChoice(s, 0) == m && BodyDecision(m) == ON_MESSAGE_COMPLETE;
    hide Run, ShapeOf, Branch, Goto, Update, Route, EventOf, BodyDecision, UpgradeDecision, Agreed, AtChoice;
    HeadersAnswered(d, s, c, rest);
    NothingFollows(d, s.(cur := ON_MESSAGE_COMPLETE, m := m, trace := t), rest);
  }

  lemma RefusalNodes(n: Node, m: Fields)
    ensures n == INVOKE_TEST_FLAGS && !m.flags.trailing && m.flags.transferEncoding && m.flags.contentLength && !m.lenientLength ==>
      Goto(n, m) == FAIL_UNEXPECTED_CONTENT_LENGTH && Update(n, m) == m
    ensures n == FAIL_UNEXPECTED_CONTENT_LENGTH ==> ShapeOf(n).Fail? && ErrorOf(n) == HPE_UNEXPECTED_CONTENT_LENGTH
  {
    hide BodyDecision, OrHeaderFlag, UpgradeDecision;
  }

  /** A header with both a Content-Length and a Transfer-Encoding is refused at its end: on_headers_complete is not called, and nothing more is read. */
  lemma LengthsRefused(d: Policy, s: Core, c: byte, rest: seq<byte>)
    requires s.cur == HEADERS_ALMOST_DONE && s.error == 0 && s.span == None && !s.m.flags.trailing
    requires s.m.flags.transferEncoding && s.m.flags.contentLength && !s.m.lenientLength
    ensures Run(d, Config(s, [c] + rest)) == Config(s.(cur := DEAD, error := HPE_UNEXPECTED_CONTENT_LENGTH), rest)
  {
    hide Run, ShapeOf, Branch, Goto, Update, ErrorOf;
    EndNodes(HEADERS_ALMOST_DONE, c, s.m);
    EndNodes(INVOKE_TEST_FLAGS, c, s.m);
    RefusalNodes(INVOKE_TEST_FLAGS, s.m);
    RefusalNodes(FAIL_UNEXPECTED_CONTENT_LENGTH, s.m);
    StepSwitch(d, s, c, rest);
    StepInvoke(d, s.(cur := INVOKE_TEST_FLAGS), rest);
    StepFail(d, s.(cur := FAIL_UNEXPECTED_CONTENT_LENGTH), rest);
  }

  /** The header asks for another protocol: with Upgrade and Connection: upgrade, in a response of status 101 only; or with the method CONNECT. */
  predicate AsksForProtocol(m: Fields) {
    if m.flags.upgrade && m.flags.connectionUpgrade then m.typ == HTTP_REQUEST || m.status == 101
    else m.verb == HTTP_CONNECT
  }

  /** No body is named. */
  predicate Bodiless(m: Fields) {
    !m.flags.transferEncoding && !m.flags.chunked && !m.flags.contentLength && !m.flags.skipBody && m.length == 0
  }

  lemma BodilessChoice(m: Fields)
    requires Bodiless(m) && (m.typ == HTTP_REQUEST || m.typ == HTTP_RESPONSE)
    ensures m.upgrade ==> Tunnels(m)
    ensures !m.upgrade && (m.typ == HTTP_REQUEST || NeverHasBody(m.status)) ==> BodyDecision(m) == ON_MESSAGE_COMPLETE
    ensures !m.upgrade && m.typ == HTTP_RESPONSE && !NeverHasBody(m.status) ==> BodyDecision(m) == INVOKE_UPDATE_FINISH_2
  {
  }

  /** A message whose header names no body: it is the last of its protocol, it is complete, or its body lasts until the end of the stream. */
  lemma BodilessEnds(d: Policy, s: Core, c: byte, rest: seq<byte>)
    requires s.cur == HEADERS_ALMOST_DONE && s.error == 0 && s.span == None && !s.m.flags.trailing && Bodiless(s.m) && Accepts(d)
    requires s.m.typ == HTTP_REQUEST || s.m.typ == HTTP_RESPONSE
    ensures var r, m := Run(d, Config(s, [c] + rest)), s.m.(upgrade := AsksForProtocol(s.m));
      if AsksForProtocol(s.m) then
        r == Config(s.(cur := INVOKE_AFTER_MESSAGE_COMPLETE, error := HPE_PAUSED_UPGRADE,
          trace := s.trace + [HeadersComplete] + [MessageComplete], m := m), rest)
      else if s.m.typ == HTTP_REQUEST || NeverHasBody(s.m.status) then
        r == Run(d, Config(s.(cur := START, trace := s.trace + [HeadersComplete] + [MessageComplete],
          m := m.(finish := FINISH_SAFE, flags := NO_FLAGS)), rest))
      else
        r == Run(d, Config(s.(cur := SPAN_START_BODY_2, trace := s.trace + [HeadersComplete],
          m := m.(finish := FINISH_SAFE_WITH_CB)), rest))
  {
    var t := s.trace + [HeadersComplete];
    assert AtChoice(s, 0) == s.m.(upgrade := AsksForProtocol(s.m));
    hide Run, ShapeOf, Branch, Goto, Update, Route, EventOf, BodyDecision, UpgradeDecision, Tunnels, AtChoice;
    var m := AtChoice(s, 0);
    BodilessChoice(m);
    if m.upgrade {
      UpgradeExit(d, s, c, rest);
    } else {
      HeadersAnswered(d, s, c, rest);
      if s.m.typ == HTTP_REQUEST || NeverHasBody(s.m.status) {
        NothingFollows(d, s.(cur := ON_MESSAGE_COMPLETE, m := m, trace := t), rest);
      } else {
        UntilEndNode(INVOKE_UPDATE_FINISH_2, m);
        StepInvoke(d, s.(cur := INVOKE_UPDATE_FINISH_2, m := m, trace := t), rest);
      }
    }
  }

  lemma UntilEndNode(n: Node, m: Fields)
    ensures n == INVOKE_UPDATE_FINISH_2 ==>
      ShapeOf(n).Invoke? && Goto(n, m) == SPAN_START_BODY_2 && Update(n, m) == m.(finish := FINISH_SAFE_WITH_CB)
  {
    hide BodyDecision, OrHeaderFlag, UpgradeDecision;
  }

  lemma OpenNodes(n: Node, c: byte)
    ensures n == EOF ==> ShapeOf(n).Switch? && Branch(n, c) == Turn(n, true)
    ensures n == SPAN_START_BODY_2 ==> ShapeOf(n).Open? && KindOf(n) == OnBody && NextOf(n) == EOF
  {
  }

  /** A body that lasts until the end of the stream takes everything. */
  lemma BodyTakesAll(d: Policy, s: Core, data: seq<byte>)
    requires s.cur == EOF && s.error == 0 && SpanShown(s)
    ensures Run(d, Config(s, data)) == Config(Gain(s, data), [])
  {
    hide ShapeOf, Branch;
    forall i | 0 <= i < |data| ensures Branch(EOF, data[i]) == Turn(EOF, true) { OpenNodes(EOF, data[i]); }
    OpenNodes(EOF, 0);
    LoopAll(d, s, data, []);
    assert data + [] == data;
  }

  /** From its first byte, if there is one. */
  lemma BodyUntilEnd(d: Policy, s: Core, data: seq<byte>)
    requires s.cur == SPAN_START_BODY_2 && s.error == 0 && s.trace != [] && !s.trace[|s.trace| - 1].Piece?
    ensures Run(d, Config(s, data)) == Config(
      if data == [] then s else s.(cur := EOF, span := Some(OnBody), trace := s.trace + [Piece(OnBody, data)]), [])
  {
    OpenNodes(SPAN_START_BODY_2, 0);
    if data != [] {
      hide Run, ShapeOf, KindOf, NextOf;
      StepOpen(d, s, data);
      var t := Gain(s.(span := Some(OnBody)), []).(cur := EOF);
      BodyTakesAll(d, t, data);
      AddPieces(s.trace, OnBody, [], data);
      assert [] + data == data;
    }
  }

  /** A coding is named that is not chunked, and no length; and no other protocol is asked for. */
  predicate OtherwiseCoded(m: Fields) {
    m.flags.transferEncoding && !m.flags.chunked && !m.flags.contentLength && !m.flags.skipBody && !AsksForProtocol(m)
  }

  lemma CodedNodes(n: Node, m: Fields)
    ensures OtherwiseCoded(m) && !m.upgrade ==>
      BodyDecision(m) == if m.typ == HTTP_REQUEST && !m.lenientLength then FAIL_INVALID_TRANSFER_ENCODING else INVOKE_UPDATE_FINISH_2
    ensures n == FAIL_INVALID_TRANSFER_ENCODING ==> ShapeOf(n).Fail? && ErrorOf(n) == HPE_INVALID_TRANSFER_ENCODING
  {
  }

  /** Nobody can tell where the body of such a message ends: a request is refused behind its header, and a response lasts until the end of the stream. */
  lemma CodedEnds(d: Policy, s: Core, c: byte, rest: seq<byte>)
    requires s.cur == HEADERS_ALMOST_DONE && s.error == 0 && s.span == None && !s.m.flags.trailing && OtherwiseCoded(s.m) && Accepts(d)
    ensures var r, t := Run(d, Config(s, [c] + rest)), s.trace + [HeadersComplete];
      if s.m.typ == HTTP_REQUEST && !s.m.lenientLength then
        r == Config(s.(cur := DEAD, error := HPE_INVALID_TRANSFER_ENCODING, trace := t, m := s.m.(upgrade := false)), rest)
      else
        r == Run(d, Config(s.(cur := SPAN_START_BODY_2, trace := t, m := s.m.(upgrade := false, finish := FINISH_SAFE_WITH_CB)), rest))
  {
    assert AtChoice(s, 0) == s.m.(upgrade := false);
    var m, t := AtChoice(s, 0), s.trace + [HeadersComplete];
    CodedNodes(FAIL_INVALID_TRANSFER_ENCODING, m);
    hide Run, ShapeOf, ErrorOf, BodyDecision, UpgradeDecision, AtChoice;
    HeadersAnswered(d, s, c, rest);
    if s.m.typ == HTTP_REQUEST && !s.m.lenientLength {
      StepFail(d, s.(cur := FAIL_INVALID_TRANSFER_ENCODING, m := m, trace := t), rest);
    } else {
      UntilEndNode(INVOKE_UPDATE_FINISH_2, m);
      StepInvoke(d, s.(cur := INVOKE_UPDATE_FINISH_2, m := m, trace := t), rest);
    }
  }
}
