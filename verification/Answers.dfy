/** What the user's answers to the callbacks without data come to. */
module Answers {
  import opened Bytes
  import opened Graph
  import opened Machine
  import opened Walk
  import P = Parser

  /** The error that a refusal is reported as. */
  function RefusalOf(e: Event): int
    requires P.Heeded(e)
  {
    match e
    case MessageBegin => HPE_CB_MESSAGE_BEGIN
    case HeadersComplete => HPE_CB_HEADERS_COMPLETE
    case ChunkHeader(_) => HPE_CB_CHUNK_HEADER
    case ChunkComplete => HPE_CB_CHUNK_COMPLETE
    case _ => HPE_CB_MESSAGE_COMPLETE
  }

  /** The answers that are no refusal: to go on, to pause, and for a header to skip the body, with or without an upgrade. */
  predicate Agrees(e: Event, answer: int) {
    answer == 0 || answer == HPE_PAUSED || (e.HeadersComplete? && (answer == 1 || answer == 2))
  }

  lemma RefusalEdge(n: Node, m: Fields, answer: int)
    requires ShapeOf(n).Call? && P.Heeded(EventOf(n, m)) && !Agrees(EventOf(n, m), answer)
    ensures ShapeOf(Route(n, answer)).Fail? && ErrorOf(Route(n, answer)) == RefusalOf(EventOf(n, m))
    ensures !EventOf(n, m).Piece? && RefusalOf(EventOf(n, m)) != 0
  {
  }

  /** A refusal stops the parser where it is, with the error of that callback. */
  lemma Refusal(d: Policy, s: Core, input: seq<byte>)
    requires ShapeOf(s.cur).Call? && s.error == 0
    requires var e := EventOf(s.cur, s.m); P.Heeded(e) && !Agrees(e, d(Add(s.trace, e)))
    ensures var e := EventOf(s.cur, s.m);
      Run(d, Config(s, input)) == Config(s.(trace := s.trace + [e], cur := DEAD, error := RefusalOf(e)), input)
  {
    hide Run, ShapeOf, Route, EventOf, ErrorOf, RefusalOf;
    var e := EventOf(s.cur, s.m);
    var answer := d(Add(s.trace, e));
    RefusalEdge(s.cur, s.m, answer);
    StepCall(d, s, input);
    StepFail(d, s.(trace := Add(s.trace, e), cur := Route(s.cur, answer)), input);
  }

  lemma DeafEdge(n: Node, m: Fields, answer: int)
    requires ShapeOf(n).Call? && !P.Heeded(EventOf(n, m))
    ensures Route(n, answer) == Route(n, 0) && !EventOf(n, m).Piece?
  {
  }

  /** The end of a status line, of a name and of a value are told, and the answer is not looked at. */
  lemma Told(d: Policy, s: Core, input: seq<byte>)
    requires ShapeOf(s.cur).Call? && s.error == 0 && !P.Heeded(EventOf(s.cur, s.m))
    ensures Run(d, Config(s, input)) ==
      Run(d, Config(s.(trace := s.trace + [EventOf(s.cur, s.m)], cur := Route(s.cur, 0)), input))
  {
    hide Run, ShapeOf, Route, EventOf;
    DeafEdge(s.cur, s.m, d(Add(s.trace, EventOf(s.cur, s.m))));
    StepCall(d, s, input);
  }
}
