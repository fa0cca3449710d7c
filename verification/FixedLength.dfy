/** Bodies of a known length, section 3.3.3 of RFC 7230: every byte is delivered once, and no other. */
module FixedLength {
  import opened Bytes
  import opened Graph
  import opened Machine
  import opened Strides
  import opened Walk
  import Chunked

  lemma BodyShape(n: Node)
    ensures n == SPAN_START_BODY_1 ==> ShapeOf(n).Open? && KindOf(n) == OnBody && NextOf(n) == CONSUME_CONTENT_LENGTH_1
    ensures n == CONSUME_CONTENT_LENGTH_1 ==> ShapeOf(n).Consume? && NextOf(n) == SPAN_END_BODY_1
    ensures n == SPAN_END_BODY_1 ==> ShapeOf(n).Close? && !Skips(n) && NextOf(n) == ON_MESSAGE_COMPLETE_2
  {
  }

  /** A body begins, or goes on: `got` is what was delivered of it, and content_length is what is owed. */
  predicate InBody(s: Core, before: seq<Event>, got: seq<byte>) {
    && s.cur == CONSUME_CONTENT_LENGTH_1 && s.error == 0 && s.span == Some(OnBody)
    && s.trace == before + [Piece(OnBody, got)]
  }

  /** The first bytes of a body, however many there are: they are delivered, and the rest is owed. */
  lemma BodyBegins(d: Policy, s: Core, w: seq<byte>, rest: seq<byte>)
    requires s.cur == SPAN_START_BODY_1 && s.error == 0 && s.span == None && w + rest != []
    requires |w| <= s.m.length && (s.trace == [] || !s.trace[|s.trace| - 1].Piece?)
    ensures Run(d, Config(s, w + rest)) == Run(d, Config(s.(cur := CONSUME_CONTENT_LENGTH_1, span := Some(OnBody),
      trace := s.trace + [Piece(OnBody, w)], m := s.m.(length := s.m.length - |w|)), rest))
  {
    hide Run, ShapeOf, KindOf, NextOf;
    BodyShape(SPAN_START_BODY_1);
    StepOpen(d, s, w + rest);
    var t := s.(cur := CONSUME_CONTENT_LENGTH_1, span := Some(OnBody), trace := s.trace + [Piece(OnBody, [])]);
    BodyGoesOn(d, t, s.trace, [], w, rest);
    assert [] + w == w;
  }

  /** More bytes of a body that has begun: what was delivered and what is owed keep their sum. */
  lemma BodyGoesOn(d: Policy, s: Core, before: seq<Event>, got: seq<byte>, w: seq<byte>, rest: seq<byte>)
    requires InBody(s, before, got) && |w| <= s.m.length
    ensures var t := s.(trace := before + [Piece(OnBody, got + w)], m := s.m.(length := s.m.length - |w|));
      && Run(d, Config(s, w + rest)) == Run(d, Config(t, rest))
      && InBody(t, before, got + w) && |got + w| + t.m.length == |got| + s.m.length
  {
    hide Run, ShapeOf, NextOf;
    BodyShape(CONSUME_CONTENT_LENGTH_1);
    Bulk(d, s, w + rest, |w|);
    assert (w + rest)[..|w|] == w && (w + rest)[|w|..] == rest;
    assert s.trace[..|before|] == before;
  }

  /** The machine stops for more bytes only while some are owed. */
  lemma BodyWaits(d: Policy, s: Core, before: seq<Event>, got: seq<byte>)
    requires InBody(s, before, got) && s.m.length > 0
    ensures Run(d, Config(s, [])) == Config(s, [])
  {
  }

  /** With nothing owed the message ends, and what follows is left to the next one. */
  lemma BodyEnds(d: Policy, s: Core, before: seq<Event>, got: seq<byte>, rest: seq<byte>)
    requires InBody(s, before, got) && s.m.length == 0 && Accepts(d)
    ensures Chunked.Finished(d, Config(s, rest),
      s.(span := None, trace := before + [Piece(OnBody, got), MessageComplete]), rest)
  {
    hide Run, ShapeOf, NextOf, Skips;
    BodyShape(CONSUME_CONTENT_LENGTH_1);
    BodyShape(SPAN_END_BODY_1);
    ConsumeEnds(d, s, rest);
    StepClose(d, s.(cur := SPAN_END_BODY_1), rest);
    Chunked.MessageEnds(d, s.(cur := ON_MESSAGE_COMPLETE_2, span := None), rest);
    assert s.trace + [MessageComplete] == before + [Piece(OnBody, got), MessageComplete];
  }

  /** The whole body, at once. */
  lemma BodyDecodes(d: Policy, s: Core, body: seq<byte>, rest: seq<byte>)
    requires s.cur == SPAN_START_BODY_1 && s.error == 0 && s.span == None && Accepts(d)
    requires s.m.length == |body| > 0 && (s.trace == [] || !s.trace[|s.trace| - 1].Piece?)
    ensures Chunked.Finished(d, Config(s, body + rest),
      s.(m := s.m.(length := 0), trace := s.trace + [Piece(OnBody, body), MessageComplete]), rest)
  {
    hide Run;
    BodyBegins(d, s, body, rest);
    var t := s.(cur := CONSUME_CONTENT_LENGTH_1, span := Some(OnBody), trace := s.trace + [Piece(OnBody, body)],
                m := s.m.(length := 0));
    BodyEnds(d, t, s.trace, body, rest);
  }

  /** Every prefix of a body: what was delivered is exactly that prefix, and content_length is the rest. */
  lemma BodyPrefix(d: Policy, s: Core, w: seq<byte>)
    requires s.cur == SPAN_START_BODY_1 && s.error == 0 && s.span == None && w != [] && |w| < s.m.length
    requires s.trace == [] || !s.trace[|s.trace| - 1].Piece?
    ensures Run(d, Config(s, w)) == Config(s.(cur := CONSUME_CONTENT_LENGTH_1, span := Some(OnBody),
      trace := s.trace + [Piece(OnBody, w)], m := s.m.(length := s.m.length - |w|)), [])
  {
    hide Run;
    assert w + [] == w;
    BodyBegins(d, s, w, []);
    var t := s.(cur := CONSUME_CONTENT_LENGTH_1, span := Some(OnBody), trace := s.trace + [Piece(OnBody, w)],
                m := s.m.(length := s.m.length - |w|));
    BodyWaits(d, t, s.trace, w);
  }
}
