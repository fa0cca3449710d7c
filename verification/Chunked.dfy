/** Chunked bodies, section 4.1 of RFC 7230: what was encoded is decoded. */
module Chunked {
  import opened Bytes
  import opened Graph
  import opened Machine
  import opened Strides
  import opened Walk
  import opened Numbers
  import Messages

  /** A chunk as it is sent: the digits of its size, an extension, and the data. */
  datatype Chunk = Chunk(size: seq<byte>, ext: seq<byte>, data: seq<byte>)

  /** Any digits of the right value will do, with zeros in front or not, in either case. */
  predicate Sized(c: Chunk) {
    c.size != [] && AllHex(c.size) && |c.data| <= MAX_UINT64 && Value(16, 0, HexDigits(c.size)) == |c.data|
  }

  predicate Extends(ext: seq<byte>) {
    ext != [] ==> (ext[0] == SP || ext[0] == SEMICOLON) && CR !in ext
  }

  const CRLF: seq<byte> := [CR, LF]

  function Encode(c: Chunk): seq<byte> {
    c.size + c.ext + CRLF + c.data + CRLF
  }

  function EncodeAll(cs: seq<Chunk>): seq<byte> {
    if cs == [] then [] else Encode(cs[0]) + EncodeAll(cs[1..])
  }

  function Data(cs: seq<Chunk>): seq<seq<byte>> {
    seq(|cs|, i requires 0 <= i < |cs| => cs[i].data)
  }

  predicate Sendable(cs: seq<Chunk>) {
    forall i :: 0 <= i < |cs| ==> Sized(cs[i]) && Extends(cs[i].ext) && cs[i].data != []
  }

  /** Between two chunks. */
  predicate AtChunk(s: Core) {
    s.cur == INVOKE_UPDATE_CONTENT_LENGTH && s.error == 0 && s.span == None
  }

  lemma SizeShape(n: Node)
    ensures n == CHUNK_SIZE ==> ShapeOf(n).Number? && MissOf(n) == CHUNK_SIZE_OTHERWISE
    ensures n == CHUNK_SIZE_OTHERWISE || n == CHUNK_PARAMETERS || n == CHUNK_SIZE_ALMOST_DONE ==> ShapeOf(n).Switch?
  {
  }

  lemma SizeEdges(c: byte)
    ensures IsDigitOf(CHUNK_SIZE, c) <==> IsHex(c)
    ensures c == CR ==> Branch(CHUNK_SIZE_OTHERWISE, c) == Branch(CHUNK_PARAMETERS, c) == Turn(CHUNK_SIZE_ALMOST_DONE, true)
    ensures c == SP || c == SEMICOLON ==> Branch(CHUNK_SIZE_OTHERWISE, c) == Turn(CHUNK_PARAMETERS, true)
    ensures c != CR ==> Branch(CHUNK_PARAMETERS, c) == Turn(CHUNK_PARAMETERS, true)
    ensures Branch(CHUNK_SIZE_ALMOST_DONE, c) == Turn(ON_CHUNK_HEADER, true)
  {
  }

  /** The rest of a size line is stepped over up to its CR. */
  lemma Extension(d: Policy, s: Core, ext: seq<byte>, rest: seq<byte>)
    requires s.cur == CHUNK_SIZE && s.error == 0 && s.span == None && Extends(ext)
    ensures Run(d, Config(s, ext + ([CR] + rest))) == Run(d, Config(s.(cur := CHUNK_SIZE_ALMOST_DONE), rest))
  {
    hide Run, ShapeOf, Branch, MissOf, IsDigitOf, AfterDigit, TakeDigit;
    var t := s.(cur := CHUNK_SIZE_OTHERWISE);
    SizeShape(CHUNK_SIZE);
    SizeShape(CHUNK_SIZE_OTHERWISE);
    SizeShape(CHUNK_PARAMETERS);
    SizeShape(CHUNK_SIZE_ALMOST_DONE);
    SizeEdges(CR);
    if ext == [] {
      assert ext + ([CR] + rest) == [CR] + rest;
      StepNumber(d, s, CR, rest);
      StepSwitch(d, t, CR, rest);
    } else {
      var tail, line := ext[1..], ext[1..] + ([CR] + rest);
      var u := s.(cur := CHUNK_PARAMETERS);
      SizeEdges(ext[0]);
      assert ext + ([CR] + rest) == [ext[0]] + line;
      StepNumber(d, s, ext[0], line);
      StepSwitch(d, t, ext[0], line);
      forall i | 0 <= i < |tail| ensures Branch(u.cur, line[i]) == Turn(u.cur, true) {
        assert tail[i] in ext;
        SizeEdges(tail[i]);
      }
      Loop(d, u, line, |tail|);
      assert line[|tail|..] == [CR] + rest;
      StepSwitch(d, u, CR, rest);
    }
  }

  lemma SilentSize(m: Fields)
    ensures var n := INVOKE_UPDATE_CONTENT_LENGTH;
      ShapeOf(n).Invoke? && Goto(n, m) == CHUNK_SIZE_DIGIT && Update(n, m) == m.(length := 0)
    ensures var n := ON_CHUNK_HEADER;
      ShapeOf(n).Call? && Route(n, 0) == INVOKE_IS_EQUAL_CONTENT_LENGTH && EventOf(n, m) == ChunkHeader(m.length)
  {
  }

  /** A size line leads to the chunk header callback, which shows its number. Any byte counts as its line feed. */
  lemma SizeLineAt(d: Policy, s: Core, x: seq<byte>, ext: seq<byte>, b: byte, rest: seq<byte>)
    requires AtChunk(s) && Accepts(d) && x != [] && AllHex(x) && Extends(ext) && Value(16, 0, HexDigits(x)) <= MAX_UINT64
    ensures var n := Value(16, 0, HexDigits(x));
      Run(d, Config(s, x + (ext + ([CR, b] + rest)))) ==
        Run(d, Config(s.(cur := INVOKE_IS_EQUAL_CONTENT_LENGTH, m := s.m.(length := n), trace := s.trace + [ChunkHeader(n)]), rest))
  {
    hide Run, Value, Extends, ShapeOf, Branch, MissOf, Goto, Update, Route, EventOf;
    var n := Value(16, 0, HexDigits(x));
    var s1 := s.(cur := CHUNK_SIZE_DIGIT, m := s.m.(length := 0));
    var s2 := s.(cur := CHUNK_SIZE, m := s.m.(length := n));
    var line := ext + ([CR] + ([b] + rest));
    assert ext + ([CR, b] + rest) == line;
    SilentSize(s.m);
    StepInvoke(d, s, x + line);
    FittingIsLongest(16, MAX_UINT64, 0, HexDigits(x));
    HexRun(d, s1, x, line);
    Extension(d, s2, ext, [b] + rest);
    SizeShape(CHUNK_SIZE_ALMOST_DONE);
    SizeEdges(b);
    StepSwitch(d, s2.(cur := CHUNK_SIZE_ALMOST_DONE), b, rest);
    SilentSize(s2.m);
    StepCall(d, s2.(cur := ON_CHUNK_HEADER), rest);
  }

  /** The size line of a chunk. */
  lemma SizeLine(d: Policy, s: Core, c: Chunk, b: byte, rest: seq<byte>)
    requires AtChunk(s) && Accepts(d) && Sized(c) && Extends(c.ext)
    ensures Run(d, Config(s, c.size + c.ext + [CR, b] + rest)) ==
      Run(d, Config(s.(cur := INVOKE_IS_EQUAL_CONTENT_LENGTH, m := s.m.(length := |c.data|),
                       trace := s.trace + [ChunkHeader(|c.data|)]), rest))
  {
    hide Run, Value, Extends;
    assert c.size + c.ext + [CR, b] + rest == c.size + (c.ext + ([CR, b] + rest));
    SizeLineAt(d, s, c.size, c.ext, b, rest);
  }

  lemma DataShape(n: Node)
    ensures n == INVOKE_IS_EQUAL_CONTENT_LENGTH ==> ShapeOf(n).Invoke?
    ensures n == SPAN_START_BODY ==> ShapeOf(n).Open?
    ensures n == CONSUME_CONTENT_LENGTH ==> ShapeOf(n).Consume?
    ensures n == SPAN_END_BODY ==> ShapeOf(n).Close?
    ensures n == CHUNK_DATA_ALMOST_DONE || n == CHUNK_DATA_ALMOST_DONE_SKIP ==> ShapeOf(n).Switch?
    ensures n == ON_CHUNK_COMPLETE ==> ShapeOf(n).Call?
  {
  }

  lemma DataShapes()
    ensures ShapeOf(INVOKE_IS_EQUAL_CONTENT_LENGTH).Invoke? && ShapeOf(SPAN_START_BODY).Open?
    ensures ShapeOf(CONSUME_CONTENT_LENGTH).Consume? && ShapeOf(SPAN_END_BODY).Close?
    ensures ShapeOf(CHUNK_DATA_ALMOST_DONE).Switch? && ShapeOf(CHUNK_DATA_ALMOST_DONE_SKIP).Switch?
    ensures ShapeOf(ON_CHUNK_COMPLETE).Call?
  {
    hide ShapeOf;
    DataShape(INVOKE_IS_EQUAL_CONTENT_LENGTH);
    DataShape(SPAN_START_BODY);
    DataShape(CONSUME_CONTENT_LENGTH);
    DataShape(SPAN_END_BODY);
    DataShape(CHUNK_DATA_ALMOST_DONE);
    DataShape(CHUNK_DATA_ALMOST_DONE_SKIP);
    DataShape(ON_CHUNK_COMPLETE);
  }

  lemma DataEdges(c: byte)
    ensures KindOf(SPAN_START_BODY) == OnBody && NextOf(SPAN_START_BODY) == CONSUME_CONTENT_LENGTH
    ensures NextOf(CONSUME_CONTENT_LENGTH) == SPAN_END_BODY
    ensures !Skips(SPAN_END_BODY) && NextOf(SPAN_END_BODY) == CHUNK_DATA_ALMOST_DONE
    ensures Branch(CHUNK_DATA_ALMOST_DONE, c) == Turn(CHUNK_DATA_ALMOST_DONE_SKIP, true)
    ensures Branch(CHUNK_DATA_ALMOST_DONE_SKIP, c) == Turn(ON_CHUNK_COMPLETE, true)
  {
  }

  lemma DataBlocks(m: Fields)
    ensures m.length > 0 ==> Goto(INVOKE_IS_EQUAL_CONTENT_LENGTH, m) == SPAN_START_BODY
    ensures Update(INVOKE_IS_EQUAL_CONTENT_LENGTH, m) == m
    ensures Route(ON_CHUNK_COMPLETE, 0) == INVOKE_UPDATE_CONTENT_LENGTH && EventOf(ON_CHUNK_COMPLETE, m) == ChunkComplete
  {
    hide BodyDecision;
  }

  /** The data of a chunk is one piece, whole and in order. Any two bytes count as the end of its line. */
  lemma DataLines(d: Policy, s: Core, data: seq<byte>, a: byte, b: byte, rest: seq<byte>)
    requires s.cur == INVOKE_IS_EQUAL_CONTENT_LENGTH && s.error == 0 && s.span == None && Accepts(d)
    requires s.m.length == |data| > 0 && s.trace != [] && !s.trace[|s.trace| - 1].Piece?
    ensures Run(d, Config(s, data + [a, b] + rest)) ==
      Run(d, Config(s.(cur := INVOKE_UPDATE_CONTENT_LENGTH, m := s.m.(length := 0),
                       trace := s.trace + [Piece(OnBody, data), ChunkComplete]), rest))
  {
    hide Run, ShapeOf, Branch, Goto, Update, Route, EventOf, KindOf, NextOf, Skips;
    var input, tail := data + [a, b] + rest, [a] + ([b] + rest);
    DataShapes();
    DataEdges(a);
    DataEdges(b);
    DataBlocks(s.m);
    StepInvoke(d, s, input);
    StepOpen(d, s.(cur := SPAN_START_BODY), input);
    var t := s.(cur := CONSUME_CONTENT_LENGTH, span := Some(OnBody), trace := s.trace + [Piece(OnBody, [])]);
    Bulk(d, t, input, |data|);
    assert input[..|data|] == data && input[|data|..] == tail;
    var m := s.m.(length := 0);
    var u := s.(span := Some(OnBody), trace := s.trace + [Piece(OnBody, data)], m := m);
    assert Gain(t, data).(m := m) == u.(cur := CONSUME_CONTENT_LENGTH) by {
      assert t.trace[..|s.trace|] == s.trace && [] + data == data;
    }
    ConsumeEnds(d, u.(cur := CONSUME_CONTENT_LENGTH), tail);
    StepClose(d, u.(cur := SPAN_END_BODY), tail);
    var v := u.(span := None);
    StepSwitch(d, v.(cur := CHUNK_DATA_ALMOST_DONE), a, [b] + rest);
    StepSwitch(d, v.(cur := CHUNK_DATA_ALMOST_DONE_SKIP), b, rest);
    DataBlocks(m);
    StepCall(d, v.(cur := ON_CHUNK_COMPLETE), rest);
    assert v.trace + [ChunkComplete] == s.trace + [Piece(OnBody, data), ChunkComplete];
  }

  /** One chunk: its header, its data, its end. */
  lemma ChunkDecodes(d: Policy, s: Core, c: Chunk, rest: seq<byte>)
    requires AtChunk(s) && Accepts(d) && Sized(c) && Extends(c.ext) && c.data != []
    ensures Run(d, Config(s, Encode(c) + rest)) ==
      Run(d, Config(s.(m := s.m.(length := 0), trace := s.trace + Messages.ShowChunk(c.data)), rest))
  {
    hide Run, Sized, Extends;
    var tail := c.data + CRLF + rest;
    assert Encode(c) + rest == c.size + c.ext + CRLF + tail;
    SizeLine(d, s, c, LF, tail);
    var t := s.(cur := INVOKE_IS_EQUAL_CONTENT_LENGTH, m := s.m.(length := |c.data|),
                trace := s.trace + [ChunkHeader(|c.data|)]);
    DataLines(d, t, c.data, CR, LF, rest);
    assert t.trace + [Piece(OnBody, c.data), ChunkComplete] == s.trace + Messages.ShowChunk(c.data);
  }

  lemma {:induction false} ChunksDecode(d: Policy, s: Core, cs: seq<Chunk>, rest: seq<byte>)
    requires AtChunk(s) && Accepts(d) && Sendable(cs) && s.m.length == 0
    ensures Run(d, Config(s, EncodeAll(cs) + rest)) ==
      Run(d, Config(s.(trace := s.trace + Messages.ShowChunks(Data(cs))), rest))
    decreases |cs|
  {
    hide Run, Sized, Extends, Encode, Messages.ShowChunk;
    if cs == [] {
      assert EncodeAll(cs) + rest == rest;
      assert s.trace + Messages.ShowChunks(Data(cs)) == s.trace;
    } else {
      var t := s.(trace := s.trace + Messages.ShowChunk(cs[0].data));
      assert EncodeAll(cs) + rest == Encode(cs[0]) + (EncodeAll(cs[1..]) + rest);
      ChunkDecodes(d, s, cs[0], EncodeAll(cs[1..]) + rest);
      ChunksDecode(d, t, cs[1..], rest);
      assert Data(cs)[1..] == Data(cs[1..]);
      assert t.trace + Messages.ShowChunks(Data(cs[1..])) == s.trace + Messages.ShowChunks(Data(cs));
    }
  }

  lemma EndShape(n: Node)
    ensures n == INVOKE_IS_EQUAL_CONTENT_LENGTH || n == INVOKE_OR_TRAILING || n == INVOKE_TEST_FLAGS ==> ShapeOf(n).Invoke?
    ensures n == INVOKE_IS_EQUAL_UPGRADE || n == INVOKE_AFTER_MESSAGE_COMPLETE ==> ShapeOf(n).Invoke?
    ensures n == HEADER_FIELD_START || n == HEADERS_ALMOST_DONE ==> ShapeOf(n).Switch?
    ensures n == ON_CHUNK_COMPLETE_1 || n == ON_MESSAGE_COMPLETE_2 ==> ShapeOf(n).Call?
    ensures n == PAUSE_UPGRADE ==> ShapeOf(n).Stop?
  {
  }

  lemma EndEdges(c: byte, m: Fields)
    ensures c == CR ==> Branch(HEADER_FIELD_START, c) == Turn(HEADERS_ALMOST_DONE, true)
    ensures Branch(HEADERS_ALMOST_DONE, c) == Turn(INVOKE_TEST_FLAGS, true)
    ensures Route(ON_CHUNK_COMPLETE_1, 0) == ON_MESSAGE_COMPLETE_2 && EventOf(ON_CHUNK_COMPLETE_1, m) == ChunkComplete
    ensures Route(ON_MESSAGE_COMPLETE_2, 0) == INVOKE_IS_EQUAL_UPGRADE && EventOf(ON_MESSAGE_COMPLETE_2, m) == MessageComplete
  {
  }

  lemma EndGotos(m: Fields)
    ensures m.length == 0 ==> Goto(INVOKE_IS_EQUAL_CONTENT_LENGTH, m) == INVOKE_OR_TRAILING
    ensures Goto(INVOKE_OR_TRAILING, m) == HEADER_FIELD_START
    ensures m.flags.trailing ==> Goto(INVOKE_TEST_FLAGS, m) == ON_CHUNK_COMPLETE_1
    ensures Goto(INVOKE_IS_EQUAL_UPGRADE, m) == if m.upgrade then PAUSE_UPGRADE else INVOKE_AFTER_MESSAGE_COMPLETE
    ensures Goto(INVOKE_AFTER_MESSAGE_COMPLETE, m) == START
  {
    hide BodyDecision;
  }

  lemma EndUpdates(m: Fields)
    ensures Update(INVOKE_IS_EQUAL_CONTENT_LENGTH, m) == m
    ensures Update(INVOKE_OR_TRAILING, m) == m.(flags := m.flags.(trailing := true))
    ensures Update(INVOKE_TEST_FLAGS, m) == m && Update(INVOKE_IS_EQUAL_UPGRADE, m) == m
    ensures Update(INVOKE_AFTER_MESSAGE_COMPLETE, m) == m.(finish := FINISH_SAFE, flags := NO_FLAGS)
  {
    hide OrHeaderFlag;
  }

  /** What a finished message leaves: the parser is ready for the next one, or has stopped for an upgrade. */
  ghost predicate Finished(d: Policy, k: Config, s: Core, rest: seq<byte>) {
    if s.m.upgrade then
      Run(d, k) == Config(s.(cur := INVOKE_AFTER_MESSAGE_COMPLETE, error := HPE_PAUSED_UPGRADE), rest)
    else
      Run(d, k) == Run(d, Config(s.(cur := START, m := s.m.(finish := FINISH_SAFE, flags := NO_FLAGS)), rest))
  }

  lemma StopsForUpgrade(d: Policy, s: Core, rest: seq<byte>)
    requires s.cur == PAUSE_UPGRADE && s.error == 0
    ensures Run(d, Config(s, rest)) == Config(s.(cur := INVOKE_AFTER_MESSAGE_COMPLETE, error := HPE_PAUSED_UPGRADE), rest)
  {
    hide Run;
    EndShape(PAUSE_UPGRADE);
    StepStop(d, s, rest);
  }

  /** After the body: message complete, once, and nothing more is read. */
  lemma MessageEnds(d: Policy, s: Core, rest: seq<byte>)
    requires s.cur == ON_MESSAGE_COMPLETE_2 && s.error == 0 && Accepts(d)
    ensures Finished(d, Config(s, rest), s.(trace := s.trace + [MessageComplete]), rest)
  {
    hide Run, ShapeOf, Goto, Update, Route, EventOf, NextOf;
    EndShape(ON_MESSAGE_COMPLETE_2);
    EndShape(INVOKE_IS_EQUAL_UPGRADE);
    EndShape(INVOKE_AFTER_MESSAGE_COMPLETE);
    EndEdges(0, s.m);
    EndGotos(s.m);
    EndUpdates(s.m);
    var t := s.(trace := s.trace + [MessageComplete]);
    StepCall(d, s, rest);
    StepInvoke(d, t.(cur := INVOKE_IS_EQUAL_UPGRADE), rest);
    if s.m.upgrade {
      StopsForUpgrade(d, t.(cur := PAUSE_UPGRADE), rest);
    } else {
      StepInvoke(d, t.(cur := INVOKE_AFTER_MESSAGE_COMPLETE), rest);
    }
  }

  /** The end of the empty line after the trailers, if any. */
  lemma TrailersDone(d: Policy, s: Core, c: byte, rest: seq<byte>)
    requires s.cur == HEADERS_ALMOST_DONE && s.error == 0 && s.span == None && s.m.flags.trailing && Accepts(d)
    ensures Finished(d, Config(s, [c] + rest), s.(trace := s.trace + [ChunkComplete, MessageComplete]), rest)
  {
    hide Run, ShapeOf, Branch, Goto, Update, Route, EventOf, NextOf;
    EndShape(HEADERS_ALMOST_DONE);
    EndShape(INVOKE_TEST_FLAGS);
    EndShape(ON_CHUNK_COMPLETE_1);
    EndEdges(c, s.m);
    EndGotos(s.m);
    EndUpdates(s.m);
    StepSwitch(d, s, c, rest);
    StepInvoke(d, s.(cur := INVOKE_TEST_FLAGS), rest);
    StepCall(d, s.(cur := ON_CHUNK_COMPLETE_1), rest);
    var u := s.(cur := ON_MESSAGE_COMPLETE_2, trace := s.trace + [ChunkComplete]);
    MessageEnds(d, u, rest);
    assert u.trace + [MessageComplete] == s.trace + [ChunkComplete, MessageComplete];
  }

  /** The empty line after the trailers, if any. */
  lemma TrailersEnd(d: Policy, s: Core, rest: seq<byte>)
    requires s.cur == HEADER_FIELD_START && s.error == 0 && s.span == None && s.m.flags.trailing && Accepts(d)
    ensures Finished(d, Config(s, CRLF + rest), s.(trace := s.trace + [ChunkComplete, MessageComplete]), rest)
  {
    hide Run, ShapeOf, Branch;
    assert CRLF + rest == [CR] + ([LF] + rest);
    EndShape(HEADER_FIELD_START);
    EndEdges(CR, s.m);
    StepSwitch(d, s, CR, [LF] + rest);
    TrailersDone(d, s.(cur := HEADERS_ALMOST_DONE), LF, rest);
  }

  /** After the header of the last chunk the trailers begin. */
  lemma TrailersBegin(d: Policy, s: Core, input: seq<byte>)
    requires s.cur == INVOKE_IS_EQUAL_CONTENT_LENGTH && s.error == 0 && s.m.length == 0
    ensures Run(d, Config(s, input)) ==
      Run(d, Config(s.(cur := HEADER_FIELD_START, m := s.m.(flags := s.m.flags.(trailing := true))), input))
  {
    hide Run, ShapeOf, Goto, Update;
    EndShape(INVOKE_IS_EQUAL_CONTENT_LENGTH);
    EndShape(INVOKE_OR_TRAILING);
    EndGotos(s.m);
    EndUpdates(s.m);
    StepInvoke(d, s, input);
    StepInvoke(d, s.(cur := INVOKE_OR_TRAILING), input);
  }

  /** What is left of content_length before the first chunk does not matter. */
  lemma LengthForgotten(d: Policy, s: Core, input: seq<byte>)
    requires AtChunk(s)
    ensures Run(d, Config(s, input)) == Run(d, Config(s.(m := s.m.(length := 0)), input))
  {
    hide Run, ShapeOf, Goto, Update;
    SilentSize(s.m);
    SilentSize(s.m.(length := 0));
    StepInvoke(d, s, input);
    StepInvoke(d, s.(m := s.m.(length := 0)), input);
  }

  /** Any chunks, and the size line of the empty one that closes them: the trailers begin. */
  lemma ChunksEnd(d: Policy, s: Core, cs: seq<Chunk>, last: Chunk, b: byte, rest: seq<byte>)
    requires AtChunk(s) && Accepts(d) && Sendable(cs) && Sized(last) && Extends(last.ext) && last.data == []
    ensures Run(d, Config(s, EncodeAll(cs) + last.size + last.ext + [CR, b] + rest)) == Run(d, Config(s.(cur := HEADER_FIELD_START,
      m := s.m.(length := 0, flags := s.m.flags.(trailing := true)),
      trace := s.trace + Messages.ShowChunks(Data(cs)) + [ChunkHeader(0)]), rest))
  {
    hide Run, Sized, Extends, Sendable;
    var s0 := s.(m := s.m.(length := 0));
    var tail := last.size + last.ext + [CR, b] + rest;
    assert EncodeAll(cs) + last.size + last.ext + [CR, b] + rest == EncodeAll(cs) + tail;
    LengthForgotten(d, s, EncodeAll(cs) + tail);
    ChunksDecode(d, s0, cs, tail);
    var t := s0.(trace := s.trace + Messages.ShowChunks(Data(cs)));
    SizeLine(d, t, last, b, rest);
    TrailersBegin(d, t.(cur := INVOKE_IS_EQUAL_CONTENT_LENGTH, trace := t.trace + [ChunkHeader(0)]), rest);
  }

  /**
   The round trip: a body of any chunks, closed by an empty one, is decoded to those chunks, each
   with its header and its end, then the end of the last chunk and of the message; and what follows
   the body is not read.
   */
  lemma BodyDecodes(d: Policy, s: Core, cs: seq<Chunk>, last: Chunk, rest: seq<byte>)
    requires AtChunk(s) && Accepts(d) && Sendable(cs) && Sized(last) && Extends(last.ext) && last.data == []
    ensures Finished(d, Config(s, EncodeAll(cs) + Encode(last) + rest),
      s.(m := s.m.(length := 0, flags := s.m.flags.(trailing := true)),
         trace := s.trace + Messages.ShowChunks(Data(cs)) + [ChunkHeader(0), ChunkComplete, MessageComplete]), rest)
  {
    hide Run, Sized, Extends, Sendable;
    assert EncodeAll(cs) + Encode(last) + rest == EncodeAll(cs) + last.size + last.ext + [CR, LF] + (CRLF + rest);
    ChunksEnd(d, s, cs, last, LF, CRLF + rest);
    var u := s.(cur := HEADER_FIELD_START, m := s.m.(length := 0, flags := s.m.flags.(trailing := true)),
                trace := s.trace + Messages.ShowChunks(Data(cs)) + [ChunkHeader(0)]);
    TrailersEnd(d, u, rest);
    assert u.trace + [ChunkComplete, MessageComplete] ==
      s.trace + Messages.ShowChunks(Data(cs)) + [ChunkHeader(0), ChunkComplete, MessageComplete];
  }

  /** The number of hexadecimal digits in front. */
  function Digits(w: seq<byte>): (k: nat)
    ensures k <= |w|
    ensures forall i :: 0 <= i < k ==> IsHex(w[i])
    ensures k < |w| ==> !IsHex(w[k])
  {
    if w == [] || !IsHex(w[0]) then 0 else 1 + Digits(w[1..])
  }

  /** What a size line may be, up to its carriage return. */
  predicate IsSizeLine(w: seq<byte>) {
    && Digits(w) > 0 && Extends(w[Digits(w)..])
    && Value(16, 0, HexDigits(w[..Digits(w)])) <= MAX_UINT64
  }

  lemma BadSizeNodes(n: Node, c: byte)
    ensures n == CHUNK_SIZE_DIGIT ==> ShapeOf(n).Number? && MissOf(n) == FAIL_INVALID_CHUNK_SIZE && (IsDigitOf(n, c) <==> IsHex(c))
    ensures n == CHUNK_SIZE ==> ShapeOf(n).Number? && MissOf(n) == CHUNK_SIZE_OTHERWISE && (IsDigitOf(n, c) <==> IsHex(c))
    ensures n == CHUNK_SIZE_OTHERWISE ==> ShapeOf(n).Switch?
    ensures n == CHUNK_SIZE_OTHERWISE && c != CR && c != SP && c != SEMICOLON ==> Branch(n, c) == Turn(FAIL_INVALID_CHUNK_SIZE, false)
    ensures n == FAIL_INVALID_CHUNK_SIZE ==> ShapeOf(n).Fail? && ErrorOf(n) == HPE_INVALID_CHUNK_SIZE
  {
  }

  /** A byte that may not stand behind the digits of a size, or in their place. */
  lemma BadSizeByte(d: Policy, s: Core, c: byte, rest: seq<byte>)
    requires (s.cur == CHUNK_SIZE_DIGIT || s.cur == CHUNK_SIZE) && s.error == 0 && !IsHex(c)
    requires s.cur == CHUNK_SIZE ==> c != CR && c != SP && c != SEMICOLON
    ensures Run(d, Config(s, [c] + rest)).s.error == HPE_INVALID_CHUNK_SIZE
  {
    hide Run, ShapeOf, Branch, MissOf, IsDigitOf, AfterDigit, TakeDigit, ErrorOf;
    BadSizeNodes(s.cur, c);
    BadSizeNodes(CHUNK_SIZE_OTHERWISE, c);
    BadSizeNodes(FAIL_INVALID_CHUNK_SIZE, c);
    StepNumber(d, s, c, rest);
    if s.cur == CHUNK_SIZE { StepSwitch(d, s.(cur := CHUNK_SIZE_OTHERWISE), c, rest); }
    StepFail(d, s.(cur := FAIL_INVALID_CHUNK_SIZE), [c] + rest);
  }

  /** A size line is read exactly when it is one; any other is refused. */
  lemma SizeLineExactly(d: Policy, s: Core, w: seq<byte>, b: byte, rest: seq<byte>)
    requires AtChunk(s) && Accepts(d) && CR !in w
    ensures var r, n := Run(d, Config(s, w + [CR, b] + rest)), Value(16, 0, HexDigits(w[..Digits(w)]));
      if IsSizeLine(w) then
        r == Run(d, Config(s.(cur := INVOKE_IS_EQUAL_CONTENT_LENGTH, m := s.m.(length := n), trace := s.trace + [ChunkHeader(n)]), rest))
      else r.s.error == HPE_INVALID_CHUNK_SIZE
  {
    hide Run, Value, ShapeOf, Goto, Update, HexDigits, Digits;
    var k := Digits(w);
    var x, y, end := w[..k], w[k..], [CR, b] + rest;
    assert w + [CR, b] + rest == x + (y + end) && x + y == w;
    if IsSizeLine(w) {
      SizeLineAt(d, s, x, y, b, rest);
    } else {
      var t := s.(cur := CHUNK_SIZE_DIGIT, m := s.m.(length := 0));
      SilentSize(s.m);
      StepInvoke(d, s, x + (y + end));
      var tail := y + end;
      assert tail == [tail[0]] + tail[1..];
      if k == 0 {
        assert x + tail == tail;
        BadSizeByte(d, t, tail[0], tail[1..]);
      } else {
        FittingIsLongest(16, MAX_UINT64, 0, HexDigits(x));
        HexRun(d, t, x, tail);
        if Value(16, 0, HexDigits(x)) <= MAX_UINT64 {
          assert y != [] && !Extends(y) && (CR !in y) by { assert forall i :: 0 <= i < |y| ==> y[i] == w[k + i]; }
          BadSizeByte(d, t.(cur := CHUNK_SIZE, m := t.m.(length := Value(16, 0, HexDigits(x)))), tail[0], tail[1..]);
        }
      }
    }
  }

  function HexByte(v: nat): byte
    requires v < 16
  {
    if v < 10 then 48 + v else 87 + v
  }

  /** A size as a sender prints it. */
  function PrintHex(n: nat): (w: seq<byte>)
    ensures w != [] && AllHex(w)
  {
    (if n < 16 then [] else PrintHex(n / 16)) + [HexByte(n % 16)]
  }

  lemma {:induction false} PrintHexValue(n: nat)
    ensures Value(16, 0, HexDigits(PrintHex(n))) == n
  {
    var w := PrintHex(n);
    var ds := HexDigits(w);
    assert ds[|ds| - 1] == n % 16;
    if n >= 16 {
      PrintHexValue(n / 16);
      assert ds[..|ds| - 1] == HexDigits(PrintHex(n / 16));
    } else {
      assert ds[..|ds| - 1] == [];
    }
  }

  /** A chunk as most senders send it. */
  function Plain(data: seq<byte>): Chunk {
    Chunk(PrintHex(|data|), [], data)
  }

  lemma PlainIsSized(data: seq<byte>)
    requires |data| <= MAX_UINT64
    ensures Sized(Plain(data)) && Extends(Plain(data).ext)
  {
    PrintHexValue(|data|);
  }

  function PlainAll(pieces: seq<seq<byte>>): seq<Chunk> {
    seq(|pieces|, i requires 0 <= i < |pieces| => Plain(pieces[i]))
  }

  /** The round trip as most senders send it: any pieces of data, each of at least one byte and of a size that fits. */
  lemma PlainBodyDecodes(d: Policy, s: Core, pieces: seq<seq<byte>>, rest: seq<byte>)
    requires AtChunk(s) && Accepts(d) && forall i :: 0 <= i < |pieces| ==> 0 < |pieces[i]| <= MAX_UINT64
    ensures Finished(d, Config(s, EncodeAll(PlainAll(pieces)) + Encode(Plain([])) + rest),
      s.(m := s.m.(length := 0, flags := s.m.flags.(trailing := true)),
         trace := s.trace + Messages.ShowChunks(pieces) + [ChunkHeader(0), ChunkComplete, MessageComplete]), rest)
  {
    hide Run, Sized, Extends, Finished, AtChunk;
    var cs := PlainAll(pieces);
    forall i | 0 <= i < |cs| ensures Sized(cs[i]) && Extends(cs[i].ext) && cs[i].data != [] {
      PlainIsSized(pieces[i]);
    }
    PlainIsSized([]);
    assert Data(cs) == pieces;
    BodyDecodes(d, s, cs, Plain([]), rest);
  }
}
