/**
 Messages as values, and how a parser shows them. The traces of the grammar are exactly those that
 show a list of messages, or the beginning of one.
 */
module Messages {
  import opened Bytes
  import opened Graph
  import opened Machine
  import opened Grammar

  /** The parser says that a name or a value is complete on some paths only. */
  datatype Field = Field(name: seq<byte>, nameClosed: bool, value: seq<byte>, valueClosed: bool)

  datatype Line = Request(url: seq<byte>) | Response(reason: Option<seq<byte>>)

  datatype Content = Nothing | Identity(bytes: seq<byte>) | Chunked(chunks: seq<seq<byte>>, trailers: seq<Field>)

  datatype Message = Message(line: Line, fields: seq<Field>, content: Content)

  predicate NonEmpty(chunks: seq<seq<byte>>) {
    forall i :: 0 <= i < |chunks| ==> chunks[i] != []
  }

  /** A message whose chunks are not empty: the empty chunk ends the list. */
  predicate Proper(m: Message) {
    m.content.Chunked? ==> NonEmpty(m.content.chunks)
  }

  predicate AllProper(ms: seq<Message>) {
    forall i :: 0 <= i < |ms| ==> Proper(ms[i])
  }

  function ShowField(f: Field): seq<Event> {
    [Piece(OnHeaderField, f.name)] + (if f.nameClosed then [HeaderFieldComplete] else []) +
    [Piece(OnHeaderValue, f.value)] + (if f.valueClosed then [HeaderValueComplete] else [])
  }

  function ShowFields(fs: seq<Field>): seq<Event> {
    if fs == [] then [] else ShowField(fs[0]) + ShowFields(fs[1..])
  }

  function ShowLine(line: Line): seq<Event> {
    match line
    case Request(url) => [Piece(OnUrl, url), UrlComplete]
    case Response(None) => [StatusComplete]
    case Response(Some(reason)) => [Piece(OnStatus, reason), StatusComplete]
  }

  function ShowChunk(c: seq<byte>): seq<Event> {
    [ChunkHeader(|c|), Piece(OnBody, c), ChunkComplete]
  }

  function ShowChunks(chunks: seq<seq<byte>>): seq<Event> {
    if chunks == [] then [] else ShowChunk(chunks[0]) + ShowChunks(chunks[1..])
  }

  function ShowContent(c: Content): seq<Event> {
    match c
    case Nothing => []
    case Identity(bytes) => [Piece(OnBody, bytes)]
    case Chunked(chunks, trailers) => ShowChunks(chunks) + [ChunkHeader(0)] + ShowFields(trailers) + [ChunkComplete]
  }

  function Show(m: Message): seq<Event> {
    [MessageBegin] + ShowLine(m.line) + ShowFields(m.fields) + [HeadersComplete] + ShowContent(m.content) + [MessageComplete]
  }

  function ShowAll(ms: seq<Message>): seq<Event> {
    if ms == [] then [] else Show(ms[0]) + ShowAll(ms[1..])
  }

  /** The phase after `t`, from a phase. */
  function After(p: Phase, t: seq<Event>): Phase
    decreases |t|
  {
    if t == [] then p else After(Step(p, t[0]), t[1..])
  }

  lemma {:induction false} AfterPlus(p: Phase, t: seq<Event>, u: seq<Event>)
    ensures After(p, t + u) == After(After(p, t), u)
    decreases |t|
  {
    if t == [] {
      assert t + u == u;
    } else {
      assert (t + u)[0] == t[0] && (t + u)[1..] == t[1..] + u;
      AfterPlus(Step(p, t[0]), t[1..], u);
    }
  }

  lemma AfterCons(p: Phase, e: Event, t: seq<Event>)
    ensures After(p, [e] + t) == After(Step(p, e), t)
  {
    assert ([e] + t)[1..] == t;
  }

  lemma {:induction false} AfterIsPhase(t: seq<Event>)
    ensures PhaseOf(t) == After(Idle, t)
  {
    if t != [] {
      var u := t[..|t| - 1];
      AfterIsPhase(u);
      AfterPlus(Idle, u, [t[|t| - 1]]);
      assert t == u + [t[|t| - 1]] && [t[|t| - 1]][1..] == [];
    }
  }

  lemma {:induction false} BadStays(t: seq<Event>)
    ensures After(Bad, t) == Bad
  {
    if t != [] { BadStays(t[1..]); }
  }

  lemma FieldShown(f: Field, p: Phase)
    requires p.Fields? || p.Valued?
    ensures After(p, ShowField(f)) == if f.valueClosed then Phase.Fields(p.trailer) else Valued(p.trailer)
  {
    var name, colon := [Piece(OnHeaderField, f.name)], if f.nameClosed then [HeaderFieldComplete] else [];
    var value, end := [Piece(OnHeaderValue, f.value)], if f.valueClosed then [HeaderValueComplete] else [];
    AfterPlus(p, name + colon + value, end);
    AfterPlus(p, name + colon, value);
    AfterPlus(p, name, colon);
  }

  lemma {:induction false} FieldsShown(fs: seq<Field>, p: Phase)
    requires p.Fields? || p.Valued?
    ensures var q := After(p, ShowFields(fs)); (q.Fields? || q.Valued?) && q.trailer == p.trailer
    decreases |fs|
  {
    if fs != [] {
      FieldShown(fs[0], p);
      AfterPlus(p, ShowField(fs[0]), ShowFields(fs[1..]));
      FieldsShown(fs[1..], After(p, ShowField(fs[0])));
    }
  }

  lemma ChunkShown(c: seq<byte>, p: Phase)
    requires (p.Ready? || p.BetweenChunks?) && c != []
    ensures After(p, ShowChunk(c)) == BetweenChunks
  {
    assert ShowChunk(c)[1..] == [Piece(OnBody, c), ChunkComplete];
    assert [Piece(OnBody, c), ChunkComplete][1..] == [ChunkComplete];
    assert [ChunkComplete][1..] == [];
    assert Step(p, ChunkHeader(|c|)) == Chunk(|c|);
    assert Step(Chunk(|c|), Piece(OnBody, c)) == ChunkData(|c|, |c|);
    assert After(ChunkData(|c|, |c|), [ChunkComplete]) == After(BetweenChunks, []);
  }

  lemma {:induction false} ChunksShown(chunks: seq<seq<byte>>, p: Phase)
    requires (p.Ready? || p.BetweenChunks?) && NonEmpty(chunks)
    ensures var q := After(p, ShowChunks(chunks)); q.Ready? || q.BetweenChunks?
    decreases |chunks|
  {
    if chunks != [] {
      ChunkShown(chunks[0], p);
      AfterPlus(p, ShowChunk(chunks[0]), ShowChunks(chunks[1..]));
      ChunksShown(chunks[1..], BetweenChunks);
    }
  }

  lemma ContentShown(c: Content)
    requires c.Chunked? ==> NonEmpty(c.chunks)
    ensures var q := After(Ready, ShowContent(c)); q.Ready? || q.Body? || q.LastDone?
  {
    if c.Chunked? {
      var a, b := ShowChunks(c.chunks), ShowFields(c.trailers);
      ChunksShown(c.chunks, Ready);
      AfterPlus(Ready, a + [ChunkHeader(0)] + b, [ChunkComplete]);
      AfterPlus(Ready, a + [ChunkHeader(0)], b);
      AfterPlus(Ready, a, [ChunkHeader(0)]);
      FieldsShown(c.trailers, Phase.Fields(true));
    }
  }

  lemma LineShown(line: Line)
    ensures After(Begun, ShowLine(line)) == Phase.Fields(false)
  {
    match line
    case Request(url) =>
      AfterCons(Begun, Piece(OnUrl, url), [UrlComplete]);
      AfterCons(Target, UrlComplete, []);
    case Response(None) => AfterCons(Begun, StatusComplete, []);
    case Response(Some(reason)) =>
      AfterCons(Begun, Piece(OnStatus, reason), [StatusComplete]);
      AfterCons(Reason, StatusComplete, []);
  }

  lemma MessageShown(m: Message)
    requires Proper(m)
    ensures After(Idle, Show(m)) == Idle
  {
    var a, b, c := ShowLine(m.line), ShowFields(m.fields), ShowContent(m.content);
    AfterPlus(Idle, [MessageBegin] + a + b + [HeadersComplete] + c, [MessageComplete]);
    AfterPlus(Idle, [MessageBegin] + a + b + [HeadersComplete], c);
    AfterPlus(Idle, [MessageBegin] + a + b, [HeadersComplete]);
    AfterPlus(Idle, [MessageBegin] + a, b);
    AfterPlus(Idle, [MessageBegin], a);
    LineShown(m.line);
    FieldsShown(m.fields, Phase.Fields(false));
    ContentShown(m.content);
  }

  /** What shows proper messages is in the grammar, and ends between two messages. */
  lemma {:induction false} MessagesShown(ms: seq<Message>)
    requires AllProper(ms)
    ensures After(Idle, ShowAll(ms)) == Idle
  {
    if ms != [] {
      MessageShown(ms[0]);
      AfterPlus(Idle, Show(ms[0]), ShowAll(ms[1..]));
      MessagesShown(ms[1..]);
    }
  }

  /** The first event of a trace that can still end well. */
  lemma Next(p: Phase, t: seq<Event>) returns (e: Event, rest: seq<Event>)
    requires After(p, t) == Idle && p != Idle
    ensures t == [e] + rest && !Step(p, e).Bad? && After(Step(p, e), rest) == Idle
  {
    e, rest := t[0], t[1..];
    if Step(p, e).Bad? { BadStays(rest); }
  }

  /** The phases in which a field may begin: the last event does not wait for the end of a value. */
  predicate AtField(p: Phase, t: seq<Event>) {
    (p.Fields? || p.Valued?) && (p.Valued? ==> t == [] || t[0] != HeaderValueComplete)
  }

  lemma ReadField(p: Phase, t: seq<Event>) returns (f: Field, rest: seq<Event>, q: Phase)
    requires After(p, t) == Idle && AtField(p, t) && t[0].Piece?
    ensures t == ShowField(f) + rest && After(q, rest) == Idle && AtField(q, rest) && q.trailer == p.trailer
    ensures |rest| < |t|
  {
    hide After;
    var name, r1 := Next(p, t);
    var e, r2 := Next(Named(p.trailer), r1);
    var closed, value, r3 := e == HeaderFieldComplete, e, r2;
    if closed {
      value, r3 := Next(NameClosed(p.trailer), r2);
    }
    var end, r4 := Next(Valued(p.trailer), r3);
    f := Field(name.bytes, closed, value.bytes, end == HeaderValueComplete);
    if end == HeaderValueComplete {
      rest, q := r4, Phase.Fields(p.trailer);
    } else {
      rest, q := r3, Valued(p.trailer);
    }
  }

  lemma {:induction false} ReadFields(p: Phase, t: seq<Event>) returns (fs: seq<Field>, rest: seq<Event>)
    requires After(p, t) == Idle && AtField(p, t)
    ensures t == ShowFields(fs) + [if p.trailer then ChunkComplete else HeadersComplete] + rest
    ensures After(if p.trailer then LastDone else Ready, rest) == Idle && |rest| < |t|
    decreases |t|
  {
    var e, r := Next(p, t);
    if e.Piece? {
      var f, more, q := ReadField(p, t);
      var gs, end := ReadFields(q, more);
      fs, rest := [f] + gs, end;
      assert fs[0] == f && fs[1..] == gs;
    } else {
      fs, rest := [], r;
    }
  }

  lemma ReadChunk(p: Phase, t: seq<Event>) returns (data: seq<byte>, rest: seq<Event>)
    requires After(p, t) == Idle && (p.Ready? || p.BetweenChunks?) && t[0].ChunkHeader? && t[0].size > 0
    ensures data != [] && t == ShowChunk(data) + rest && After(BetweenChunks, rest) == Idle && rest[0].ChunkHeader?
  {
    hide After;
    var header, r1 := Next(p, t);
    var piece, r2 := Next(Chunk(header.size), r1);
    var end, r3 := Next(ChunkData(header.size, |piece.bytes|), r2);
    var e, r4 := Next(BetweenChunks, r3);
    data, rest := piece.bytes, r3;
  }

  lemma {:induction false} ReadChunks(p: Phase, t: seq<Event>) returns (chunks: seq<seq<byte>>, rest: seq<Event>)
    requires After(p, t) == Idle && (p.Ready? || p.BetweenChunks?) && t[0].ChunkHeader?
    ensures NonEmpty(chunks) && t == ShowChunks(chunks) + ([ChunkHeader(0)] + rest)
    ensures After(Phase.Fields(true), rest) == Idle && |rest| < |t|
    decreases |t|
  {
    if t[0].size == 0 {
      var header, r1 := Next(p, t);
      chunks, rest := [], r1;
    } else {
      var data, r := ReadChunk(p, t);
      var more, tail := ReadChunks(BetweenChunks, r);
      chunks, rest := [data] + more, tail;
      hide After, Step, ShowChunk;
      assert chunks[0] == data && chunks[1..] == more;
    }
  }

  lemma JoinContent(a: seq<Event>, x: Event, b: seq<Event>, y: Event, r: seq<Event>)
    ensures a + ([x] + (b + [y] + r)) == (a + [x] + b + [y]) + r
  {
  }

  lemma ReadChunked(t: seq<Event>) returns (c: Content, rest: seq<Event>)
    requires After(Ready, t) == Idle && t[0].ChunkHeader?
    ensures c.Chunked? && NonEmpty(c.chunks) && t == ShowContent(c) + rest
    ensures After(LastDone, rest) == Idle && |rest| < |t|
  {
    var chunks, r1 := ReadChunks(Ready, t);
    var trailers, r2 := ReadFields(Phase.Fields(true), r1);
    c, rest := Chunked(chunks, trailers), r2;
    hide After, Step, ShowChunks, ShowFields;
    JoinContent(ShowChunks(chunks), ChunkHeader(0), ShowFields(trailers), ChunkComplete, r2);
  }

  lemma ReadContent(t: seq<Event>) returns (c: Content, rest: seq<Event>)
    requires After(Ready, t) == Idle
    ensures (c.Chunked? ==> NonEmpty(c.chunks)) && t == ShowContent(c) + ([MessageComplete] + rest)
    ensures After(Idle, rest) == Idle && |rest| < |t|
  {
    hide After, ShowChunks, ShowFields, NonEmpty;
    var e, r := Next(Ready, t);
    if e.MessageComplete? {
      c, rest := Nothing, r;
    } else if e.Piece? {
      var end, r1 := Next(Body, r);
      c, rest := Identity(e.bytes), r1;
    } else {
      var content, r1 := ReadChunked(t);
      var end, r2 := Next(LastDone, r1);
      c, rest := content, r2;
    }
  }

  lemma ReadLine(t: seq<Event>) returns (line: Line, rest: seq<Event>)
    requires After(Begun, t) == Idle
    ensures t == ShowLine(line) + rest && After(Phase.Fields(false), rest) == Idle && |rest| < |t|
  {
    var e, r := Next(Begun, t);
    if e.StatusComplete? {
      line, rest := Response(None), r;
    } else {
      var end, r1 := Next(if e.kind == OnUrl then Target else Reason, r);
      line, rest := if e.kind == OnUrl then Request(e.bytes) else Response(Some(e.bytes)), r1;
    }
  }

  lemma JoinMessage(a: Event, b: seq<Event>, c: seq<Event>, d: Event, e: seq<Event>, f: Event, r: seq<Event>)
    ensures [a] + (b + (c + [d] + (e + ([f] + r)))) == ([a] + b + c + [d] + e + [f]) + r
  {
  }

  lemma ReadMessage(t: seq<Event>) returns (m: Message, rest: seq<Event>)
    requires After(Idle, t) == Idle && t != []
    ensures Proper(m) && t == Show(m) + rest && After(Idle, rest) == Idle && |rest| < |t|
  {
    var r := t[1..];
    if Step(Idle, t[0]).Bad? { BadStays(r); }
    var line, r1 := ReadLine(r);
    var fields, r2 := ReadFields(Phase.Fields(false), r1);
    var content, r3 := ReadContent(r2);
    m, rest := Message(line, fields, content), r3;
    assert t == [MessageBegin] + r;
    hide After, Step, ShowLine, ShowFields, ShowContent;
    JoinMessage(MessageBegin, ShowLine(line), ShowFields(fields), HeadersComplete, ShowContent(content), MessageComplete, r3);
  }

  /** A trace in the grammar that ends between two messages shows a list of proper messages. */
  lemma {:induction false} ReadMessages(t: seq<Event>) returns (ms: seq<Message>)
    requires After(Idle, t) == Idle
    ensures AllProper(ms) && t == ShowAll(ms)
    decreases |t|
  {
    if t == [] {
      ms := [];
    } else {
      var m, r := ReadMessage(t);
      var more := ReadMessages(r);
      ms := [m] + more;
      assert ms[0] == m && ms[1..] == more;
    }
  }

  ghost predicate Shows(t: seq<Event>) {
    exists ms :: AllProper(ms) && t == ShowAll(ms)
  }

  /** The automaton and the messages agree. */
  lemma WholeMessages(t: seq<Event>)
    ensures PhaseOf(t) == Idle <==> Shows(t)
  {
    AfterIsPhase(t);
    if PhaseOf(t) == Idle {
      var ms := ReadMessages(t);
    }
    if Shows(t) {
      var ms :| AllProper(ms) && t == ShowAll(ms);
      MessagesShown(ms);
    }
  }

  /** The shortest way on to the end of the message, once the chunk at hand is whole. */
  function Onward(p: Phase): Event {
    match p
    case Begun => StatusComplete
    case Target => UrlComplete
    case Reason => StatusComplete
    case Fields(trailer) => if trailer then ChunkComplete else HeadersComplete
    case Valued(trailer) => if trailer then ChunkComplete else HeadersComplete
    case Named(_) => Piece(OnHeaderValue, [])
    case NameClosed(_) => Piece(OnHeaderValue, [])
    case Chunk(size) => Piece(OnBody, seq(size, _ => 0))
    case ChunkData(_, _) => ChunkComplete
    case BetweenChunks => ChunkHeader(0)
    case _ => MessageComplete
  }

  function Distance(p: Phase): nat {
    match p
    case Idle => 0
    case Bad => 0
    case Ready => 1
    case Body => 1
    case LastDone => 1
    case Fields(_) => 2
    case Valued(_) => 2
    case Named(_) => 3
    case NameClosed(_) => 3
    case BetweenChunks => 3
    case ChunkData(_, _) => 4
    case Chunk(_) => 5
    case _ => 4
  }

  predicate Whole(p: Phase) {
    !p.Bad? && (p.ChunkData? ==> p.got == p.size)
  }

  function Remains(p: Phase): seq<Event>
    requires Whole(p)
    decreases Distance(p)
  {
    if p == Idle then [] else [Onward(p)] + Remains(Step(p, Onward(p)))
  }

  lemma {:induction false} RemainsEnds(p: Phase)
    requires Whole(p)
    ensures After(p, Remains(p)) == Idle
    decreases Distance(p)
  {
    if p != Idle {
      RemainsEnds(Step(p, Onward(p)));
      AfterCons(p, Onward(p), Remains(Step(p, Onward(p))));
    }
  }

  /** The trace with `w` more bytes of the body piece at its end, if there is one. */
  function Fill(t: seq<Event>, w: seq<byte>): seq<Event> {
    if EndsWithPiece(t, OnBody) then Add(t, Piece(OnBody, w)) else t
  }

  lemma FillPhase(t: seq<Event>, w: seq<byte>)
    ensures PhaseOf(Fill(t, w)) == if EndsWithPiece(t, OnBody) then Extend(PhaseOf(t), |w|) else PhaseOf(t)
  {
    if EndsWithPiece(t, OnBody) { PhaseAdd(t, Piece(OnBody, w)); }
  }

  /** Some messages begin like this, the body piece at the end being perhaps not whole. */
  ghost predicate Begins(t: seq<Event>) {
    exists w: seq<byte>, more: seq<Event> :: Shows(Fill(t, w) + more)
  }

  /** The traces inside the grammar are the beginnings of the traces that show messages. */
  lemma Prefixes(t: seq<Event>)
    ensures !PhaseOf(t).Bad? <==> Begins(t)
  {
    if !PhaseOf(t).Bad? {
      var p := PhaseOf(t);
      var w: seq<byte> := if p.ChunkData? then seq(p.size - p.got, _ => 0) else [];
      FillPhase(t, w);
      var u := Fill(t, w);
      var more := Remains(PhaseOf(u));
      RemainsEnds(PhaseOf(u));
      AfterIsPhase(u);
      AfterPlus(Idle, u, more);
      AfterIsPhase(u + more);
      WholeMessages(u + more);
    }
    if Begins(t) {
      var w: seq<byte>, more: seq<Event> :| Shows(Fill(t, w) + more);
      var u := Fill(t, w);
      WholeMessages(u + more);
      AfterIsPhase(u + more);
      AfterPlus(Idle, u, more);
      AfterIsPhase(u);
      if PhaseOf(t).Bad? {
        FillPhase(t, w);
        BadStays(more);
      }
    }
  }

  /** What fits shows the beginning of messages, and whole messages when a message may start. */
  lemma FitsShows(s: Core)
    requires Fits(s)
    ensures Begins(s.trace)
    ensures s.cur == START ==> Shows(s.trace)
  {
    FitsIsGood(s);
    Prefixes(s.trace);
    WholeMessages(s.trace);
  }

  /** From the fresh parser, on any stream and whatever the user answers, the callbacks show messages. */
  lemma RunShows(d: Policy, typ: nat, input: seq<byte>)
    ensures var s := Run(d, Config(Fresh(typ), input)).s;
      Begins(s.trace) && (s.error == 0 && s.cur == START ==> Shows(s.trace))
  {
    hide Run, Begins, Shows;
    RunFits(d, Config(Fresh(typ), input));
    FitsShows(Run(d, Config(Fresh(typ), input)).s);
  }

  /** The request line, which is read elsewhere, does not leave the grammar. */
  lemma RequestLineFits(s: Core, verb: nat, major: nat, minor: nat, url: seq<byte>)
    requires AtRequestLine(s) && Fits(s)
    ensures Fits(AfterRequestLine(s, verb, major, minor, url))
  {
    hide PhaseOf, Add;
    PhaseAdd(s.trace, Piece(OnUrl, url));
    PhaseAdd(Add(s.trace, Piece(OnUrl, url)), UrlComplete);
    if EndsWithPiece(s.trace, OnUrl) { UrlPhase(s.trace); }
  }

  lemma UrlPhase(t: seq<Event>)
    requires EndsWithPiece(t, OnUrl)
    ensures PhaseOf(t).Target? || PhaseOf(t).Bad?
  {
  }
}
