/**
 The grammar of the callbacks: in which order, and with how many bytes, they come. `PhaseOf` reads a
 trace with its pieces glued; every run of the machine stays inside the grammar, whatever the user
 answers.
 */
module Grammar {
  import opened Bytes
  import opened Graph
  import opened Machine
  import opened Soundness
  import opened Strides

  /**
   How far a message has been reported. `trailer` tells the fields after the last chunk from those
   in the header. A chunk of `size` bytes has had `got` of them reported.
   */
  datatype Phase =
    | Idle
    | Begun | Target | Reason
    | Fields(trailer: bool) | Named(trailer: bool) | NameClosed(trailer: bool) | Valued(trailer: bool)
    | Ready
    | Body
    | Chunk(size: nat) | ChunkData(size: nat, got: nat) | BetweenChunks
    | LastDone
    | Bad

  function Step(p: Phase, e: Event): Phase {
    match e
    case MessageBegin => if p.Idle? then Begun else Bad
    case UrlComplete => if p.Target? then Phase.Fields(false) else Bad
    case StatusComplete => if p.Begun? || p.Reason? then Phase.Fields(false) else Bad
    case HeaderFieldComplete => if p.Named? then NameClosed(p.trailer) else Bad
    case HeaderValueComplete => if p.Valued? then Phase.Fields(p.trailer) else Bad
    case HeadersComplete => if (p.Fields? || p.Valued?) && !p.trailer then Ready else Bad
    case ChunkHeader(size) =>
      if !p.Ready? && !p.BetweenChunks? then Bad
      else if size == 0 then Phase.Fields(true)
      else Chunk(size)
    case ChunkComplete =>
      if p.ChunkData? && p.got == p.size then BetweenChunks
      else if (p.Fields? || p.Valued?) && p.trailer then LastDone
      else Bad
    case MessageComplete => if p.Ready? || p.Body? || p.LastDone? then Idle else Bad
    case Piece(kind, bytes) =>
      match kind
      case OnUrl => if p.Begun? then Target else Bad
      case OnStatus => if p.Begun? then Reason else Bad
      case OnHeaderField => if p.Fields? || p.Valued? then Named(p.trailer) else Bad
      case OnHeaderValue => if p.Named? || p.NameClosed? then Valued(p.trailer) else Bad
      case OnBody =>
        if p.Ready? then Body
        else if p.Chunk? && |bytes| <= p.size then ChunkData(p.size, |bytes|)
        else Bad
  }

  function PhaseOf(t: seq<Event>): Phase {
    if t == [] then Idle else Step(PhaseOf(t[..|t| - 1]), t[|t| - 1])
  }

  lemma PhaseSnoc(t: seq<Event>, e: Event)
    ensures PhaseOf(t + [e]) == Step(PhaseOf(t), e)
  {
    assert (t + [e])[..|t|] == t;
  }

  /** More bytes of the piece that was last reported. */
  function Extend(p: Phase, n: nat): Phase {
    if p.ChunkData? then if p.got + n <= p.size then ChunkData(p.size, p.got + n) else Bad else p
  }

  lemma PhaseAdd(t: seq<Event>, e: Event)
    ensures PhaseOf(Add(t, e)) ==
      if e.Piece? && EndsWithPiece(t, e.kind) then Extend(PhaseOf(t), |e.bytes|) else Step(PhaseOf(t), e)
  {
    if e.Piece? && EndsWithPiece(t, e.kind) {
      PhaseSnoc(t[..|t| - 1], Piece(e.kind, t[|t| - 1].bytes + e.bytes));
    } else {
      PhaseSnoc(t, e);
    }
  }

  // Where the machine is in the grammar. ANYWHERE and INSIDE, which is within a message, are for the errors.
  const ANYWHERE := 0
  const IDLE := 1
  const BEGUN := 2
  const REASON := 3
  const LINE_END := 4
  const FIELDS := 5
  const NAME := 6
  const COLON_SEEN := 7
  const VALUE_START := 8
  const VALUE := 9
  const HEADERS_END := 10
  const TRAILERS_END := 11
  const READY := 12
  const SIZE := 13
  const SIZED := 14
  const LAST_CHUNK := 15
  const CHUNK_START := 16
  const CHUNK_DATA := 17
  const CHUNK_END := 18
  const BODY := 19
  const MESSAGE_END := 20
  const DONE := 21
  const INSIDE := 22

  function Place(n: Node): nat {
    if SPAN_END_STATUS <= n <= RES_STATUS then REASON
    else if SPAN_END_HEADER_FIELD_1 <= n <= INVOKE_STORE_HEADER_STATE_4 then NAME
    else if SPAN_END_HEADER_VALUE <= n <= HEADER_VALUE_TE_TOKEN_OWS then VALUE
    else if n <= FAIL_CB_CHUNK_COMPLETE && n != START_REQ && n != REQ_FIRST_SPACE_BEFORE_URL then
      (if n == DEAD || n == FAIL_CB_MESSAGE_COMPLETE then ANYWHERE else INSIDE)
    else match n
      case START => IDLE
      case INVOKE_UPDATE_FINISH => IDLE
      case ON_MESSAGE_BEGIN => IDLE
      case RES_LINE_ALMOST_DONE => LINE_END
      case ON_STATUS_COMPLETE => LINE_END
      case HEADER_FIELD_START => FIELDS
      case SPAN_START_HEADER_FIELD => FIELDS
      case HEADERS_ALMOST_DONE => FIELDS
      case INVOKE_TEST_FLAGS => FIELDS
      case ON_HEADER_FIELD_COMPLETE => NAME
      case HEADER_VALUE_DISCARD_WS => COLON_SEEN
      case HEADER_VALUE_DISCARD_WS_ALMOST_DONE => COLON_SEEN
      case HEADER_VALUE_DISCARD_LWS => COLON_SEEN
      case INVOKE_LOAD_HEADER_STATE => COLON_SEEN
      case SPAN_START_HEADER_VALUE => COLON_SEEN
      case SPAN_START_HEADER_VALUE_1 => VALUE_START
      case HEADER_VALUE_ALMOST_DONE => VALUE
      case HEADER_VALUE_LWS => VALUE
      case INVOKE_LOAD_HEADER_STATE_3 => VALUE
      case ON_HEADER_VALUE_COMPLETE => VALUE
      case INVOKE_BEFORE_HEADERS_COMPLETE => HEADERS_END
      case ON_HEADERS_COMPLETE => HEADERS_END
      case ON_CHUNK_COMPLETE_1 => TRAILERS_END
      case INVOKE_SKIP_BODY => READY
      case INVOKE_SKIP_FOR_UPGRADE => READY
      case INVOKE_AFTER_HEADERS_COMPLETE => READY
      case SPAN_START_BODY_1 => READY
      case INVOKE_UPDATE_FINISH_2 => READY
      case SPAN_START_BODY_2 => READY
      case ON_MESSAGE_COMPLETE => READY
      case ON_MESSAGE_COMPLETE_1 => READY
      case INVOKE_UPDATE_CONTENT_LENGTH => SIZE
      case CHUNK_SIZE_DIGIT => SIZE
      case CHUNK_SIZE => SIZE
      case CHUNK_SIZE_OTHERWISE => SIZE
      case CHUNK_PARAMETERS => SIZE
      case CHUNK_SIZE_ALMOST_DONE => SIZE
      case ON_CHUNK_HEADER => SIZE
      case INVOKE_IS_EQUAL_CONTENT_LENGTH => SIZED
      case INVOKE_OR_TRAILING => LAST_CHUNK
      case SPAN_START_BODY => CHUNK_START
      case CONSUME_CONTENT_LENGTH => CHUNK_DATA
      case SPAN_END_BODY => CHUNK_END
      case CHUNK_DATA_ALMOST_DONE => CHUNK_END
      case CHUNK_DATA_ALMOST_DONE_SKIP => CHUNK_END
      case ON_CHUNK_COMPLETE => CHUNK_END
      case CONSUME_CONTENT_LENGTH_1 => BODY
      case SPAN_END_BODY_1 => BODY
      case EOF => BODY
      case ON_MESSAGE_COMPLETE_2 => MESSAGE_END
      case INVOKE_IS_EQUAL_UPGRADE => DONE
      case PAUSE_UPGRADE => DONE
      case INVOKE_AFTER_MESSAGE_COMPLETE => DONE
      case _ => BEGUN
  }

  /** The phases that a place stands for, with the F_TRAILING flag and the bytes left of a chunk. */
  predicate Allows(place: nat, p: Phase, trailing: bool, length: nat) {
    match place
    case ANYWHERE => !p.Bad?
    case IDLE => p.Idle? && !trailing
    case BEGUN => p.Begun? && !trailing
    case REASON => p.Reason? && !trailing
    case LINE_END => (p.Begun? || p.Reason?) && !trailing
    case FIELDS => (p.Fields? || p.Valued?) && p.trailer == trailing
    case NAME => p.Named? && p.trailer == trailing
    case COLON_SEEN => (p.Named? || p.NameClosed?) && p.trailer == trailing
    case VALUE_START => (p.Named? || p.NameClosed? || p.Valued?) && p.trailer == trailing
    case VALUE => p.Valued? && p.trailer == trailing
    case HEADERS_END => (p.Fields? || p.Valued?) && !p.trailer && !trailing
    case TRAILERS_END => (p.Fields? || p.Valued?) && p.trailer
    case READY => p.Ready? && !trailing
    case SIZE => (p.Ready? || p.BetweenChunks?) && !trailing
    case SIZED => !trailing && p == (if length == 0 then Phase.Fields(true) else Chunk(length))
    case LAST_CHUNK => p == Phase.Fields(true)
    case CHUNK_START => !trailing && length > 0 && p == Chunk(length)
    case CHUNK_DATA => !trailing && p.ChunkData? && p.got + length == p.size
    case CHUNK_END => !trailing && p.ChunkData? && p.got == p.size
    case BODY => p.Body?
    case MESSAGE_END => p.Body? || p.LastDone?
    case DONE => p.Idle?
    case INSIDE => !p.Bad? && !p.Idle?
    case _ => false
  }

  /** The callbacks made so far fit the node that the machine is at. */
  ghost predicate Fits(s: Core) {
    Allows(Place(s.cur), PhaseOf(s.trace), s.m.flags.trailing, s.m.length)
  }

  /** A place that stands for all that another stands for. */
  predicate Widens(p: nat, q: nat) {
    || p == q || q == ANYWHERE || (q == INSIDE && p != ANYWHERE && p != IDLE && p != DONE)
    || (p == BEGUN && q == LINE_END) || (p == REASON && q == LINE_END)
    || (p == NAME && q == COLON_SEEN) || (p == COLON_SEEN && q == VALUE_START)
    || (p == VALUE && q == VALUE_START) || (p == VALUE && q == FIELDS)
    || (p == READY && q == SIZE) || (p == BODY && q == MESSAGE_END)
  }

  lemma WidensAllows(p: nat, q: nat, ph: Phase, trailing: bool, length: nat)
    requires Widens(p, q) && Allows(p, ph, trailing, length)
    ensures Allows(q, ph, trailing, length)
  {
  }

  /** A node with no chunk data in hand. */
  predicate Idles(n: Node) {
    Place(n) != ANYWHERE && Place(n) != INSIDE && Place(n) != CHUNK_DATA && (Place(n) == CHUNK_END ==> SpanOf(n) == None)
  }

  lemma ReaderIdles(n: Node)
    requires ShapeOf(n).Switch? || ShapeOf(n).Number? || ShapeOf(n).Match?
    ensures Idles(n)
  {
  }

  lemma StartBranchWidens(n: Node, c: byte)
    requires ShapeOf(n).Switch? && n <= REQ_OR_RES_METHOD_1
    ensures Widens(Place(n), Place(Branch(n, c).next))
  {
  }

  lemma LineBranchWidens(n: Node, c: byte)
    requires ShapeOf(n).Switch? && REQ_OR_RES_METHOD_1 < n <= RES_LINE_ALMOST_DONE
    ensures Widens(Place(n), Place(Branch(n, c).next))
  {
  }

  lemma NameBranchWidens(n: Node, c: byte)
    requires ShapeOf(n).Switch? && RES_LINE_ALMOST_DONE < n <= HEADER_FIELD_START
    ensures Widens(Place(n), Place(Branch(n, c).next))
  {
  }

  lemma TailBranchWidens(n: Node, c: byte)
    requires ShapeOf(n).Switch? && n > HEADER_FIELD_START
    ensures Widens(Place(n), Place(Branch(n, c).next))
  {
  }

  lemma BranchWidens(n: Node, c: byte)
    requires ShapeOf(n).Switch?
    ensures Widens(Place(n), Place(Branch(n, c).next))
  {
    hide ShapeOf, Place, Branch, Idles;
    if n <= REQ_OR_RES_METHOD_1 {
      StartBranchWidens(n, c);
    } else if n <= RES_LINE_ALMOST_DONE {
      LineBranchWidens(n, c);
    } else if n <= HEADER_FIELD_START {
      NameBranchWidens(n, c);
    } else {
      TailBranchWidens(n, c);
    }
  }

  lemma NoDigitWidens(n: Node)
    requires ShapeOf(n).Number?
    ensures Widens(Place(n), Place(MissOf(n)))
    ensures Place(n) == BEGUN || Place(n) == VALUE || Place(n) == SIZE
  {
  }

  lemma DigitWidens(n: Node, m: Fields, c: byte)
    requires ShapeOf(n).Number? && IsDigitOf(n, c)
    ensures Widens(Place(n), Place(AfterDigit(n, m, c))) && TakeDigit(n, m, c).flags == m.flags
  {
    hide MulAdd10, MulAdd16, HexValue;
  }

  lemma NumberBlind(place: nat, p: Phase, trailing: bool, x: nat, y: nat)
    requires place == ANYWHERE || place == BEGUN || place == VALUE || place == SIZE
    requires Allows(place, p, trailing, x)
    ensures Allows(place, p, trailing, y)
  {
  }

  lemma WholeWidens(n: Node)
    requires ShapeOf(n).Match?
    ensures Widens(Place(n), Place(NextOf(n)))
  {
  }

  lemma BrokenWidens(n: Node)
    requires ShapeOf(n).Match?
    ensures Widens(Place(n), Place(MissOf(n)))
  {
  }

  lemma NameCloseWidens(n: Node)
    requires ShapeOf(n).Close? && n <= SPAN_END_HEADER_FIELD
    ensures Widens(Place(n), Place(NextOf(n)))
  {
  }

  lemma ValueCloseWidens(n: Node)
    requires ShapeOf(n).Close? && n > SPAN_END_HEADER_FIELD
    ensures Widens(Place(n), Place(NextOf(n)))
  {
  }

  lemma CloseWidens(n: Node)
    requires ShapeOf(n).Close?
    ensures Widens(Place(n), Place(NextOf(n)))
  {
    hide ShapeOf, Place, NextOf;
    if n <= SPAN_END_HEADER_FIELD {
      NameCloseWidens(n);
    } else {
      ValueCloseWidens(n);
    }
  }

  lemma IdlesIsNoError(n: Node)
    requires Idles(n)
    ensures !IsError(n)
  {
  }

  /** Bytes that go by, but for those of a chunk, are more of the same piece. */
  lemma TakeFits(s: Core, c: byte)
    requires Fits(s) && SpanShown(s) && Idles(s.cur) && (IsError(s.cur) || s.span == SpanOf(s.cur))
    ensures PhaseOf(Take(s, c).trace) == PhaseOf(s.trace)
  {
    hide Place, PhaseOf, Add;
    IdlesIsNoError(s.cur);
    if s.span.Some? { PhaseAdd(s.trace, Piece(s.span.value, [c])); }
  }

  lemma SwitchFits(d: Policy, k: Config)
    requires !Halted(k) && Sound(k) && Fits(k.s) && ShapeOf(k.s.cur).Switch?
    ensures Fits(Tick(d, k).s)
  {
    hide ShapeOf, Place, Branch, Idles, PhaseOf, Add, Widens, Allows;
    var n, t := k.s.cur, Branch(k.s.cur, k.input[0]);
    ReaderIdles(n);
    BranchWidens(n, k.input[0]);
    TakeFits(k.s, k.input[0]);
    WidensAllows(Place(n), Place(t.next), PhaseOf(k.s.trace), k.s.m.flags.trailing, k.s.m.length);
  }

  lemma NumberFits(d: Policy, k: Config)
    requires !Halted(k) && Sound(k) && Fits(k.s) && ShapeOf(k.s.cur).Number?
    ensures Fits(Tick(d, k).s)
  {
    hide ShapeOf, Place, AfterDigit, TakeDigit, MissOf, IsDigitOf, Idles, PhaseOf, Add, Widens, Allows;
    var n, s, t := k.s.cur, k.s, Tick(d, k).s;
    ReaderIdles(n);
    NoDigitWidens(n);
    if IsDigitOf(n, k.input[0]) { DigitWidens(n, s.m, k.input[0]); }
    TakeFits(s, k.input[0]);
    WidensAllows(Place(n), Place(t.cur), PhaseOf(s.trace), s.m.flags.trailing, s.m.length);
    if t.m != s.m {
      NumberBlind(Place(n), PhaseOf(s.trace), s.m.flags.trailing, s.m.length, t.m.length);
      WidensAllows(Place(n), Place(t.cur), PhaseOf(s.trace), s.m.flags.trailing, t.m.length);
    }
  }

  lemma MatchFits(d: Policy, k: Config)
    requires !Halted(k) && Sound(k) && Fits(k.s) && ShapeOf(k.s.cur).Match?
    ensures Fits(Tick(d, k).s)
  {
    hide ShapeOf, Place, NextOf, MissOf, WordOf, FoldOf, Idles, PhaseOf, Add, Widens, Allows;
    var n, s, t := k.s.cur, k.s, Tick(d, k).s;
    ReaderIdles(n);
    WholeWidens(n);
    BrokenWidens(n);
    TakeFits(s, k.input[0]);
    if t.cur != n { WidensAllows(Place(n), Place(t.cur), PhaseOf(s.trace), s.m.flags.trailing, s.m.length); }
  }

  lemma CloseFits(d: Policy, k: Config)
    requires !Halted(k) && Sound(k) && Fits(k.s) && ShapeOf(k.s.cur).Close?
    ensures Fits(Tick(d, k).s)
  {
    hide ShapeOf, Place, NextOf, PhaseOf, Widens, Allows, Skips;
    CloseWidens(k.s.cur);
    WidensAllows(Place(k.s.cur), Place(NextOf(k.s.cur)), PhaseOf(k.s.trace), k.s.m.flags.trailing, k.s.m.length);
  }

  lemma ConsumePlaces(n: Node)
    requires ShapeOf(n).Consume?
    ensures SpanOf(n) == Some(OnBody) && !IsError(n)
    ensures (Place(n) == CHUNK_DATA && Place(NextOf(n)) == CHUNK_END) || (Place(n) == BODY && Place(NextOf(n)) == BODY)
  {
  }

  /** One byte of a body. */
  lemma ConsumeStep(place: nat, p: Phase, trailing: bool, length: nat)
    requires place == CHUNK_DATA || place == BODY
    requires Allows(place, p, trailing, length) && length > 0
    ensures Allows(place, Extend(p, 1), trailing, length - 1)
  {
  }

  lemma ConsumeDone(place: nat, next: nat, p: Phase, trailing: bool)
    requires (place == CHUNK_DATA && next == CHUNK_END) || (place == BODY && next == BODY)
    requires Allows(place, p, trailing, 0)
    ensures Allows(next, p, trailing, 0)
  {
  }

  lemma ConsumeFits(d: Policy, k: Config)
    requires !Halted(k) && Sound(k) && Fits(k.s) && ShapeOf(k.s.cur).Consume?
    ensures Fits(Tick(d, k).s)
  {
    ConsumePlaces(k.s.cur);
    hide PhaseOf, Add, Place, NextOf, ShapeOf, SpanOf, FinishOf, WordOf, Halted, Skips, Allows, Extend;
    var n, s := k.s.cur, k.s;
    if s.m.length > 0 {
      PhaseAdd(s.trace, Piece(OnBody, [k.input[0]]));
      ConsumeStep(Place(n), PhaseOf(s.trace), s.m.flags.trailing, s.m.length);
    } else {
      ConsumeDone(Place(n), Place(NextOf(n)), PhaseOf(s.trace), s.m.flags.trailing);
    }
  }

  /** The starts of a span: where they stand, and where they lead. */
  predicate Opens(kind: Kind, p: nat, q: nat) {
    match kind
    case OnStatus => p == BEGUN && q == REASON
    case OnHeaderField => p == FIELDS && q == NAME
    case OnHeaderValue => (p == COLON_SEEN || p == VALUE_START) && q == VALUE
    case OnBody => (p == CHUNK_START && q == CHUNK_DATA) || (p == READY && q == BODY)
    case OnUrl => false
  }

  lemma OpenPlaces(n: Node)
    requires ShapeOf(n).Open?
    ensures Opens(KindOf(n), Place(n), Place(NextOf(n)))
  {
  }

  lemma OpenStep(t: seq<Event>, kind: Kind, p: nat, q: nat, trailing: bool, length: nat)
    requires Opens(kind, p, q) && Allows(p, PhaseOf(t), trailing, length)
    ensures Allows(q, PhaseOf(Add(t, Piece(kind, []))), trailing, length)
  {
    PhaseAdd(t, Piece(kind, []));
    EndsPhase(t);
    hide PhaseOf, Add, EndsWithPiece;
  }

  lemma OpenFits(d: Policy, k: Config)
    requires !Halted(k) && Sound(k) && Fits(k.s) && ShapeOf(k.s.cur).Open?
    ensures Fits(Tick(d, k).s)
  {
    var n, s := k.s.cur, k.s;
    hide PhaseOf, Add, Place, NextOf, ShapeOf, KindOf, Sound, Halted, Allows, Opens;
    OpenPlaces(n);
    OpenStep(s.trace, KindOf(n), Place(n), Place(NextOf(n)), s.m.flags.trailing, s.m.length);
  }

  /** What the last piece says about the phase. */
  lemma EndsPhase(t: seq<Event>)
    ensures EndsWithPiece(t, OnStatus) ==> PhaseOf(t).Reason? || PhaseOf(t).Bad?
    ensures EndsWithPiece(t, OnHeaderField) ==> PhaseOf(t).Named? || PhaseOf(t).Bad?
    ensures EndsWithPiece(t, OnHeaderValue) ==> PhaseOf(t).Valued? || PhaseOf(t).Bad?
    ensures EndsWithPiece(t, OnBody) ==> PhaseOf(t).Body? || PhaseOf(t).ChunkData? || PhaseOf(t).Bad?
    ensures PhaseOf(t).Valued? ==> EndsWithPiece(t, OnHeaderValue)
  {
  }

  /** The callbacks without data: where they stand, and where they lead. */
  predicate Stands(e: Event, p: nat, length: nat) {
    match e
    case Piece(_, _) => false
    case UrlComplete => false
    case MessageBegin => p == IDLE
    case StatusComplete => p == LINE_END
    case HeaderFieldComplete => p == NAME
    case HeaderValueComplete => p == VALUE
    case HeadersComplete => p == HEADERS_END
    case ChunkHeader(size) => p == SIZE && size == length
    case ChunkComplete => p == CHUNK_END || p == TRAILERS_END
    case MessageComplete => p == READY || p == MESSAGE_END
  }

  predicate Goes(e: Event, p: nat, q: nat) {
    q == (if e.MessageComplete? then ANYWHERE else INSIDE) || match e
    case MessageBegin => q == BEGUN
    case StatusComplete => q == FIELDS
    case HeaderFieldComplete => q == COLON_SEEN
    case HeaderValueComplete => q == FIELDS
    case HeadersComplete => q == READY
    case ChunkHeader(size) => q == SIZED
    case ChunkComplete => q == (if p == CHUNK_END then SIZE else MESSAGE_END)
    case _ => q == DONE
  }

  lemma CallStands(n: Node, m: Fields)
    requires ShapeOf(n).Call?
    ensures Stands(EventOf(n, m), Place(n), m.length)
  {
  }

  lemma CallProceeds(n: Node, m: Fields)
    requires ShapeOf(n).Call?
    ensures Goes(EventOf(n, m), Place(n), Place(NextOf(n)))
  {
  }

  lemma CallBreaks(n: Node, m: Fields)
    requires ShapeOf(n).Call? && MissOf(n) != n
    ensures Goes(EventOf(n, m), Place(n), Place(MissOf(n)))
  {
  }

  lemma CallSkips(m: Fields)
    ensures EventOf(ON_HEADERS_COMPLETE, m) == HeadersComplete
    ensures Place(INVOKE_SKIP_BODY) == READY && Place(INVOKE_SKIP_FOR_UPGRADE) == READY
  {
  }

  lemma CallGoes(n: Node, m: Fields, answer: int)
    requires ShapeOf(n).Call?
    ensures Goes(EventOf(n, m), Place(n), Place(Route(n, answer)))
  {
    hide ShapeOf, Place, NextOf, MissOf, EventOf;
    CallProceeds(n, m);
    CallSkips(m);
    if MissOf(n) != n { CallBreaks(n, m); }
  }

  lemma CallStep(e: Event, p: nat, q: nat, phase: Phase, trailing: bool, length: nat)
    requires Stands(e, p, length) && Goes(e, p, q) && Allows(p, phase, trailing, length)
    ensures Allows(q, Step(phase, e), trailing, length)
  {
  }

  lemma CallFits(d: Policy, k: Config)
    requires !Halted(k) && Sound(k) && Fits(k.s) && ShapeOf(k.s.cur).Call?
    ensures Fits(Tick(d, k).s)
  {
    var n, s, e := k.s.cur, k.s, EventOf(k.s.cur, k.s.m);
    var answer := d(Add(s.trace, e));
    assert !e.Piece?;
    hide PhaseOf, Add, Place, ShapeOf, Sound, Halted, Allows, Stands, Goes, Step, Route, EventOf;
    CallStands(n, s.m);
    CallGoes(n, s.m, answer);
    PhaseAdd(s.trace, e);
    CallStep(e, Place(n), Place(Route(n, answer)), PhaseOf(s.trace), s.m.flags.trailing, s.m.length);
  }

  /** The silent blocks: where they lead from where they stand. */
  predicate Turns(p: nat, q: nat, trailing: bool, length: nat) {
    || (Widens(p, q) && p != SIZED && p != FIELDS && p != DONE && p != CHUNK_START && p != CHUNK_DATA)
    || (p == FIELDS && (q == INSIDE || q == (if trailing then TRAILERS_END else HEADERS_END)))
    || (p == SIZED && q == (if length == 0 then LAST_CHUNK else CHUNK_START))
    || (p == LAST_CHUNK && q == FIELDS)
    || (p == DONE && (q == DONE || q == IDLE))
  }

  lemma LinesTurn(n: Node, m: Fields)
    requires ShapeOf(n).Invoke? && n <= INVOKE_UPDATE_STATUS_CODE
    ensures Turns(Place(n), Place(Goto(n, m)), m.flags.trailing, m.length)
  {
  }

  lemma NamesTurn(n: Node, m: Fields)
    requires ShapeOf(n).Invoke? && INVOKE_UPDATE_STATUS_CODE < n <= INVOKE_STORE_HEADER_STATE_4
    ensures Turns(Place(n), Place(Goto(n, m)), m.flags.trailing, m.length)
  {
  }

  lemma ValuesTurn(n: Node, m: Fields)
    requires ShapeOf(n).Invoke? && INVOKE_STORE_HEADER_STATE_4 < n <= INVOKE_LOAD_HEADER_STATE_3
    ensures Turns(Place(n), Place(Goto(n, m)), m.flags.trailing, m.length)
  {
  }

  lemma BodiesTurn(n: Node, m: Fields)
    requires ShapeOf(n).Invoke? && n > INVOKE_LOAD_HEADER_STATE_3 && n != INVOKE_AFTER_HEADERS_COMPLETE
    ensures Turns(Place(n), Place(Goto(n, m)), m.flags.trailing, m.length)
  {
    hide BodyDecision;
  }

  lemma DecisionTurns(m: Fields)
    ensures Turns(READY, Place(BodyDecision(m)), m.flags.trailing, m.length)
  {
  }

  lemma InvokeTurns(n: Node, m: Fields)
    requires ShapeOf(n).Invoke?
    ensures Turns(Place(n), Place(Goto(n, m)), m.flags.trailing, m.length)
  {
    if n == INVOKE_AFTER_HEADERS_COMPLETE {
      hide BodyDecision, Turns;
      DecisionTurns(m);
    } else {
      hide ShapeOf, Place, Goto, Turns;
      if n <= INVOKE_UPDATE_STATUS_CODE {
        LinesTurn(n, m);
      } else if n <= INVOKE_STORE_HEADER_STATE_4 {
        NamesTurn(n, m);
      } else if n <= INVOKE_LOAD_HEADER_STATE_3 {
        ValuesTurn(n, m);
      } else {
        BodiesTurn(n, m);
      }
    }
  }

  /** The silent blocks that touch `flags`. */
  predicate SetsFlags(n: Node) {
    || n == INVOKE_LOAD_HEADER_STATE || n == INVOKE_LOAD_HEADER_STATE_2 || n == INVOKE_LOAD_HEADER_STATE_3
    || n == INVOKE_LOAD_HEADER_STATE_4 || n == INVOKE_OR_CONTENT_LENGTH || n == INVOKE_SKIP_BODY
    || n == INVOKE_SKIP_FOR_UPGRADE || n == INVOKE_OR_TRAILING || n == INVOKE_AFTER_MESSAGE_COMPLETE
  }

  lemma UpdateKeepsFlags(n: Node, m: Fields)
    requires !SetsFlags(n)
    ensures Update(n, m).flags == m.flags
  {
    hide OrHeaderFlag;
  }

  lemma HeaderBlocksKeepTrailing(m: Fields)
    ensures OrHeaderFlag(m).flags.trailing == m.flags.trailing
    ensures Update(INVOKE_LOAD_HEADER_STATE, m).flags.trailing == m.flags.trailing
    ensures Update(INVOKE_LOAD_HEADER_STATE_2, m).flags.trailing == m.flags.trailing
    ensures Update(INVOKE_LOAD_HEADER_STATE_3, m).flags.trailing == m.flags.trailing
    ensures Update(INVOKE_LOAD_HEADER_STATE_4, m).flags.trailing == m.flags.trailing
  {
    if m.headerState == 5 {
    } else if m.headerState == 6 {
    } else if m.headerState == 7 {
    } else if m.headerState == 8 {
    } else if m.headerState == 3 {
    } else if m.headerState == 4 {
    }
  }

  lemma BodyBlocksMarkTrailing(m: Fields)
    ensures Update(INVOKE_OR_CONTENT_LENGTH, m).flags.trailing == m.flags.trailing
    ensures Update(INVOKE_SKIP_BODY, m).flags.trailing == m.flags.trailing
    ensures Update(INVOKE_SKIP_FOR_UPGRADE, m).flags.trailing == m.flags.trailing
    ensures Update(INVOKE_OR_TRAILING, m).flags.trailing
    ensures !Update(INVOKE_AFTER_MESSAGE_COMPLETE, m).flags.trailing
  {
  }

  lemma UpdateTrailing(n: Node, m: Fields)
    ensures Update(n, m).flags.trailing ==
      (n == INVOKE_OR_TRAILING || (n != INVOKE_AFTER_MESSAGE_COMPLETE && m.flags.trailing))
  {
    hide Update;
    if SetsFlags(n) {
      HeaderBlocksKeepTrailing(m);
      BodyBlocksMarkTrailing(m);
    } else {
      UpdateKeepsFlags(n, m);
    }
  }

  lemma UpdateLength(n: Node, m: Fields)
    ensures Update(n, m).length == if n == INVOKE_UPDATE_CONTENT_LENGTH then 0 else m.length
  {
    assert OrHeaderFlag(m).length == m.length;
    hide OrHeaderFlag;
  }

  /** What the silent blocks do to F_TRAILING and to content_length, place by place. */
  predicate Marks(p: nat, q: nat, was: bool, trailing: bool, left: nat, length: nat) {
    && (p == LAST_CHUNK ==> trailing)
    && (p == DONE && q == IDLE ==> !trailing)
    && (p != LAST_CHUNK && p != DONE ==> trailing == was)
    && (length == left || p == SIZE)
  }

  lemma InvokePlaces(n: Node, m: Fields)
    requires ShapeOf(n).Invoke?
    ensures Place(n) == LAST_CHUNK <==> n == INVOKE_OR_TRAILING
    ensures Place(n) == DONE ==> n == INVOKE_IS_EQUAL_UPGRADE || n == INVOKE_AFTER_MESSAGE_COMPLETE
    ensures Place(INVOKE_AFTER_MESSAGE_COMPLETE) == DONE && Place(Goto(INVOKE_IS_EQUAL_UPGRADE, m)) == DONE
    ensures Place(INVOKE_UPDATE_CONTENT_LENGTH) == SIZE
  {
    hide BodyDecision;
  }

  lemma InvokeMarks(n: Node, m: Fields)
    requires ShapeOf(n).Invoke?
    ensures Marks(Place(n), Place(Goto(n, m)), m.flags.trailing, Update(n, m).flags.trailing, m.length, Update(n, m).length)
  {
    hide ShapeOf, Place, Goto, Update;
    InvokePlaces(n, m);
    UpdateTrailing(n, m);
    UpdateLength(n, m);
  }

  lemma InvokeStep(p: nat, q: nat, phase: Phase, was: bool, trailing: bool, left: nat, length: nat)
    requires Turns(p, q, was, left) && Marks(p, q, was, trailing, left, length) && Allows(p, phase, was, left)
    ensures Allows(q, phase, trailing, length)
  {
  }

  lemma InvokeFits(d: Policy, k: Config)
    requires !Halted(k) && Sound(k) && Fits(k.s) && ShapeOf(k.s.cur).Invoke?
    ensures Fits(Tick(d, k).s)
  {
    hide PhaseOf, Place, ShapeOf, Sound, Halted, Allows, Turns, Goto, Update;
    var n, m := k.s.cur, k.s.m;
    InvokeTurns(n, m);
    InvokeMarks(n, m);
    InvokeStep(Place(n), Place(Goto(n, m)), PhaseOf(k.s.trace),
      m.flags.trailing, Update(n, m).flags.trailing, m.length, Update(n, m).length);
  }

  lemma StopFits(d: Policy, k: Config)
    requires !Halted(k) && Fits(k.s) && (ShapeOf(k.s.cur).Stop? || ShapeOf(k.s.cur).Fail?)
    ensures Fits(Tick(d, k).s)
  {
    hide PhaseOf;
  }

  lemma TickFits(d: Policy, k: Config)
    requires !Halted(k) && Sound(k) && Fits(k.s)
    ensures Fits(Tick(d, k).s)
  {
    hide Sound, Fits, Tick;
    match ShapeOf(k.s.cur)
    case Switch => SwitchFits(d, k);
    case Number => NumberFits(d, k);
    case Match => MatchFits(d, k);
    case Consume => ConsumeFits(d, k);
    case Open => OpenFits(d, k);
    case Close => CloseFits(d, k);
    case Call => CallFits(d, k);
    case Invoke => InvokeFits(d, k);
    case _ => StopFits(d, k);
  }

  /** Every run stays inside the grammar, and knows where in it it is. */
  lemma {:induction false} RunFits(d: Policy, k: Config)
    requires Sound(k) && Fits(k.s)
    ensures Fits(Run(d, k).s) && Sound(Run(d, k))
    decreases |k.input|, k.s.cur
  {
    hide Sound, Fits, Tick;
    if !Halted(k) {
      TickDescends(d, k);
      TickSound(d, k);
      TickFits(d, k);
      RunFits(d, Tick(d, k));
    }
  }

  /** Wherever the machine comes by. */
  lemma {:induction false} TicksFit(d: Policy, k: Config, n: nat)
    requires Sound(k) && Fits(k.s)
    ensures Fits(Ticks(d, k, n).s)
    decreases n
  {
    hide Sound, Fits, Tick, Halted;
    if n > 0 && !Halted(k) {
      TickSound(d, k);
      TickFits(d, k);
      TicksFit(d, Tick(d, k), n - 1);
    }
  }

  lemma ReachesFits(d: Policy, k: Config, t: Config)
    requires Sound(k) && Fits(k.s) && Reaches(d, k, t)
    ensures Fits(t.s)
  {
    hide Sound, Fits, Ticks;
    var n: nat :| Ticks(d, k, n) == t;
    TicksFit(d, k, n);
  }

  /** Where the parser may stand between two calls, it knows whether it stands between two messages. */
  lemma RestsIdle(s: Core)
    requires Fits(s) && Rests(s.cur) && s.cur != DEAD
    ensures PhaseOf(s.trace) == Idle <==> Place(s.cur) == IDLE || Place(s.cur) == DONE
    ensures Place(s.cur) == IDLE <==> s.cur == START
  {
    hide PhaseOf;
  }

  lemma MessageEnds(n: Node, m: Graph.Fields)
    requires ShapeOf(n).Call?
    ensures EventOf(n, m).MessageComplete? ==> Place(NextOf(n)) == DONE
  {
  }

  lemma EndPlaces()
    ensures Place(START) == IDLE && Place(SPAN_START_BODY_2) == READY && Place(EOF) == BODY
  {
  }

  /** In a body that lasts until the end of the stream, the message may end at any time. */
  lemma BodyEnds(s: Core)
    requires Fits(s)
    ensures s.cur == SPAN_START_BODY_2 || s.cur == EOF ==> Step(PhaseOf(s.trace), MessageComplete) == Idle
  {
    hide PhaseOf;
  }

  /** With less of a piece reported, a parser that stopped in an error fits, too. */
  lemma GainFits(s: Core, w: seq<byte>)
    requires Fits(Gain(s, w)) && s.cur == DEAD
    ensures Fits(s)
  {
    hide PhaseOf, Add;
    if s.span.Some? { PhaseAdd(s.trace, Piece(s.span.value, w)); }
  }

  /** The grammar is never left. */
  lemma FitsIsGood(s: Core)
    requires Fits(s)
    ensures !PhaseOf(s.trace).Bad?
  {
    hide Place, PhaseOf;
  }
}
