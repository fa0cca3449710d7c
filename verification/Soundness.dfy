/** What every step of the machine keeps. */
module Soundness {
  import opened Bytes
  import opened Graph
  import opened Machine

  /** The span that is open at a node: the nodes inside a span are numbered together. */
  function SpanOf(n: Node): Option<Kind> {
    if SPAN_END_STATUS <= n <= RES_STATUS then Some(OnStatus)
    else if SPAN_END_HEADER_FIELD_1 <= n <= INVOKE_STORE_HEADER_STATE_4 then Some(OnHeaderField)
    else if SPAN_END_HEADER_VALUE <= n <= HEADER_VALUE_TE_TOKEN_OWS then Some(OnHeaderValue)
    else if SPAN_END_BODY <= n <= EOF then Some(OnBody)
    else None
  }

  /** The value of `finish` at a node. */
  function FinishOf(n: Node): nat {
    if n == START || n == INVOKE_UPDATE_FINISH then FINISH_SAFE
    else if n == SPAN_START_BODY_2 || n == EOF then FINISH_SAFE_WITH_CB
    else FINISH_UNSAFE
  }

  /** The nodes that are only entered with bytes left in content_length. */
  predicate NeedsLength(n: Node) {
    n == SPAN_START_BODY || n == SPAN_START_BODY_1
  }

  /** The error blocks, which are entered with or without an open span. */
  predicate IsError(n: Node) {
    FAIL_LF_EXPECTED <= n <= FAIL_CB_CHUNK_COMPLETE
  }

  /** An edge that keeps the span and `finish`. */
  predicate Keeps(n: Node, next: Node) {
    FinishOf(next) == FinishOf(n) && (IsError(next) || SpanOf(next) == SpanOf(n))
  }

  /** A node that may be entered with nothing in hand. */
  predicate Plain(n: Node) {
    !Skips(n) && !NeedsLength(n) && n != DEAD && n <= LAST
  }

  lemma BranchKeeps(n: Node, c: byte)
    requires ShapeOf(n).Switch?
    ensures !IsError(n) && Keeps(n, Branch(n, c).next)
  {
  }

  lemma BranchPlain(n: Node, c: byte)
    requires ShapeOf(n).Switch?
    ensures var t := Branch(n, c); !NeedsLength(t.next) && t.next != DEAD && t.next <= LAST && (t.over ==> !Skips(t.next))
  {
  }

  lemma DigitKeeps(n: Node, m: Fields, c: byte)
    requires ShapeOf(n).Number?
    ensures Keeps(n, MissOf(n)) && Plain(MissOf(n))
    ensures IsDigitOf(n, c) ==> Keeps(n, AfterDigit(n, m, c)) && Plain(AfterDigit(n, m, c))
  {
  }

  /** The three silent blocks that set `finish`. */
  predicate SetsFinish(n: Node) {
    n == INVOKE_UPDATE_FINISH || n == INVOKE_UPDATE_FINISH_2 || n == INVOKE_AFTER_MESSAGE_COMPLETE
  }

  lemma UpdateFinish(n: Node, m: Fields)
    ensures !SetsFinish(n) ==> Update(n, m).finish == m.finish
  {
  }

  lemma GotoFinish(n: Node, m: Fields)
    requires ShapeOf(n).Invoke?
    ensures !SetsFinish(n) ==> FinishOf(Goto(n, m)) == FinishOf(n)
  {
  }

  lemma GotoKeeps(n: Node, m: Fields)
    requires ShapeOf(n).Invoke? && m.finish == FinishOf(n)
    ensures FinishOf(Goto(n, m)) == Update(n, m).finish
  {
    if !SetsFinish(n) {
      hide ShapeOf, Goto, Update, FinishOf;
      UpdateFinish(n, m);
      GotoFinish(n, m);
    }
  }

  lemma GotoSpan(n: Node, m: Fields)
    requires ShapeOf(n).Invoke?
    ensures IsError(Goto(n, m)) || SpanOf(Goto(n, m)) == SpanOf(n)
  {
  }

  lemma GotoPlain(n: Node, m: Fields)
    requires ShapeOf(n).Invoke?
    ensures !Skips(Goto(n, m)) && Goto(n, m) != DEAD && Goto(n, m) <= LAST
  {
  }

  lemma GotoLength(n: Node, m: Fields)
    requires ShapeOf(n).Invoke?
    ensures NeedsLength(Goto(n, m)) ==> m.length > 0 && Update(n, m) == m
    ensures Update(n, m).length == 0 || Update(n, m).length == m.length
  {
  }

  lemma WholeKeeps(n: Node)
    requires ShapeOf(n).Match?
    ensures Keeps(n, NextOf(n))
  {
  }

  lemma BrokenKeeps(n: Node)
    requires ShapeOf(n).Match?
    ensures Keeps(n, MissOf(n))
  {
  }

  lemma EdgeKeeps(n: Node)
    ensures ShapeOf(n).Consume? ==> Keeps(n, NextOf(n))
    ensures ShapeOf(n).Stop? ==> Keeps(n, INVOKE_AFTER_MESSAGE_COMPLETE)
  {
  }

  lemma SpanEdgeKeeps(n: Node)
    ensures ShapeOf(n).Open? ==>
      SpanOf(n) == None && SpanOf(NextOf(n)) == Some(KindOf(n)) && FinishOf(NextOf(n)) == FinishOf(n)
    ensures ShapeOf(n).Close? ==>
      && SpanOf(n) == Some(KindOf(n))
      && FinishOf(NextOf(n)) == FinishOf(n) && (IsError(NextOf(n)) || SpanOf(NextOf(n)) == None)
  {
  }

  lemma CallKeeps(n: Node, answer: int)
    requires ShapeOf(n).Call?
    ensures SpanOf(n) == None && Keeps(n, Route(n, answer)) && Plain(Route(n, answer))
    ensures !ShapeOf(Route(n, answer)).Match?
  {
  }

  lemma WholePlain(n: Node)
    requires ShapeOf(n).Match?
    ensures Plain(NextOf(n)) && !ShapeOf(NextOf(n)).Match?
  {
  }

  lemma BrokenPlain(n: Node)
    requires ShapeOf(n).Match?
    ensures Plain(MissOf(n)) && !ShapeOf(MissOf(n)).Match?
  {
  }

  lemma EdgePlain(n: Node)
    ensures match ShapeOf(n)
      case Consume => Plain(NextOf(n))
      case Open => Plain(NextOf(n))
      case Close => Plain(NextOf(n)) && Rests(NextOf(n))
      case _ => true
  {
  }

  /** A paused callback leads to a node to stand at. */
  lemma CallRests(n: Node)
    requires ShapeOf(n).Call?
    ensures Rests(NextOf(n))
  {
  }

  /** The machine is at a node with what that node relies on. */
  ghost predicate AtNode(s: Core) {
    && s.cur <= LAST
    && (if ShapeOf(s.cur).Match? then s.index < |WordOf(s.cur)| else s.index == 0)
    && s.m.finish == FinishOf(s.cur) && (IsError(s.cur) || s.span == SpanOf(s.cur))
    && (NeedsLength(s.cur) ==> s.m.length > 0)
  }

  /** What holds of the fields, whatever was reported. */
  ghost predicate Placed(s: Core) {
    && (if s.cur == DEAD then 0 < s.error < HPE_PAUSED else AtNode(s))
    && s.m.length <= MAX_UINT64
  }

  ghost predicate Sound(k: Config) {
    Placed(k.s) && (k.s.cur != DEAD ==> (Skips(k.s.cur) ==> k.input != []) && SpanShown(k.s))
  }

  /** The nodes at which the parser may stand between two calls. */
  predicate Rests(n: Node) {
    !Skips(n) && n != INVOKE_UPDATE_FINISH && n != ON_MESSAGE_BEGIN && n != FAIL_CB_MESSAGE_COMPLETE
  }

  lemma TakeEnds(s: Core, c: byte)
    requires s.span.Some? ==> EndsWithPiece(s.trace, s.span.value)
    ensures var t := Take(s, c); t.span.Some? ==> EndsWithPiece(t.trace, t.span.value)
  {
  }

  lemma WordIsSome(n: Node)
    requires ShapeOf(n).Match?
    ensures WordOf(n) != []
  {
  }

  lemma SwitchSound(d: Policy, k: Config)
    requires !Halted(k) && Sound(k) && ShapeOf(k.s.cur).Switch?
    ensures Sound(Tick(d, k))
  {
    hide ShapeOf, Branch, Skips, SpanOf, FinishOf, WordOf;
    BranchKeeps(k.s.cur, k.input[0]);
    if ShapeOf(Branch(k.s.cur, k.input[0]).next).Match? { WordIsSome(Branch(k.s.cur, k.input[0]).next); }
    BranchPlain(k.s.cur, k.input[0]);
    TakeEnds(k.s, k.input[0]);
  }

  lemma NumberSound(d: Policy, k: Config)
    requires !Halted(k) && Sound(k) && ShapeOf(k.s.cur).Number?
    ensures Sound(Tick(d, k))
  {
    assert !ShapeOf(MissOf(k.s.cur)).Match? && !IsError(k.s.cur);
    hide Branch, Goto, Update, BodyDecision, NextOf, KindOf, WordOf, FoldOf;
    DigitKeeps(k.s.cur, k.s.m, k.input[0]);
    TakeEnds(k.s, k.input[0]);
  }

  lemma MatchSound(d: Policy, k: Config)
    requires !Halted(k) && Sound(k) && ShapeOf(k.s.cur).Match?
    ensures Sound(Tick(d, k))
  {
    WholeKeeps(k.s.cur);
    BrokenKeeps(k.s.cur);
    WholePlain(k.s.cur);
    BrokenPlain(k.s.cur);
    TakeEnds(k.s, k.input[0]);
  }

  lemma ConsumeSound(d: Policy, k: Config)
    requires !Halted(k) && Sound(k) && ShapeOf(k.s.cur).Consume?
    ensures Sound(Tick(d, k))
  {
    EdgeKeeps(k.s.cur);
    EdgePlain(k.s.cur);
    if k.s.m.length > 0 { TakeEnds(k.s, k.input[0]); }
  }

  lemma OpenSound(d: Policy, k: Config)
    requires !Halted(k) && Sound(k) && ShapeOf(k.s.cur).Open?
    ensures Sound(Tick(d, k))
  {
    SpanEdgeKeeps(k.s.cur);
    EdgePlain(k.s.cur);
  }

  lemma CloseSound(d: Policy, k: Config)
    requires !Halted(k) && Sound(k) && ShapeOf(k.s.cur).Close?
    ensures Sound(Tick(d, k))
  {
    SpanEdgeKeeps(k.s.cur);
    EdgePlain(k.s.cur);
  }

  lemma CallSound(d: Policy, k: Config)
    requires !Halted(k) && Sound(k) && ShapeOf(k.s.cur).Call?
    ensures Sound(Tick(d, k))
  {
    var answer := d(Add(k.s.trace, EventOf(k.s.cur, k.s.m)));
    CallKeeps(k.s.cur, answer);
  }

  lemma InvokeSound(d: Policy, k: Config)
    requires !Halted(k) && Sound(k) && ShapeOf(k.s.cur).Invoke?
    ensures Sound(Tick(d, k))
  {
    GotoKeeps(k.s.cur, k.s.m);
    GotoSpan(k.s.cur, k.s.m);
    GotoPlain(k.s.cur, k.s.m);
    GotoLength(k.s.cur, k.s.m);
  }

  lemma TickSound(d: Policy, k: Config)
    requires !Halted(k) && Sound(k)
    ensures Sound(Tick(d, k))
  {
    match ShapeOf(k.s.cur)
    case Switch => SwitchSound(d, k);
    case Number => NumberSound(d, k);
    case Match => MatchSound(d, k);
    case Consume => ConsumeSound(d, k);
    case Open => OpenSound(d, k);
    case Close => CloseSound(d, k);
    case Call => CallSound(d, k);
    case Invoke => InvokeSound(d, k);
    case _ =>
  }
}
