/** One message after another: what a finished message leaves behind for the next one. */
module Pipeline {
  import opened Bytes
  import opened Graph
  import opened Machine
  import opened Soundness
  import opened Strides
  import opened Walk
  import opened Numbers
  import Grammar
  import HeaderNames
  import HeaderValues
  import CL = ContentLength
  import L = Likeness
  import Session
  import Chunked

  /** Flags are down at the start of a message. */
  predicate Clean(s: Core) {
    s.cur == START ==> s.m.flags == NO_FLAGS
  }

  /** Only the end of a message and the bytes between messages lead to the start of one. */
  lemma IntoStart(n: Node, m: Fields, c: byte, answer: int)
    ensures ShapeOf(n).Switch? && Branch(n, c).next == START ==> n == START
    ensures ShapeOf(n).Invoke? && Goto(n, m) == START ==> n == INVOKE_AFTER_MESSAGE_COMPLETE
    ensures ShapeOf(n).Call? ==> Route(n, answer) != START
  {
    hide BodyDecision;
    DecisionIsNoStart(m);
  }

  lemma DecisionIsNoStart(m: Fields)
    ensures BodyDecision(m) != START
  {
  }

  lemma EdgesMissStart(n: Node, m: Fields, c: byte)
    ensures NextOf(n) != START && (MissOf(n) == START ==> n == START)
    ensures ShapeOf(n).Number? && IsDigitOf(n, c) ==> AfterDigit(n, m, c) != START
  {
    hide MulAdd10, MulAdd16;
  }

  lemma AfterMessage(m: Fields)
    ensures Update(INVOKE_AFTER_MESSAGE_COMPLETE, m) == m.(finish := FINISH_SAFE, flags := NO_FLAGS)
    ensures !ShapeOf(START).Match? && !ShapeOf(START).Number? && !ShapeOf(START).Invoke?
  {
  }

  lemma TickClean(d: Policy, k: Config)
    requires !Halted(k) && Clean(k.s)
    ensures Clean(Tick(d, k).s)
  {
    var n, s := k.s.cur, k.s;
    var c: byte := if k.input == [] then 0 else k.input[0];
    IntoStart(n, s.m, c, d(Add(s.trace, EventOf(n, s.m))));
    EdgesMissStart(n, s.m, c);
    AfterMessage(s.m);
    hide ShapeOf, Branch, Goto, Update, Route, NextOf, MissOf, AfterDigit, TakeDigit, EventOf, KindOf, Skips, WordOf, Add;
  }

  /**
   At the start of a message, whatever went before: no flags, `finish` safe, no place in a word, and
   no open span.
   */
  lemma {:induction false} StartIsClean(d: Policy, k: Config)
    requires Sound(k) && Clean(k.s)
    ensures var s := Run(d, k).s;
      Clean(s) && Sound(Run(d, k)) && (s.error == 0 && s.cur == START ==>
        s.m.flags == NO_FLAGS && s.m.finish == FINISH_SAFE && s.index == 0 && s.span == None)
    decreases |k.input|, k.s.cur
  {
    if Halted(k) {
      assert !ShapeOf(START).Match?;
    } else {
      hide Sound, Clean, Tick;
      TickDescends(d, k);
      TickSound(d, k);
      TickClean(d, k);
      StartIsClean(d, Tick(d, k));
    }
  }

  // What is known of content_length at a node: nothing; that it is 0 unless F_CONTENT_LENGTH says why;
  // that it is 0; that the node is not reached when the user never refuses.
  const FREE: nat := 0
  const HEAD: nat := 1
  const ZERO: nat := 2
  const NEVER: nat := 3

  function Rule(n: Node): nat {
    if n <= FAIL_CB_CHUNK_COMPLETE then (if n == START_REQ || n == REQ_FIRST_SPACE_BEFORE_URL then HEAD else FREE)
    else if INVOKE_UPDATE_CONTENT_LENGTH - 1 <= n <= CHUNK_DATA_ALMOST_DONE then FREE
    else if INVOKE_AFTER_MESSAGE_COMPLETE <= n <= ON_MESSAGE_COMPLETE_2 then ZERO
    else match n
      case HEADER_VALUE_CONTENT_LENGTH => FREE
      case HEADER_VALUE_CONTENT_LENGTH_WS => FREE
      case INVOKE_OR_CONTENT_LENGTH => FREE
      case SPAN_END_HEADER_VALUE_4 => FREE
      case SPAN_END_HEADER_VALUE_5 => FREE
      case SPAN_END_BODY => FREE
      case CONSUME_CONTENT_LENGTH => FREE
      case SPAN_END_BODY_1 => ZERO
      case CONSUME_CONTENT_LENGTH_1 => FREE
      case EOF => FREE
      case SPAN_START_BODY_2 => FREE
      case INVOKE_UPDATE_FINISH_2 => FREE
      case ON_MESSAGE_COMPLETE => ZERO
      case ON_MESSAGE_COMPLETE_1 => FREE
      case SPAN_START_BODY_1 => FREE
      case INVOKE_SKIP_BODY => NEVER
      case INVOKE_SKIP_FOR_UPGRADE => NEVER
      case ON_CHUNK_COMPLETE_1 => ZERO
      case INVOKE_OR_TRAILING => ZERO
      case _ => if n > INVOKE_TEST_FLAGS then FREE else HEAD
  }

  /** The length fits the rule. */
  predicate Obeyed(rule: nat, length: nat, named: bool, trailing: bool) {
    (rule == HEAD ==> length == 0 || (named && !trailing)) && (rule == ZERO ==> length == 0) && rule != NEVER
  }

  predicate LengthFits(s: Core) {
    Obeyed(Rule(s.cur), s.m.length, s.m.flags.contentLength, s.m.flags.trailing) && !s.m.flags.skipBody
  }

  /** Where a message leaves its length behind: the exit for CONNECT and for upgrades without a body, and a Content-Length trailer. */
  predicate Spoils(s: Core) {
    s.cur == ON_MESSAGE_COMPLETE_1 || (s.cur == INVOKE_OR_CONTENT_LENGTH && s.m.flags.trailing)
  }

  /** Nothing of the kind happens in the whole run. */
  ghost predicate Tidy(d: Policy, k: Config)
    decreases |k.input|, k.s.cur
  {
    !Spoils(k.s) && (Halted(k) || (TickDescends(d, k); Tidy(d, Tick(d, k))))
  }

  lemma HeadBranchRule(n: Node, c: byte)
    requires ShapeOf(n).Switch? && n <= HEADER_FIELD_START
    ensures Rule(Branch(n, c).next) == Rule(n) || Rule(Branch(n, c).next) == FREE
  {
  }

  lemma TailBranchRule(n: Node, c: byte)
    requires ShapeOf(n).Switch? && n > HEADER_FIELD_START
    ensures Rule(Branch(n, c).next) == Rule(n) || Rule(Branch(n, c).next) == FREE
  {
  }

  lemma DigitRule(n: Node, m: Fields, c: byte)
    requires ShapeOf(n).Number?
    ensures Rule(MissOf(n)) == Rule(n) || Rule(MissOf(n)) == FREE
    ensures IsDigitOf(n, c) ==> Rule(AfterDigit(n, m, c)) == Rule(n) || Rule(AfterDigit(n, m, c)) == FREE
    ensures IsDigitOf(n, c) ==> TakeDigit(n, m, c).flags == m.flags && (Rule(n) != FREE ==> TakeDigit(n, m, c).length == m.length)
  {
    hide MulAdd10, MulAdd16, HexValue;
  }

  lemma MatchRule(n: Node)
    requires ShapeOf(n).Match?
    ensures Rule(NextOf(n)) == Rule(n) || Rule(NextOf(n)) == FREE
    ensures Rule(MissOf(n)) == Rule(n) || Rule(MissOf(n)) == FREE
  {
  }

  lemma OpenRule(n: Node)
    requires ShapeOf(n).Open?
    ensures Rule(NextOf(n)) == Rule(n) || Rule(NextOf(n)) == FREE
  {
  }

  lemma CloseRule(n: Node)
    requires ShapeOf(n).Close?
    ensures Rule(NextOf(n)) == Rule(n) || Rule(NextOf(n)) == FREE
  {
  }

  lemma CallRule(n: Node)
    requires ShapeOf(n).Call? && n != ON_MESSAGE_COMPLETE_1
    ensures Rule(Route(n, 0)) == Rule(n) || Rule(Route(n, 0)) == FREE
  {
  }

  /** What the silent blocks need beside the rule of where they stand. */
  lemma InvokeRule(n: Node, m: Fields)
    requires ShapeOf(n).Invoke? && n != INVOKE_AFTER_HEADERS_COMPLETE
    ensures var p, q := Rule(n), Rule(Goto(n, m));
      || q == FREE || (p == HEAD && q == HEAD) || (p == ZERO && q <= ZERO) || p == NEVER
      || (n == INVOKE_OR_CONTENT_LENGTH && q == HEAD)
      || (n == INVOKE_IS_EQUAL_CONTENT_LENGTH && q == ZERO && m.length == 0)
      || (n == INVOKE_TEST_FLAGS && p == HEAD && q == ZERO && m.flags.trailing)
  {
    hide BodyDecision;
  }

  lemma DecisionRule(m: Fields)
    requires !m.flags.skipBody && (m.length == 0 || (m.flags.contentLength && !m.flags.trailing))
    ensures Rule(BodyDecision(m)) == FREE || (Rule(BodyDecision(m)) == ZERO && m.length == 0)
  {
  }

  lemma HeaderBlocksKeepNames(m: Fields)
    ensures var f := Update(INVOKE_LOAD_HEADER_STATE, m).flags; f.contentLength == m.flags.contentLength && f.skipBody == m.flags.skipBody
    ensures var f := Update(INVOKE_LOAD_HEADER_STATE_2, m).flags; f.contentLength == m.flags.contentLength && f.skipBody == m.flags.skipBody
    ensures var f := Update(INVOKE_LOAD_HEADER_STATE_3, m).flags; f.contentLength == m.flags.contentLength && f.skipBody == m.flags.skipBody
    ensures var f := Update(INVOKE_LOAD_HEADER_STATE_4, m).flags; f.contentLength == m.flags.contentLength && f.skipBody == m.flags.skipBody
  {
    if m.headerState == 5 {
    } else if m.headerState == 6 {
    } else if m.headerState == 7 {
    } else if m.headerState == 8 {
    } else if m.headerState == 3 {
    } else if m.headerState == 4 {
    }
  }

  lemma BodyBlocksMarkNames(m: Fields)
    ensures var f := Update(INVOKE_OR_CONTENT_LENGTH, m).flags; f.contentLength && f.skipBody == m.flags.skipBody
    ensures var f := Update(INVOKE_OR_TRAILING, m).flags; f.contentLength == m.flags.contentLength && f.skipBody == m.flags.skipBody
    ensures Update(INVOKE_AFTER_MESSAGE_COMPLETE, m).flags == NO_FLAGS
  {
  }

  lemma UpdateNames(n: Node, m: Fields)
    requires n != INVOKE_SKIP_BODY && n != INVOKE_SKIP_FOR_UPGRADE
    ensures Update(n, m).flags.skipBody ==> m.flags.skipBody
    ensures n != INVOKE_AFTER_MESSAGE_COMPLETE && m.flags.contentLength ==> Update(n, m).flags.contentLength
    ensures n == INVOKE_OR_CONTENT_LENGTH ==> Update(n, m).flags.contentLength
  {
    hide Update;
    if Grammar.SetsFlags(n) {
      HeaderBlocksKeepNames(m);
      BodyBlocksMarkNames(m);
    } else {
      Grammar.UpdateKeepsFlags(n, m);
    }
  }

  lemma NeverIsSkip(n: Node)
    ensures n == INVOKE_SKIP_BODY || n == INVOKE_SKIP_FOR_UPGRADE ==> Rule(n) == NEVER
    ensures n == INVOKE_AFTER_HEADERS_COMPLETE ==> Rule(n) == HEAD
    ensures n == INVOKE_OR_TRAILING || n == INVOKE_AFTER_MESSAGE_COMPLETE ==> Rule(n) == ZERO
    ensures n == INVOKE_OR_CONTENT_LENGTH || n == INVOKE_UPDATE_CONTENT_LENGTH ==> Rule(n) == FREE
  {
  }

  lemma InvokeFits(d: Policy, k: Config)
    requires !Halted(k) && LengthFits(k.s) && !Spoils(k.s) && ShapeOf(k.s.cur).Invoke?
    ensures LengthFits(Tick(d, k).s)
  {
    hide ShapeOf, Goto, Update, Rule;
    var n, m := k.s.cur, k.s.m;
    NeverIsSkip(n);
    UpdateNames(n, m);
    Grammar.UpdateTrailing(n, m);
    Grammar.UpdateLength(n, m);
    if n == INVOKE_AFTER_HEADERS_COMPLETE {
      DecisionRule(m);
      AfterHeaders(m);
    } else {
      InvokeRule(n, m);
    }
  }

  lemma AfterHeaders(m: Fields)
    ensures Goto(INVOKE_AFTER_HEADERS_COMPLETE, m) == BodyDecision(m) && Update(INVOKE_AFTER_HEADERS_COMPLETE, m) == m
  {
    hide BodyDecision;
  }

  lemma TickFits(d: Policy, k: Config)
    requires !Halted(k) && LengthFits(k.s) && !Spoils(k.s) && Accepts(d)
    ensures LengthFits(Tick(d, k).s)
  {
    hide Branch, Goto, Update, Route, NextOf, MissOf, AfterDigit, TakeDigit, IsDigitOf, EventOf, Rule, WordOf, FoldOf, Skips;
    var n := k.s.cur;
    match ShapeOf(n)
    case Switch => if n <= HEADER_FIELD_START { HeadBranchRule(n, k.input[0]); } else { TailBranchRule(n, k.input[0]); }
    case Number => DigitRule(n, k.s.m, k.input[0]);
    case Match => MatchRule(n);
    case Consume => ConsumeRule(n);
    case Open => OpenRule(n);
    case Close => CloseRule(n);
    case Call => CallRule(n);
    case Invoke => InvokeFits(d, k);
    case Stop => StopRule(n);
    case Fail => StopRule(n);
    case Park =>
  }

  lemma ConsumeRule(n: Node)
    requires ShapeOf(n).Consume?
    ensures Rule(n) == FREE && (Rule(NextOf(n)) == FREE || Rule(NextOf(n)) == ZERO)
  {
  }

  lemma StopRule(n: Node)
    ensures ShapeOf(n).Stop? ==> Rule(n) == Rule(INVOKE_AFTER_MESSAGE_COMPLETE)
    ensures Rule(DEAD) == FREE
  {
  }

  /** When nothing spoils it, content_length is 0 at the start of the next message. */
  lemma {:induction false} TidyRun(d: Policy, k: Config)
    requires LengthFits(k.s) && Clean(k.s) && Tidy(d, k) && Accepts(d)
    ensures var s := Run(d, k).s; LengthFits(s) && Clean(s) && (s.cur == START ==> s.m.length == 0)
    decreases |k.input|, k.s.cur
  {
    if !Halted(k) {
      hide Clean, LengthFits, Tick, Spoils, Accepts;
      TickDescends(d, k);
      TickClean(d, k);
      TickFits(d, k);
      TidyRun(d, Tick(d, k));
    }
  }

  /** A body that the user skips is not counted down: its length is left to the next message. */
  lemma SkippedBodyLeaves(d: Policy, s: Core, rest: seq<byte>)
    requires s.cur == ON_HEADERS_COMPLETE && s.error == 0 && s.span == None && !s.m.upgrade
    requires d(s.trace + [HeadersComplete]) == 1 && d(s.trace + [HeadersComplete] + [MessageComplete]) == 0
    ensures Run(d, Config(s, rest)) == Run(d, Config(s.(cur := START, trace := s.trace + [HeadersComplete] + [MessageComplete],
      m := s.m.(finish := FINISH_SAFE, flags := NO_FLAGS)), rest))
  {
    hide Run, ShapeOf, Goto, Update, Route, EventOf;
    var t := s.(trace := s.trace + [HeadersComplete]);
    var m := s.m.(flags := s.m.flags.(skipBody := true));
    SkipNodes(s.m);
    SkipShapes(INVOKE_AFTER_HEADERS_COMPLETE);
    SkipShapes(ON_MESSAGE_COMPLETE);
    SkipShapes(INVOKE_AFTER_MESSAGE_COMPLETE);
    SkipEnds(m);
    StepCall(d, s, rest);
    StepInvoke(d, t.(cur := INVOKE_SKIP_BODY), rest);
    StepInvoke(d, t.(cur := INVOKE_AFTER_HEADERS_COMPLETE, m := m), rest);
    StepCall(d, t.(cur := ON_MESSAGE_COMPLETE, m := m), rest);
    StepInvoke(d, t.(cur := INVOKE_AFTER_MESSAGE_COMPLETE, m := m, trace := t.trace + [MessageComplete]), rest);
  }

  lemma SkipNodes(m: Fields)
    ensures ShapeOf(ON_HEADERS_COMPLETE).Call? && EventOf(ON_HEADERS_COMPLETE, m) == HeadersComplete
    ensures Route(ON_HEADERS_COMPLETE, 1) == INVOKE_SKIP_BODY
    ensures ShapeOf(INVOKE_SKIP_BODY).Invoke? && Goto(INVOKE_SKIP_BODY, m) == INVOKE_AFTER_HEADERS_COMPLETE
    ensures Update(INVOKE_SKIP_BODY, m) == m.(flags := m.flags.(skipBody := true))
  {
    hide BodyDecision;
  }

  lemma SkipShapes(n: Node)
    ensures n == INVOKE_AFTER_HEADERS_COMPLETE || n == INVOKE_AFTER_MESSAGE_COMPLETE ==> ShapeOf(n).Invoke?
    ensures n == ON_MESSAGE_COMPLETE ==> ShapeOf(n).Call?
  {
  }

  lemma SkipEnds(m: Fields)
    requires !m.upgrade && m.flags.skipBody
    ensures Goto(INVOKE_AFTER_HEADERS_COMPLETE, m) == ON_MESSAGE_COMPLETE && Update(INVOKE_AFTER_HEADERS_COMPLETE, m) == m
    ensures Route(ON_MESSAGE_COMPLETE, 0) == INVOKE_AFTER_MESSAGE_COMPLETE && EventOf(ON_MESSAGE_COMPLETE, m) == MessageComplete
    ensures Goto(INVOKE_AFTER_MESSAGE_COMPLETE, m) == START
    ensures Update(INVOKE_AFTER_MESSAGE_COMPLETE, m) == m.(finish := FINISH_SAFE, flags := NO_FLAGS)
  {
  }

  /** A length that is left over is put in front of the digits of the next one. */
  lemma {:induction false} LeftoverCounts(x: nat, ds: seq<nat>)
    ensures Value(10, x, ds) == Value(10, 0, ds) <==> x == 0
    ensures Value(10, x, ds) >= Value(10, 0, ds) + x
  {
    if ds != [] { LeftoverCounts(x, ds[..|ds| - 1]); }
  }

  /** The next Content-Length is stored as its own number exactly when nothing was left over. */
  lemma LeftoverMisread(d: Policy, s: Core, w: seq<byte>, rest: seq<byte>) returns (n: nat)
    requires s.cur == HEADER_VALUE_CONTENT_LENGTH && s.error == 0 && SpanShown(s) && AllDigits(w)
    requires Value(10, s.m.length, DecimalDigits(w)) <= MAX_UINT64
    ensures Run(d, Config(s, w + rest)) == Run(d, Config(Gain(s, w).(m := s.m.(length := n)), rest))
    ensures n == Value(10, 0, DecimalDigits(w)) <==> s.m.length == 0
  {
    hide Run, Value;
    var ds := DecimalDigits(w);
    ValueIsLarger(s.m.length, ds);
    LeftoverCounts(s.m.length, ds);
    FittingIsLongest(10, MAX_UINT64, s.m.length, ds);
    LengthRun(d, s, w, rest);
    n := Value(10, s.m.length, ds);
  }

  lemma ValueIsLarger(x: nat, ds: seq<nat>)
    ensures Value(10, x, ds) >= x
  {
    ValueGrows(10, x, ds);
  }

  /** A Content-Length trailer: its number is left to the next message. */
  lemma TrailerLeaves(d: Policy, s: Core, name: seq<byte>, w: seq<byte>, rest: seq<byte>)
    requires s.cur == HEADER_FIELD_START && s.error == 0 && s.span == None && s.index == 0 && Accepts(d)
    requires s.m.flags.trailing && !s.m.flags.contentLength && s.m.length == 0 && !s.m.upgrade
    requires name != [] && HeaderNames.AllNameBytes(name) && HeaderNames.NameCode(name) == 2
    requires w != [] && !HeaderValues.IsBlank(w[0]) && CR !in w && LF !in w && CL.IsLength(w)
    ensures var m := s.m.(headerState := 2, length := CL.Shown(w), finish := FINISH_SAFE, flags := NO_FLAGS);
      var t := Add(Add(s.trace, Piece(OnHeaderField, name)), Piece(OnHeaderValue, w)) + [HeaderValueComplete];
      Run(d, Config(s, name + [COLON] + w + Chunked.CRLF + Chunked.CRLF + rest)) ==
        Run(d, Config(s.(cur := START, trace := t + [ChunkComplete, MessageComplete], m := m), rest))
  {
    hide Run, HeaderNames.NameCode, CL.IsLength, CL.Shown, Add, IsNameByte;
    var crlf := Chunked.CRLF;
    var tail := crlf + rest;
    assert tail == [CR] + tail[1..];
    var value := w + crlf + ([CR] + tail[1..]);
    assert name + [COLON] + w + crlf + crlf + rest == name + [COLON] + value;
    assert [] + w + crlf + ([CR] + tail[1..]) == value;
    NameHasNoColon(name);
    HeaderNames.FieldName(d, s, name, value);
    var t := HeaderNames.Named(s, name);
    CL.LengthLine(d, t, [], w, crlf, CR, tail[1..]);
    var u := t.(cur := HEADER_FIELD_START, trace := Add(t.trace, Piece(OnHeaderValue, w)) + [HeaderValueComplete],
                m := t.m.(length := CL.Shown(w), flags := t.m.flags.(contentLength := true)));
    Chunked.TrailersEnd(d, u, rest);
  }

  lemma NameHasNoColon(name: seq<byte>)
    requires HeaderNames.AllNameBytes(name)
    ensures COLON !in name && CR !in name && LF !in name
  {
  }
}
