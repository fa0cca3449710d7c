/**
 What holds wherever a run comes by, for parsers of requests, of responses and of both: a message
 is not chunked without a coding, and has a type when its header is complete.
 */
module Reached {
  import opened Bytes
  import opened Graph
  import opened Machine
  import opened Soundness
  import opened Requests
  import opened Framing
  import L = Likeness
  import Grammar

  /** The nodes inside a value of Transfer-Encoding. */
  predicate InCoding(n: Node) {
    INVOKE_RESET_TRANSFER_ENCODING <= n <= HEADER_VALUE_TE_CHUNKED || INVOKE_STORE_CHUNKED <= n <= HEADER_VALUE_TE_TOKEN_OWS
  }

  /** The nodes where the type of the first message may not be known. */
  predicate Untyped(n: Node) {
    || n == DEAD || IsError(n) || INVOKE_TYPE_REQUEST <= n <= START_REQ_OR_RES
    || INVOKE_LOAD_TYPE <= n <= INVOKE_STORE_HEAD || n == INVOKE_TYPE_RESPONSE
  }

  /** F_CHUNKED comes with F_TRANSFER_ENCODING, and so does the code for it in header_state, unless it is an old one. */
  predicate Coded(n: Node, m: Fields) {
    && (m.flags.chunked ==> m.flags.transferEncoding)
    && (m.headerState == 8 ==> m.flags.transferEncoding || L.HeaderStateIsOld(n))
    && (InCoding(n) ==> m.flags.transferEncoding)
  }

  predicate Typed(n: Node, m: Fields) {
    m.typ <= HTTP_RESPONSE && (m.typ == HTTP_BOTH ==> Untyped(n))
  }

  predicate Known(s: Core) {
    Coded(s.cur, s.m) && Typed(s.cur, s.m)
  }

  /** An edge along which nothing has to be known that was not. */
  predicate Along(n: Node, next: Node) {
    && (L.HeaderStateIsOld(n) ==> L.HeaderStateIsOld(next))
    && (InCoding(next) ==> InCoding(n))
    && (Untyped(n) ==> Untyped(next))
  }

  lemma StillKnown(n: Node, next: Node, m: Fields, t: Fields)
    requires Coded(n, m) && Typed(n, m) && Along(n, next)
    requires t.flags == m.flags && t.headerState == m.headerState && t.typ == m.typ
    ensures Coded(next, t) && Typed(next, t)
  {
  }

  lemma HeadBranchAlong(n: Node, c: byte)
    requires ShapeOf(n).Switch? && n <= HEADER_FIELD_START
    ensures Along(n, Branch(n, c).next)
  {
  }

  lemma TailBranchAlong(n: Node, c: byte)
    requires ShapeOf(n).Switch? && n > HEADER_FIELD_START
    ensures Along(n, Branch(n, c).next)
  {
  }

  lemma MatchAlong(n: Node)
    requires ShapeOf(n).Match?
    ensures Along(n, NextOf(n)) && Along(n, MissOf(n))
  {
  }

  lemma SpanAlong(n: Node)
    ensures ShapeOf(n).Open? || ShapeOf(n).Consume? ==> Along(n, NextOf(n))
    ensures ShapeOf(n).Close? ==> Along(n, NextOf(n))
    ensures ShapeOf(n).Stop? ==> Along(n, INVOKE_AFTER_MESSAGE_COMPLETE)
  {
  }

  lemma CallAlong(n: Node, answer: int)
    requires ShapeOf(n).Call?
    ensures Along(n, Route(n, answer))
  {
  }

  lemma NumberAlong(n: Node, m: Fields, c: byte)
    requires ShapeOf(n).Number?
    ensures Along(n, MissOf(n))
    ensures IsDigitOf(n, c) ==> Along(n, AfterDigit(n, m, c))
  {
    hide MulAdd10, MulAdd16, HexValue;
  }

  lemma DigitKeeps(n: Node, m: Fields, c: byte)
    requires IsDigitOf(n, c)
    ensures var t := TakeDigit(n, m, c); t.flags == m.flags && t.headerState == m.headerState && t.typ == m.typ
  {
    hide MulAdd10, MulAdd16, HexValue, IsDigitOf;
  }

  /** Where a silent block leads, as far as it matters here. */
  lemma InvokeAlong(n: Node, m: Fields)
    requires ShapeOf(n).Invoke?
    ensures InCoding(Goto(n, m)) ==> InCoding(n) || (n == INVOKE_LOAD_HEADER_STATE_2 && m.headerState == 3)
    ensures Untyped(n) && m.typ == HTTP_BOTH && !Untyped(Goto(n, m)) ==>
      n == INVOKE_STORE_HEAD || n == INVOKE_TYPE_REQUEST || n == INVOKE_TYPE_RESPONSE
    ensures n == INVOKE_STORE_CHUNKED ==> InCoding(n)
    ensures n == INVOKE_AFTER_MESSAGE_COMPLETE ==> L.HeaderStateIsOld(Goto(n, m)) && !InCoding(Goto(n, m))
  {
    hide BodyDecision;
    DecisionAlong(m);
  }

  lemma DecisionAlong(m: Fields)
    ensures !InCoding(BodyDecision(m))
  {
  }

  /** What the blocks that look at header_state do to the coding flags. */
  lemma LoadsCoding(n: Node, m: Fields)
    requires L.Loads(n)
    ensures var t := Update(n, m);
      && t.flags.transferEncoding == (m.flags.transferEncoding || (n == INVOKE_LOAD_HEADER_STATE_2 && m.headerState == 3))
      && (t.flags.chunked ==> m.flags.chunked || m.headerState == 8)
      && (t.headerState == 8 ==> m.headerState == 8)
  {
    hide Update, OrHeaderFlag;
    OrCoding(m);
    LoadStarts(n, m);
    LoadEnds(n, m);
    if m.headerState == 3 {
    } else if m.headerState == 4 {
    }
  }

  lemma LoadStarts(n: Node, m: Fields)
    ensures n == INVOKE_LOAD_HEADER_STATE_2 && m.headerState == 3 ==> Update(n, m) == m.(flags := m.flags.(transferEncoding := true))
    ensures n == INVOKE_LOAD_HEADER_STATE_2 && m.headerState == 4 ==>
      Update(n, m) == m.(flags := m.flags.(upgrade := true), headerState := 0)
    ensures n == INVOKE_LOAD_HEADER_STATE_2 && m.headerState != 3 && m.headerState != 4 ==> Update(n, m) == m
  {
    hide OrHeaderFlag, UpgradeDecision;
  }

  lemma LoadEnds(n: Node, m: Fields)
    ensures n == INVOKE_LOAD_HEADER_STATE_3 || n == INVOKE_LOAD_HEADER_STATE_4 ==> Update(n, m) == OrHeaderFlag(m)
    ensures n == INVOKE_LOAD_HEADER_STATE ==> Update(n, m) == if m.headerState == 2 then m else OrHeaderFlag(m)
  {
    hide OrHeaderFlag;
  }

  lemma OrCoding(m: Fields)
    ensures var t := OrHeaderFlag(m);
      && t.flags.transferEncoding == m.flags.transferEncoding
      && (t.flags.chunked ==> m.flags.chunked || m.headerState == 8)
      && (t.headerState == 8 ==> m.headerState == 8)
  {
    if m.headerState == 5 {
    } else if m.headerState == 6 {
    } else if m.headerState == 7 {
    } else if m.headerState == 8 {
    }
  }

  lemma MarksCoding(n: Node, m: Fields)
    requires L.Marks(n) && n != INVOKE_AFTER_MESSAGE_COMPLETE
    ensures var t := Update(n, m).flags; t.transferEncoding == m.flags.transferEncoding && t.chunked == m.flags.chunked
  {
    if n == INVOKE_OR_CONTENT_LENGTH {
    } else if n == INVOKE_SKIP_BODY {
    } else if n == INVOKE_SKIP_FOR_UPGRADE {
    }
  }

  lemma MessageForgets(m: Fields)
    ensures Update(INVOKE_AFTER_MESSAGE_COMPLETE, m).flags == NO_FLAGS
  {
  }

  /** Only one block stores the code of chunked. */
  lemma StoresChunked(n: Node, m: Fields)
    requires L.Stores(n) && Update(n, m).headerState == 8
    ensures n == INVOKE_STORE_CHUNKED
  {
    hide OrHeaderFlag, UpgradeDecision;
  }

  /** The coding flags of a silent block's result. */
  lemma InvokeFlags(n: Node, m: Fields)
    requires n != INVOKE_AFTER_MESSAGE_COMPLETE
    ensures var t := Update(n, m);
      && t.flags.transferEncoding == (m.flags.transferEncoding || (n == INVOKE_LOAD_HEADER_STATE_2 && m.headerState == 3))
      && (t.flags.chunked ==> m.flags.chunked || (L.Loads(n) && m.headerState == 8))
  {
    hide Update;
    if L.Loads(n) {
      LoadsCoding(n, m);
    } else if L.Marks(n) {
      MarksCoding(n, m);
    } else {
      Grammar.UpdateKeepsFlags(n, m);
    }
  }

  /** header_state stands for chunked after a silent block only if it did, or if the block stored it. */
  lemma InvokeCode(n: Node, m: Fields)
    requires ShapeOf(n).Invoke? && Update(n, m).headerState == 8
    ensures n == INVOKE_STORE_CHUNKED || (m.headerState == 8 && (L.HeaderStateIsOld(n) ==> L.HeaderStateIsOld(Goto(n, m))))
  {
    hide ShapeOf, Goto, Update, L.HeaderStateIsOld;
    if L.Loads(n) {
      LoadsCoding(n, m);
      L.InvokeOld(n, m);
    } else if L.Stores(n) {
      StoresChunked(n, m);
    } else {
      L.KeepsHeaderState(n, m);
      if L.HeaderStateIsOld(n) && !L.HeaderStateIsOld(Goto(n, m)) { L.StoresFirst(n, m); }
    }
  }

  lemma InvokeKnown(n: Node, m: Fields)
    requires ShapeOf(n).Invoke? && Coded(n, m) && Typed(n, m)
    ensures Coded(Goto(n, m), Update(n, m)) && Typed(Goto(n, m), Update(n, m))
  {
    hide ShapeOf, Goto, Update, L.HeaderStateIsOld, InCoding, Untyped;
    InvokeAlong(n, m);
    L.InvokeOld(n, m);
    L.UpdateType(n, m);
    if n == INVOKE_AFTER_MESSAGE_COMPLETE {
      MessageForgets(m);
    } else {
      InvokeFlags(n, m);
      if Update(n, m).headerState == 8 { InvokeCode(n, m); }
    }
  }

  lemma TickKnown(d: Policy, k: Config)
    requires !Halted(k) && Known(k.s)
    ensures Known(Tick(d, k).s)
  {
    hide Branch, Goto, Update, Route, NextOf, MissOf, AfterDigit, TakeDigit, IsDigitOf, EventOf, WordOf, FoldOf, Skips, KindOf, Add, Coded, Typed, Along;
    var n, m := k.s.cur, k.s.m;
    match ShapeOf(n)
    case Switch =>
      if n <= HEADER_FIELD_START { HeadBranchAlong(n, k.input[0]); } else { TailBranchAlong(n, k.input[0]); }
      StillKnown(n, Branch(n, k.input[0]).next, m, m);
    case Number =>
      NumberAlong(n, m, k.input[0]);
      if IsDigitOf(n, k.input[0]) {
        DigitKeeps(n, m, k.input[0]);
        StillKnown(n, AfterDigit(n, m, k.input[0]), m, TakeDigit(n, m, k.input[0]));
      } else {
        StillKnown(n, MissOf(n), m, m);
      }
    case Match =>
      MatchAlong(n);
      StillKnown(n, NextOf(n), m, m);
      StillKnown(n, MissOf(n), m, m);
    case Consume =>
      SpanAlong(n);
      StillKnown(n, NextOf(n), m, m);
      if m.length > 0 { StaysAlong(n); StillKnown(n, n, m, m.(length := m.length - 1)); }
    case Open =>
      SpanAlong(n);
      StillKnown(n, NextOf(n), m, m);
    case Close =>
      SpanAlong(n);
      StillKnown(n, NextOf(n), m, m);
    case Call =>
      CallAlong(n, d(Add(k.s.trace, EventOf(n, m))));
      StillKnown(n, Route(n, d(Add(k.s.trace, EventOf(n, m)))), m, m);
    case Invoke => InvokeKnown(n, m);
    case Fail => DeadKnown(n, m);
    case Stop =>
      SpanAlong(n);
      StillKnown(n, INVOKE_AFTER_MESSAGE_COMPLETE, m, m);
    case Park =>
  }

  lemma StaysAlong(n: Node)
    ensures Along(n, n)
  {
  }

  lemma DeadKnown(n: Node, m: Fields)
    requires Coded(n, m) && Typed(n, m)
    ensures Coded(DEAD, m) && Typed(DEAD, m)
  {
  }

  lemma {:induction false} TicksKnown(d: Policy, k: Config, n: nat)
    requires Known(k.s)
    ensures Known(Ticks(d, k, n).s)
    decreases n
  {
    hide Tick, Halted, Known;
    if n > 0 && !Halted(k) {
      TickKnown(d, k);
      TicksKnown(d, Tick(d, k), n - 1);
    }
  }

  lemma ReachesKnown(d: Policy, k: Config, t: Config)
    requires Known(k.s) && Reaches(d, k, t)
    ensures Known(t.s)
  {
    hide Ticks, Known;
    var n: nat :| Ticks(d, k, n) == t;
    TicksKnown(d, k, n);
  }

  lemma LineKnown(k: Config, v: Verdict)
    requires AtRequestLine(k.s) && Measured(v, k.input) && v.Line? && Known(k.s)
    ensures Known(Behind(k, v).s)
  {
  }

  lemma {:induction false} PassesKnown(d: Policy, reader: Reader, k: Config, t: Config)
    requires Steady(reader) && Known(k.s) && Passes(d, reader, k, t)
    ensures Known(t.s)
    decreases |k.input|
  {
    hide Known, Run, Reaches, Behind;
    if Reaches(d, k, t) {
      ReachesKnown(d, k, t);
    } else {
      var r := Run(d, k);
      var v := reader(r.s.cur, r.input);
      RunIsReached(d, k);
      ReachesKnown(d, k, r);
      RunLeavesSuffix(d, k);
      LineKnown(r, v);
      BehindMore(d, reader, r, []);
      PassesKnown(d, reader, Behind(r, v), t);
    }
  }

  /** Whenever the body of a message is chosen, its header is done: on any stream, with any request lines, whatever the user answers. */
  lemma HeaderEndIsDone(d: Policy, reader: Reader, typ: nat, input: seq<byte>, t: Config)
    requires Steady(reader) && typ <= HTTP_RESPONSE
    requires Passes(d, reader, Config(Fresh(typ), input), t) && t.s.cur == INVOKE_AFTER_HEADERS_COMPLETE
    ensures HeaderDone(t.s.m)
  {
    assert Known(Fresh(typ));
    PassesKnown(d, reader, Config(Fresh(typ), input), t);
  }

  /** So every choice that a run makes without an upgrade is that of the standard, but for the one family. */
  lemma RunsDecideAsStandard(d: Policy, reader: Reader, typ: nat, input: seq<byte>, t: Config)
    requires Steady(reader) && typ <= HTTP_RESPONSE
    requires Passes(d, reader, Config(Fresh(typ), input), t) && t.s.cur == INVOKE_AFTER_HEADERS_COMPLETE
    requires !t.s.m.upgrade && !t.s.m.lenientLength && t.s.error == 0
    ensures var m := t.s.m;
      Meaning(Tick(d, t).s.cur, m.length) == Standard(m) <==>
        !(m.typ == HTTP_RESPONSE && NeverHasBody(m.status) && !m.flags.skipBody &&
          (m.flags.transferEncoding || (m.flags.contentLength && m.length > 0)))
  {
    HeaderEndIsDone(d, reader, typ, input, t);
    ChoiceIsDecision(d, t);
    hide Passes, Meaning, Standard, BodyDecision, Tick, HeaderDone;
    DecidesAsStandard(t.s.m);
  }

  lemma RunsUpgradeAsStandard(d: Policy, reader: Reader, typ: nat, input: seq<byte>, t: Config)
    requires Steady(reader) && typ <= HTTP_RESPONSE
    requires Passes(d, reader, Config(Fresh(typ), input), t) && t.s.cur == INVOKE_AFTER_HEADERS_COMPLETE
    requires t.s.m.upgrade && !t.s.m.lenientLength && t.s.error == 0
    ensures Meaning(Tick(d, t).s.cur, t.s.m.length) == Wanted(t.s.m) <==> UpgradeFits(t.s.m)
  {
    HeaderEndIsDone(d, reader, typ, input, t);
    ChoiceIsDecision(d, t);
    hide Passes, Meaning, Wanted, UpgradeFits, BodyDecision, Tick, HeaderDone;
    UpgradesAsStandard(t.s.m);
  }

  lemma ChoiceIsDecision(d: Policy, t: Config)
    requires t.s.cur == INVOKE_AFTER_HEADERS_COMPLETE && t.s.error == 0
    ensures !Halted(t) && Tick(d, t).s.cur == BodyDecision(t.s.m)
  {
    hide BodyDecision;
  }
}
