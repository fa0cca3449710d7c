/**
 What a message cannot see of the one before it: the version numbers always, the status code until
 its own is read, the method of a request until its line is read, header_state until its first name
 is read, `upgrade` until its header is complete. Two parsers that differ in nothing else report the
 same.
 */
module Likeness {
  import opened Bytes
  import opened Graph
  import opened Machine
  import opened Soundness
  import opened Strides
  import opened Walk
  import Grammar

  /** The status code of a message before is still in its field, and will not be read. */
  predicate StatusIsOld(n: Node) {
    n <= RES_HTTP_END || n == INVOKE_UPDATE_STATUS_CODE
  }

  /** The method of a request before is still in its field: between requests, and where errors are. */
  predicate VerbIsOld(n: Node) {
    n == START_REQ || n == DEAD || IsError(n) || INVOKE_LOAD_TYPE <= n <= START
  }

  predicate HeaderStateIsOld(n: Node) {
    || n <= HEADERS_ALMOST_DONE || INVOKE_RESET_HEADER_STATE <= n <= HEADER_FIELD_7
    || INVOKE_STORE_HEADER_STATE_1 <= n <= ON_STATUS_COMPLETE || n > HEADER_VALUE_LWS
  }

  predicate UpgradeIsOld(n: Node) {
    n <= HEADER_VALUE_LWS || n == INVOKE_BEFORE_HEADERS_COMPLETE || n == INVOKE_TEST_FLAGS
  }

  /** Equal in everything that can still be seen at the node. */
  predicate Alike(n: Node, a: Fields, b: Fields) {
    && a.length == b.length && a.typ == b.typ
    && (a.verb == b.verb || (VerbIsOld(n) && a.typ == HTTP_REQUEST))
    && a.lenientHeaders == b.lenientHeaders && a.lenientLength == b.lenientLength
    && a.finish == b.finish && a.flags == b.flags
    && (a.status == b.status || StatusIsOld(n) || (a.typ == HTTP_REQUEST && n > INVOKE_UPDATE_STATUS_CODE))
    && (a.headerState == b.headerState || HeaderStateIsOld(n))
    && (a.upgrade == b.upgrade || (UpgradeIsOld(n) && !a.flags.trailing))
  }

  /** An edge along which nothing old comes into sight. */
  predicate StaysOld(n: Node, next: Node) {
    && (StatusIsOld(n) ==> StatusIsOld(next))
    && (n > INVOKE_UPDATE_STATUS_CODE ==> next > INVOKE_UPDATE_STATUS_CODE || StatusIsOld(next))
    && (HeaderStateIsOld(n) ==> HeaderStateIsOld(next))
    && (UpgradeIsOld(n) ==> UpgradeIsOld(next))
    && (VerbIsOld(n) ==> VerbIsOld(next))
  }

  lemma StillAlike(n: Node, next: Node, a: Fields, b: Fields)
    requires Alike(n, a, b) && StaysOld(n, next)
    ensures Alike(next, a, b)
  {
  }

  lemma HeadBranchOld(n: Node, c: byte)
    requires ShapeOf(n).Switch? && n <= HEADER_FIELD_START
    ensures StaysOld(n, Branch(n, c).next)
  {
  }

  lemma TailBranchOld(n: Node, c: byte)
    requires ShapeOf(n).Switch? && n > HEADER_FIELD_START
    ensures StaysOld(n, Branch(n, c).next)
  {
  }

  lemma MatchOld(n: Node)
    requires ShapeOf(n).Match?
    ensures StaysOld(n, NextOf(n)) && StaysOld(n, MissOf(n))
  {
  }

  lemma OpenOld(n: Node)
    requires ShapeOf(n).Open? || ShapeOf(n).Consume?
    ensures StaysOld(n, NextOf(n))
  {
  }

  lemma CloseOld(n: Node)
    requires ShapeOf(n).Close?
    ensures StaysOld(n, NextOf(n))
  {
  }

  lemma CallOld(n: Node)
    requires ShapeOf(n).Call?
    ensures StaysOld(n, Route(n, 0))
  {
  }

  lemma DigitOld(n: Node, a: Fields, b: Fields, c: byte)
    requires ShapeOf(n).Number? && Alike(n, a, b)
    ensures StaysOld(n, MissOf(n))
    ensures IsDigitOf(n, c) ==> AfterDigit(n, a, c) == AfterDigit(n, b, c) && StaysOld(n, AfterDigit(n, a, c))
  {
    hide MulAdd10, MulAdd16, HexValue;
  }

  lemma DigitAlike(n: Node, a: Fields, b: Fields, c: byte)
    requires ShapeOf(n).Number? && Alike(n, a, b) && IsDigitOf(n, c)
    ensures Alike(n, TakeDigit(n, a, c), TakeDigit(n, b, c))
  {
    hide MulAdd10, MulAdd16, HexValue;
    if n == RES_STATUS_CODE {
      StatusIsSeen(a, b);
    }
  }

  lemma StatusIsSeen(a: Fields, b: Fields)
    requires Alike(RES_STATUS_CODE, a, b)
    ensures a.status == b.status
  {
  }

  lemma GotoAlike(n: Node, a: Fields, b: Fields)
    requires ShapeOf(n).Invoke? && Alike(n, a, b)
    ensures Goto(n, a) == Goto(n, b)
  {
    if n == INVOKE_AFTER_HEADERS_COMPLETE {
      DecisionAlike(a, b);
    }
    hide BodyDecision;
  }

  lemma DecisionAlike(a: Fields, b: Fields)
    requires Alike(INVOKE_AFTER_HEADERS_COMPLETE, a, b)
    ensures BodyDecision(a) == BodyDecision(b)
  {
    assert a.upgrade == b.upgrade && (a.status == b.status || a.typ == HTTP_REQUEST);
    assert MessageNeedsEof(a) == MessageNeedsEof(b);
    hide MessageNeedsEof;
  }

  lemma OrKeeps(m: Fields)
    ensures var o := OrHeaderFlag(m); o == m.(flags := o.flags, headerState := o.headerState)
  {
    if m.headerState == 5 {
    } else if m.headerState == 6 {
    } else if m.headerState == 7 {
    } else if m.headerState == 8 {
    }
  }

  lemma UpdateType(n: Node, m: Fields)
    ensures Update(n, m).typ ==
      if n == INVOKE_STORE_HEAD || n == INVOKE_TYPE_REQUEST then HTTP_REQUEST
      else if n == INVOKE_TYPE_RESPONSE then HTTP_RESPONSE else m.typ
  {
    OrKeeps(m);
    hide OrHeaderFlag;
  }

  lemma UpdateVerb(n: Node, m: Fields)
    ensures Update(n, m).verb == if n == INVOKE_STORE_HEAD then HTTP_HEAD else m.verb
  {
    OrKeeps(m);
    hide OrHeaderFlag;
  }

  lemma UpdateFinish(n: Node, m: Fields)
    ensures Update(n, m).finish ==
      if n == INVOKE_UPDATE_FINISH then FINISH_UNSAFE else if n == INVOKE_UPDATE_FINISH_2 then FINISH_SAFE_WITH_CB
      else if n == INVOKE_AFTER_MESSAGE_COMPLETE then FINISH_SAFE else m.finish
  {
    OrKeeps(m);
    hide OrHeaderFlag;
  }

  lemma UpdateLenient(n: Node, m: Fields)
    ensures Update(n, m).lenientHeaders == m.lenientHeaders && Update(n, m).lenientLength == m.lenientLength
  {
    OrKeeps(m);
    hide OrHeaderFlag;
  }

  lemma UpdateStatus(n: Node, m: Fields)
    ensures Update(n, m).status == if n == INVOKE_UPDATE_STATUS_CODE then 0 else m.status
  {
    OrKeeps(m);
    hide OrHeaderFlag;
  }

  lemma UpdateUpgrade(n: Node, m: Fields)
    ensures Update(n, m).upgrade ==
      if n == INVOKE_BEFORE_HEADERS_COMPLETE then UpgradeDecision(m) else n == INVOKE_SKIP_FOR_UPGRADE || m.upgrade
  {
    OrKeeps(m);
    hide OrHeaderFlag, UpgradeDecision;
  }

  /** The two upgrade decisions agree, since the status code that they look at has been read. */
  lemma UpgradeAlike(a: Fields, b: Fields)
    requires Alike(INVOKE_BEFORE_HEADERS_COMPLETE, a, b)
    ensures UpgradeDecision(a) == UpgradeDecision(b)
  {
  }

  /** The silent blocks that look at header_state. */
  predicate Loads(n: Node) {
    || n == INVOKE_LOAD_HEADER_STATE || n == INVOKE_LOAD_HEADER_STATE_2
    || n == INVOKE_LOAD_HEADER_STATE_3 || n == INVOKE_LOAD_HEADER_STATE_4
  }

  /** The others that touch `flags`. */
  predicate Marks(n: Node) {
    || n == INVOKE_OR_CONTENT_LENGTH || n == INVOKE_SKIP_BODY || n == INVOKE_SKIP_FOR_UPGRADE
    || n == INVOKE_OR_TRAILING || n == INVOKE_AFTER_MESSAGE_COMPLETE
  }

  lemma LoadsAlike(n: Node, a: Fields, b: Fields)
    requires Loads(n)
    requires a.flags == b.flags && a.headerState == b.headerState
    ensures Update(n, a).flags == Update(n, b).flags && Update(n, a).headerState == Update(n, b).headerState
  {
    OrAlike(a, b);
    hide OrHeaderFlag;
    if n == INVOKE_LOAD_HEADER_STATE {
    } else if n == INVOKE_LOAD_HEADER_STATE_2 {
      if a.headerState == 3 {
      } else if a.headerState == 4 {
      }
    } else if n == INVOKE_LOAD_HEADER_STATE_3 {
    }
  }

  lemma OrAlike(a: Fields, b: Fields)
    requires a.flags == b.flags && a.headerState == b.headerState
    ensures OrHeaderFlag(a).flags == OrHeaderFlag(b).flags && OrHeaderFlag(a).headerState == OrHeaderFlag(b).headerState
  {
    if a.headerState == 5 {
    } else if a.headerState == 6 {
    } else if a.headerState == 7 {
    } else if a.headerState == 8 {
    }
  }

  lemma MarksAlike(n: Node, a: Fields, b: Fields)
    requires Marks(n)
    requires a.flags == b.flags
    ensures Update(n, a).flags == Update(n, b).flags
  {
    if n == INVOKE_OR_CONTENT_LENGTH {
    } else if n == INVOKE_SKIP_BODY {
    } else if n == INVOKE_SKIP_FOR_UPGRADE {
    } else if n == INVOKE_OR_TRAILING {
    }
  }

  lemma FlagsAlike(n: Node, a: Fields, b: Fields)
    requires a.flags == b.flags && (Loads(n) ==> a.headerState == b.headerState)
    ensures Update(n, a).flags == Update(n, b).flags
  {
    hide Update;
    if Loads(n) {
      LoadsAlike(n, a, b);
    } else if Marks(n) {
      MarksAlike(n, a, b);
    } else {
      Grammar.UpdateKeepsFlags(n, a);
      Grammar.UpdateKeepsFlags(n, b);
    }
  }

  /** The blocks that set header_state to a number of their own. */
  predicate Stores(n: Node) {
    || INVOKE_STORE_HEADER_STATE_1 <= n <= INVOKE_STORE_HEADER_STATE_4 || n == INVOKE_RESET_HEADER_STATE
    || n == INVOKE_STORE_CONNECTION_5 || n == INVOKE_STORE_CONNECTION_6 || n == INVOKE_STORE_CONNECTION_7
    || n == INVOKE_RESET_CONNECTION || n == INVOKE_STORE_CHUNKED || n == INVOKE_RESET_TRANSFER_ENCODING
  }

  lemma StoresAlike(n: Node, a: Fields, b: Fields)
    requires Stores(n)
    ensures Update(n, a).headerState == Update(n, b).headerState
  {
    hide OrHeaderFlag, UpgradeDecision;
  }

  lemma KeepsHeaderState(n: Node, m: Fields)
    requires !Loads(n) && !Stores(n)
    ensures Update(n, m).headerState == m.headerState
  {
    hide OrHeaderFlag, UpgradeDecision;
  }

  /** header_state comes into sight only where it is set. */
  lemma StoresFirst(n: Node, m: Fields)
    requires ShapeOf(n).Invoke? && HeaderStateIsOld(n) && !HeaderStateIsOld(Goto(n, m))
    ensures Stores(n)
  {
    hide BodyDecision;
    DecisionIsOld(m);
  }

  lemma DecisionIsOld(m: Fields)
    ensures HeaderStateIsOld(BodyDecision(m)) && StatusOrPast(BodyDecision(m))
  {
  }

  predicate StatusOrPast(n: Node) {
    StatusIsOld(n) || n > INVOKE_UPDATE_STATUS_CODE
  }

  /** What comes into sight along the edge of a silent block, the block has set. */
  lemma InvokeOld(n: Node, m: Fields)
    requires ShapeOf(n).Invoke?
    ensures StatusIsOld(n) && !StatusIsOld(Goto(n, m)) ==> n == INVOKE_UPDATE_STATUS_CODE
    ensures n > INVOKE_UPDATE_STATUS_CODE ==> StatusOrPast(Goto(n, m))
    ensures UpgradeIsOld(n) && !UpgradeIsOld(Goto(n, m)) ==>
      n == INVOKE_BEFORE_HEADERS_COMPLETE || (n == INVOKE_TEST_FLAGS && m.flags.trailing)
    ensures VerbIsOld(n) && m.typ == HTTP_REQUEST ==> VerbIsOld(Goto(n, m))
    ensures VerbIsOld(n) ==> n == INVOKE_LOAD_TYPE || n == INVOKE_UPDATE_FINISH
    ensures Loads(n) ==> !HeaderStateIsOld(n)
    ensures n == INVOKE_OR_TRAILING ==> !UpgradeIsOld(n)
  {
    hide BodyDecision;
    DecisionIsOld(m);
  }

  lemma InvokeAlike(n: Node, a: Fields, b: Fields)
    requires ShapeOf(n).Invoke? && Alike(n, a, b)
    ensures Goto(n, a) == Goto(n, b) && Alike(Goto(n, a), Update(n, a), Update(n, b))
  {
    hide ShapeOf, Goto, Update, StatusIsOld, HeaderStateIsOld, UpgradeIsOld, VerbIsOld, UpgradeDecision;
    GotoAlike(n, a, b);
    InvokeOld(n, a);
    Grammar.UpdateLength(n, a); Grammar.UpdateLength(n, b);
    UpdateType(n, a); UpdateType(n, b);
    UpdateVerb(n, a); UpdateVerb(n, b);
    UpdateFinish(n, a); UpdateFinish(n, b);
    UpdateLenient(n, a); UpdateLenient(n, b);
    UpdateStatus(n, a); UpdateStatus(n, b);
    UpdateUpgrade(n, a); UpdateUpgrade(n, b);
    FlagsAlike(n, a, b);
    Grammar.UpdateTrailing(n, a);
    if n == INVOKE_BEFORE_HEADERS_COMPLETE { UpgradeAlike(a, b); }
    if Loads(n) {
      LoadsAlike(n, a, b);
    } else if Stores(n) {
      StoresAlike(n, a, b);
    } else {
      KeepsHeaderState(n, a); KeepsHeaderState(n, b);
      if HeaderStateIsOld(n) && !HeaderStateIsOld(Goto(n, a)) { StoresFirst(n, a); }
    }
  }

  /** `s` is `t` with the callbacks `p` before its own, and with other leftovers. */
  ghost predicate Follows(p: seq<Event>, s: Core, t: Core) {
    && s.cur == t.cur && s.index == t.index && s.span == t.span && s.error == t.error
    && s.trace == p + t.trace && (p == [] || !p[|p| - 1].Piece?)
    && Alike(s.cur, s.m, t.m)
  }

  lemma AddBehind(p: seq<Event>, t: seq<Event>, e: Event)
    requires p == [] || !p[|p| - 1].Piece?
    ensures Add(p + t, e) == p + Add(t, e)
  {
    if t != [] {
      assert (p + t)[|p + t| - 1] == t[|t| - 1];
      assert (p + t)[..|p + t| - 1] == p + t[..|t| - 1];
    } else {
      assert p + t == p;
    }
  }

  lemma TakeFollows(p: seq<Event>, s: Core, t: Core, c: byte)
    requires Follows(p, s, t)
    ensures Follows(p, Take(s, c), Take(t, c))
  {
    hide Add, Alike;
    if s.span.Some? { AddBehind(p, t.trace, Piece(s.span.value, [c])); }
  }

  lemma StopOld(n: Node)
    ensures ShapeOf(n).Stop? ==> StaysOld(n, INVOKE_AFTER_MESSAGE_COMPLETE)
    ensures ShapeOf(n).Fail? ==> StaysOld(n, DEAD)
  {
  }

  lemma NumberFollows(d: Policy, p: seq<Event>, s: Core, t: Core, input: seq<byte>)
    requires Follows(p, s, t) && !Halted(Config(s, input)) && ShapeOf(s.cur).Number?
    ensures var a, b := Tick(d, Config(s, input)), Tick(d, Config(t, input)); a.input == b.input && Follows(p, a.s, b.s)
  {
    hide AfterDigit, TakeDigit, IsDigitOf, MissOf, Add, StaysOld;
    var n, c := s.cur, input[0];
    TakeFollows(p, s, t, c);
    DigitOld(n, s.m, t.m, c);
    if IsDigitOf(n, c) {
      DigitAlike(n, s.m, t.m, c);
      StillAlike(n, AfterDigit(n, s.m, c), TakeDigit(n, s.m, c), TakeDigit(n, t.m, c));
    } else {
      StillAlike(n, MissOf(n), s.m, t.m);
    }
  }

  lemma EventAlike(n: Node, a: Fields, b: Fields)
    requires a.length == b.length
    ensures EventOf(n, a) == EventOf(n, b)
  {
  }

  lemma CallFollows(d: Policy, p: seq<Event>, s: Core, t: Core, input: seq<byte>)
    requires Follows(p, s, t) && Accepts(d) && !Halted(Config(s, input)) && ShapeOf(s.cur).Call?
    ensures var a, b := Tick(d, Config(s, input)), Tick(d, Config(t, input)); a.input == b.input && Follows(p, a.s, b.s)
  {
    hide Route, EventOf, Add, StaysOld;
    EventAlike(s.cur, s.m, t.m);
    AddBehind(p, t.trace, EventOf(s.cur, s.m));
    CallOld(s.cur);
    StillAlike(s.cur, Route(s.cur, 0), s.m, t.m);
  }

  /** One block keeps the likeness. */
  lemma TickFollows(d: Policy, p: seq<Event>, s: Core, t: Core, input: seq<byte>)
    requires Follows(p, s, t) && Accepts(d) && !Halted(Config(s, input))
    ensures !Halted(Config(t, input))
    ensures var a, b := Tick(d, Config(s, input)), Tick(d, Config(t, input)); a.input == b.input && Follows(p, a.s, b.s)
  {
    hide Branch, Goto, Update, Route, NextOf, MissOf, AfterDigit, TakeDigit, IsDigitOf, EventOf, WordOf, FoldOf, Skips, KindOf, Add, StaysOld;
    var n := s.cur;
    match ShapeOf(n)
    case Switch =>
      TakeFollows(p, s, t, input[0]);
      if n <= HEADER_FIELD_START { HeadBranchOld(n, input[0]); } else { TailBranchOld(n, input[0]); }
      StillAlike(n, Branch(n, input[0]).next, s.m, t.m);
    case Number => NumberFollows(d, p, s, t, input);
    case Match =>
      TakeFollows(p, s, t, input[0]);
      MatchOld(n);
      StillAlike(n, NextOf(n), s.m, t.m);
      StillAlike(n, MissOf(n), s.m, t.m);
    case Consume =>
      OpenOld(n);
      StillAlike(n, NextOf(n), s.m, t.m);
      if s.m.length > 0 { TakeFollows(p, s, t, input[0]); }
    case Open =>
      OpenOld(n);
      StillAlike(n, NextOf(n), s.m, t.m);
      AddBehind(p, t.trace, Piece(KindOf(n), []));
    case Close =>
      CloseOld(n);
      StillAlike(n, NextOf(n), s.m, t.m);
    case Call => CallFollows(d, p, s, t, input);
    case Invoke => InvokeAlike(n, s.m, t.m);
    case Fail =>
      StopOld(n);
      StillAlike(n, DEAD, s.m, t.m);
    case Stop =>
      StopOld(n);
      StillAlike(n, INVOKE_AFTER_MESSAGE_COMPLETE, s.m, t.m);
    case Park =>
  }

  lemma HaltFollows(p: seq<Event>, s: Core, t: Core, input: seq<byte>)
    requires Follows(p, s, t)
    ensures Halted(Config(s, input)) <==> Halted(Config(t, input))
  {
  }

  /** Two parsers that differ in leftovers only do the same on the same bytes. */
  lemma {:induction false} RunFollows(d: Policy, p: seq<Event>, s: Core, t: Core, input: seq<byte>)
    requires Follows(p, s, t) && Accepts(d)
    ensures var a, b := Run(d, Config(s, input)), Run(d, Config(t, input)); a.input == b.input && Follows(p, a.s, b.s)
    decreases |input|, s.cur
  {
    hide Follows, Tick, Halted, Accepts;
    HaltFollows(p, s, t, input);
    if !Halted(Config(s, input)) {
      TickFollows(d, p, s, t, input);
      TickDescends(d, Config(s, input));
      var a, b := Tick(d, Config(s, input)), Tick(d, Config(t, input));
      RunFollows(d, p, a.s, b.s, a.input);
    }
  }

  /** The request line, read elsewhere, keeps the likeness. */
  lemma RequestLineFollows(p: seq<Event>, s: Core, t: Core, verb: nat, major: nat, minor: nat, url: seq<byte>)
    requires Follows(p, s, t) && AtRequestLine(s) && s.m.typ == HTTP_REQUEST
    ensures AtRequestLine(t)
    ensures Follows(p, AfterRequestLine(s, verb, major, minor, url), AfterRequestLine(t, verb, major, minor, url))
  {
    AddBehind(p, t.trace, Piece(OnUrl, url));
    AddBehind(p, Add(t.trace, Piece(OnUrl, url)), UrlComplete);
  }
}
