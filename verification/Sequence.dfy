/**
 Messages of one type, one after another: a parser that has read whole messages, and left nothing
 behind, reads what follows as a fresh one does. A parser of both types takes the type of its first
 message, and reads what follows as a fresh parser of that type does.
 */
module Sequence {
  import opened Bytes
  import opened Graph
  import opened Machine
  import opened Soundness
  import opened Walk
  import opened Requests
  import opened Pipeline
  import Grammar
  import L = Likeness
  import R = Reached
  import Session

  /** A fresh parser, with its lenient flags. */
  function Endpoint(typ: nat, lenientHeaders: bool, lenientLength: bool): Core {
    var s := Fresh(typ);
    s.(m := s.m.(lenientHeaders := lenientHeaders, lenientLength := lenientLength))
  }

  predicate IsEndpoint(c: Core) {
    c.m.typ <= HTTP_RESPONSE && c == Endpoint(c.m.typ, c.m.lenientHeaders, c.m.lenientLength)
  }

  /** The nodes where the type of a message is guessed. */
  predicate Guesses(n: Node) {
    || n == REQ_FIRST_SPACE_BEFORE_URL || INVOKE_TYPE_REQUEST <= n <= START_REQ_OR_RES
    || REQ_OR_RES_METHOD_1 <= n <= INVOKE_STORE_HEAD || n == INVOKE_TYPE_RESPONSE
  }

  /** A parser of one type stays one; a parser of responses does not meet a request line; and no type is guessed once it is known. */
  predicate Keeps(s: Core, c: Core) {
    && s.m.typ <= HTTP_RESPONSE && (c.m.typ != HTTP_BOTH ==> s.m.typ == c.m.typ && !Guesses(s.cur))
    && (s.m.typ == HTTP_BOTH ==> R.Untyped(s.cur) && s.m.verb == c.m.verb)
    && (s.m.typ == HTTP_RESPONSE ==> !Guesses(s.cur) && s.cur != START_REQ && s.m.verb == c.m.verb)
    && (s.m.typ == HTTP_REQUEST ==> !Guesses(s.cur) || s.cur == REQ_FIRST_SPACE_BEFORE_URL)
    && s.m.lenientHeaders == c.m.lenientHeaders && s.m.lenientLength == c.m.lenientLength
  }

  lemma EdgesKeep(n: Node, m: Fields, c: byte)
    requires !Guesses(n)
    ensures ShapeOf(n).Switch? ==> !Guesses(Branch(n, c).next) && Branch(n, c).next != START_REQ
    ensures ShapeOf(n).Number? ==> !Guesses(MissOf(n)) && MissOf(n) != START_REQ
    ensures ShapeOf(n).Number? && IsDigitOf(n, c) ==> !Guesses(AfterDigit(n, m, c)) && AfterDigit(n, m, c) != START_REQ
    ensures ShapeOf(n).Call? ==> !Guesses(Route(n, 0)) && Route(n, 0) != START_REQ
    ensures ShapeOf(n).Match? ==> !Guesses(MissOf(n)) && MissOf(n) != START_REQ
  {
    hide MulAdd10, MulAdd16, HexValue;
  }

  lemma NextKeeps(n: Node)
    requires !Guesses(n)
    ensures !Guesses(NextOf(n)) && NextOf(n) != START_REQ
  {
  }

  lemma InvokeKeeps(n: Node, m: Fields)
    requires !Guesses(n) && (m.typ == HTTP_REQUEST || m.typ == HTTP_RESPONSE) && ShapeOf(n).Invoke?
    ensures !Guesses(Goto(n, m)) && (m.typ == HTTP_RESPONSE ==> Goto(n, m) != START_REQ)
  {
  }

  lemma DigitKeeps(n: Node, m: Fields, c: byte)
    requires IsDigitOf(n, c)
    ensures var t := TakeDigit(n, m, c);
      t.typ == m.typ && t.verb == m.verb && t.lenientHeaders == m.lenientHeaders && t.lenientLength == m.lenientLength
  {
    hide MulAdd10, MulAdd16, HexValue, IsDigitOf;
  }

  lemma TypedTick(d: Policy, k: Config, c: Core)
    requires !Halted(k) && Keeps(k.s, c) && Accepts(d) && k.s.m.typ != HTTP_BOTH
    ensures Keeps(Tick(d, k).s, c)
  {
    var n, m := k.s.cur, k.s.m;
    EdgesKeep(n, m, if k.input == [] then 0 else k.input[0]);
    NextKeeps(n);
    if ShapeOf(n).Invoke? {
      InvokeKeeps(n, m);
      L.UpdateType(n, m);
      L.UpdateVerb(n, m);
      L.UpdateLenient(n, m);
    } else if ShapeOf(n).Number? && IsDigitOf(n, k.input[0]) {
      DigitKeeps(n, m, k.input[0]);
    }
    hide ShapeOf, Branch, Goto, Update, Route, NextOf, MissOf, AfterDigit, TakeDigit, IsDigitOf, EventOf, KindOf, Skips, WordOf, FoldOf, Add;
  }

  /** What a silent block does to the type. */
  lemma TypeSet(n: Node, m: Fields)
    requires ShapeOf(n).Invoke? && R.Untyped(n) && m.typ == HTTP_BOTH
    ensures n == INVOKE_STORE_HEAD ==> Goto(n, m) == REQ_FIRST_SPACE_BEFORE_URL
    ensures n == INVOKE_TYPE_REQUEST ==> !Guesses(Goto(n, m))
    ensures n == INVOKE_TYPE_RESPONSE ==> !Guesses(Goto(n, m)) && Goto(n, m) != START_REQ
  {
  }

  /** The shapes of the nodes where the type may not be known. */
  lemma UntypedShapes(n: Node)
    requires R.Untyped(n)
    ensures !ShapeOf(n).Number? && !ShapeOf(n).Consume? && !ShapeOf(n).Open? && !ShapeOf(n).Close? && !ShapeOf(n).Stop?
    ensures R.Untyped(DEAD) && (ShapeOf(n).Switch? ==> n <= HEADER_FIELD_START)
  {
  }

  lemma UntypedTick(d: Policy, k: Config, c: Core)
    requires !Halted(k) && Keeps(k.s, c) && k.s.m.typ == HTTP_BOTH
    ensures Keeps(Tick(d, k).s, c)
  {
    var n, m := k.s.cur, k.s.m;
    UntypedShapes(n);
    match ShapeOf(n) {
      case Switch => R.HeadBranchAlong(n, k.input[0]);
      case Match => R.MatchAlong(n);
      case Call => R.CallAlong(n, d(Add(k.s.trace, EventOf(n, m))));
      case Invoke =>
        R.InvokeAlong(n, m);
        TypeSet(n, m);
        L.UpdateType(n, m);
        L.UpdateVerb(n, m);
        L.UpdateLenient(n, m);
      case _ =>
    }
    hide ShapeOf, Branch, Goto, Update, Route, NextOf, MissOf, AfterDigit, TakeDigit, IsDigitOf, EventOf, KindOf, Skips, WordOf, FoldOf, Add, R.Untyped, L.HeaderStateIsOld;
  }

  lemma TickKeeps(d: Policy, k: Config, c: Core)
    requires !Halted(k) && Keeps(k.s, c) && Accepts(d)
    ensures Keeps(Tick(d, k).s, c)
  {
    hide Keeps, Tick, Halted;
    if k.s.m.typ == HTTP_BOTH { UntypedTick(d, k, c); } else { TypedTick(d, k, c); }
  }

  lemma {:induction false} RunKeeps(d: Policy, k: Config, c: Core)
    requires Keeps(k.s, c) && Accepts(d)
    ensures Keeps(Run(d, k).s, c)
    decreases |k.input|, k.s.cur
  {
    if !Halted(k) {
      hide Tick, Keeps, Accepts;
      TickDescends(d, k);
      TickKeeps(d, k, c);
      RunKeeps(d, Tick(d, k), c);
    }
  }

  /** No message in the whole run leaves its length behind. */
  ghost predicate TidyServed(d: Policy, reader: Reader, k: Config)
    requires Steady(reader)
    decreases |k.input|
  {
    var r := Run(d, k);
    RunLeavesSuffix(d, k);
    Tidy(d, k) && (AtRequestLine(r.s) && reader(r.s.cur, r.input).Line? ==>
      TidyServed(d, reader, Behind(r, reader(r.s.cur, r.input))))
  }

  lemma BehindKeeps(k: Config, v: Verdict, c: Core)
    requires AtRequestLine(k.s) && Measured(v, k.input) && !v.More? && Keeps(k.s, c)
    ensures Keeps(Behind(k, v).s, c) && Clean(Behind(k, v).s)
    ensures LengthFits(k.s) ==> LengthFits(Behind(k, v).s)
  {
  }

  lemma BehindIsNoStart(k: Config, v: Verdict)
    requires AtRequestLine(k.s) && Measured(v, k.input) && !v.More?
    ensures Behind(k, v).s.cur != START
  {
  }

  /** Request lines keep all that runs keep. */
  lemma {:induction false} ServedKeeps(d: Policy, reader: Reader, k: Config, c: Core)
    requires Steady(reader) && Accepts(d) && Keeps(k.s, c) && Clean(k.s) && Sound(k)
    ensures var s := Served(d, reader, k).s;
      Keeps(s, c) && Clean(s) && (s.error == 0 && s.cur == START ==>
        s.m.flags == NO_FLAGS && s.m.finish == FINISH_SAFE && s.index == 0 && s.span == None)
    decreases |k.input|
  {
    hide Run, Behind, Sound, Keeps, Accepts, Clean;
    var r := Run(d, k);
    RunKeeps(d, k, c);
    StartIsClean(d, k);
    RunLeavesSuffix(d, k);
    if AtRequestLine(r.s) && !reader(r.s.cur, r.input).More? {
      var v := reader(r.s.cur, r.input);
      BehindKeeps(r, v, c);
      BehindSound(r, v);
      BehindMore(d, reader, r, []);
      if v.Line? { ServedKeeps(d, reader, Behind(r, v), c); } else { BehindIsNoStart(r, v); }
    }
  }

  lemma {:induction false} ServedTidy(d: Policy, reader: Reader, k: Config, c: Core)
    requires Steady(reader) && Accepts(d) && Keeps(k.s, c) && Clean(k.s) && LengthFits(k.s) && TidyServed(d, reader, k)
    ensures var s := Served(d, reader, k).s; LengthFits(s) && (s.cur == START ==> s.m.length == 0)
    decreases |k.input|
  {
    hide Run, Behind, Keeps, Accepts, Clean, LengthFits, Tidy;
    var r := Run(d, k);
    RunKeeps(d, k, c);
    TidyRun(d, k);
    RunLeavesSuffix(d, k);
    if AtRequestLine(r.s) && !reader(r.s.cur, r.input).More? {
      var v := reader(r.s.cur, r.input);
      BehindKeeps(r, v, c);
      BehindMore(d, reader, r, []);
      if v.Line? { ServedTidy(d, reader, Behind(r, v), c); } else { BehindIsNoStart(r, v); }
    }
  }

  lemma FaultFollows(p: seq<Event>, s: Core, t: Core, error: int, shown: Option<seq<byte>>, urlComplete: bool)
    requires L.Follows(p, s, t) && AtRequestLine(s) && s.m.typ == HTTP_REQUEST
    ensures L.Follows(p, AfterFault(s, error, shown, urlComplete), AfterFault(t, error, shown, urlComplete))
  {
    hide Add;
    if shown.Some? {
      L.AddBehind(p, t.trace, Piece(OnUrl, shown.value));
      L.AddBehind(p, Add(t.trace, Piece(OnUrl, shown.value)), UrlComplete);
    }
  }

  lemma BehindFollows(p: seq<Event>, s: Core, t: Core, input: seq<byte>, v: Verdict)
    requires L.Follows(p, s, t) && AtRequestLine(s) && s.m.typ == HTTP_REQUEST && Measured(v, input) && !v.More?
    ensures AtRequestLine(t)
    ensures L.Follows(p, Behind(Config(s, input), v).s, Behind(Config(t, input), v).s)
    ensures Behind(Config(s, input), v).input == Behind(Config(t, input), v).input
  {
    assert AtRequestLine(t);
    hide L.Follows, Add;
    match v
    case Line(_, verb, major, minor, url) => L.RequestLineFollows(p, s, t, verb, major, minor, url);
    case Fault(_, error, shown, urlComplete) => FaultFollows(p, s, t, error, shown, urlComplete);
  }

  /** Two parsers that differ in leftovers only do the same on the same bytes, through any request lines. */
  lemma {:induction false} ServedFollows(d: Policy, reader: Reader, p: seq<Event>, s: Core, t: Core, c: Core, input: seq<byte>)
    requires L.Follows(p, s, t) && Accepts(d) && Steady(reader) && Keeps(s, c)
    ensures var a, b := Served(d, reader, Config(s, input)), Served(d, reader, Config(t, input));
      a.input == b.input && L.Follows(p, a.s, b.s)
    decreases |input|
  {
    hide Run, Behind, Keeps, Accepts, L.Follows;
    var a, b := Run(d, Config(s, input)), Run(d, Config(t, input));
    L.RunFollows(d, p, s, t, input);
    FollowsStand(p, a.s, b.s);
    RunKeeps(d, Config(s, input), c);
    RunLeavesSuffix(d, Config(s, input));
    if AtRequestLine(a.s) && !reader(a.s.cur, a.input).More? {
      var v := reader(a.s.cur, a.input);
      LineIsRequest(a.s, c);
      BehindFollows(p, a.s, b.s, a.input, v);
      BehindKeeps(a, v, c);
      BehindMore(d, reader, a, []);
      if v.Line? { ServedFollows(d, reader, p, Behind(a, v).s, Behind(b, v).s, c, Behind(a, v).input); }
    }
  }

  lemma FollowsStand(p: seq<Event>, s: Core, t: Core)
    requires L.Follows(p, s, t)
    ensures s.cur == t.cur && s.error == t.error && (AtRequestLine(s) <==> AtRequestLine(t))
  {
  }

  lemma LineIsRequest(s: Core, c: Core)
    requires AtRequestLine(s) && Keeps(s, c)
    ensures s.m.typ == HTTP_REQUEST
  {
  }

  /** Between two messages the last thing reported is the end of one. */
  lemma IdleEnds(t: seq<Event>)
    requires Grammar.PhaseOf(t) == Grammar.Idle
    ensures t == [] || !t[|t| - 1].Piece?
  {
  }

  lemma StartIsIdle(s: Core)
    requires Grammar.Fits(s) && s.cur == START
    ensures Grammar.PhaseOf(s.trace) == Grammar.Idle
  {
    hide Grammar.PhaseOf;
  }

  /** A fresh parser of the type that the first message had. */
  function Onward(s: Core): Core {
    Endpoint(s.m.typ, s.m.lenientHeaders, s.m.lenientLength)
  }

  /** A parser that has read whole messages looks like a fresh one, but for what it has reported. */
  lemma LooksFresh(s: Core, c: Core)
    requires s.cur == START && s.error == 0 && s.index == 0 && s.span == None && s.m.flags == NO_FLAGS && s.m.finish == FINISH_SAFE
    requires s.m.length == 0 && Keeps(s, c) && (s.trace == [] || !s.trace[|s.trace| - 1].Piece?) && IsEndpoint(c)
    ensures L.Follows(s.trace, s, Onward(s))
  {
    assert s.trace + [] == s.trace;
  }

  /** Complete messages: read from a fresh parser they end at the start of the next, with nothing unread, and tidily. */
  ghost predicate Complete(d: Policy, reader: Reader, c: Core, stream: seq<byte>)
    requires Steady(reader)
  {
    var r := Served(d, reader, Config(c, stream));
    r.s.error == 0 && r.s.cur == START && r.input == [] && TidyServed(d, reader, Config(c, stream))
  }

  lemma EndpointKeeps(c: Core, stream: seq<byte>)
    requires IsEndpoint(c)
    ensures Sound(Config(c, stream)) && Clean(c) && LengthFits(c) && Keeps(c, c) && Grammar.Fits(c)
  {
  }

  lemma CompleteLooksFresh(d: Policy, reader: Reader, c: Core, stream: seq<byte>)
    requires Steady(reader) && Accepts(d) && IsEndpoint(c) && Complete(d, reader, c, stream)
    ensures var r := Served(d, reader, Config(c, stream)).s; L.Follows(r.trace, r, Onward(r)) && IsEndpoint(Onward(r))
    ensures c.m.typ != HTTP_BOTH ==> Onward(Served(d, reader, Config(c, stream)).s) == c
  {
    hide Served, TidyServed, Keeps, LengthFits, Sound, Accepts, Clean, Grammar.Fits, IsEndpoint, L.Follows;
    var k := Config(c, stream);
    EndpointKeeps(c, stream);
    var r := Served(d, reader, k).s;
    ServedFits(d, reader, k);
    ServedKeeps(d, reader, k, c);
    ServedTidy(d, reader, k, c);
    StartIsIdle(r);
    IdleEnds(r.trace);
    LooksFresh(r, c);
    OnwardIs(r, c);
  }

  lemma OnwardIs(s: Core, c: Core)
    requires Keeps(s, c) && IsEndpoint(c)
    ensures IsEndpoint(Onward(s)) && (c.m.typ != HTTP_BOTH ==> Onward(s) == c)
  {
  }

  /** What follows complete messages is read as if it came first, by a parser of their type. */
  lemma Concatenated(d: Policy, reader: Reader, c: Core, a: seq<byte>, b: seq<byte>)
    requires Steady(reader) && Accepts(d) && IsEndpoint(c) && Complete(d, reader, c, a)
    ensures var r := Served(d, reader, Config(c, a));
      var x, y := Served(d, reader, Config(c, a + b)), Served(d, reader, Config(Onward(r.s), b));
      x.s.trace == r.s.trace + y.s.trace && x.s.cur == y.s.cur && x.s.error == y.s.error && x.input == y.input
    ensures c.m.typ != HTTP_BOTH ==> Onward(Served(d, reader, Config(c, a)).s) == c
  {
    hide Served, TidyServed, Keeps, Accepts, IsEndpoint, Onward;
    var r := Served(d, reader, Config(c, a)).s;
    CompleteLooksFresh(d, reader, c, a);
    EndpointKeeps(c, a);
    ServedKeeps(d, reader, Config(c, a), c);
    ServedFollows(d, reader, r.trace, r, Onward(r), c, b);
    ServedSplit(d, reader, Config(c, a), b);
    assert [] + b == b;
  }

  function Join(ts: seq<seq<Event>>): seq<Event> {
    if ts == [] then [] else ts[0] + Join(ts[1..])
  }

  ghost function Traces(d: Policy, reader: Reader, c: Core, streams: seq<seq<byte>>): (ts: seq<seq<Event>>)
    requires Steady(reader)
    ensures |ts| == |streams|
  {
    if streams == [] then [] else [Served(d, reader, Config(c, streams[0])).s.trace] + Traces(d, reader, c, streams[1..])
  }

  /** The trace of complete messages one after another is that of each, one after another. */
  lemma {:induction false} Pipelined(d: Policy, reader: Reader, c: Core, streams: seq<seq<byte>>)
    requires Steady(reader) && Accepts(d) && IsEndpoint(c) && c.m.typ != HTTP_BOTH
    requires forall i :: 0 <= i < |streams| ==> Complete(d, reader, c, streams[i])
    ensures var r := Served(d, reader, Config(c, Session.Flat(streams)));
      r.s.trace == Join(Traces(d, reader, c, streams)) && r.s.error == 0 && r.s.cur == START && r.input == []
    decreases |streams|
  {
    hide Served, TidyServed, Accepts;
    if streams == [] {
      NothingToRead(d, c);
      ServedHalted(d, reader, Config(c, []));
    } else {
      Concatenated(d, reader, c, streams[0], Session.Flat(streams[1..]));
      Pipelined(d, reader, c, streams[1..]);
      assert Traces(d, reader, c, streams)[1..] == Traces(d, reader, c, streams[1..]);
    }
  }

  /** The same for a parser of both types: the first messages give it its type. */
  lemma PipelinedGuessed(d: Policy, reader: Reader, c: Core, first: seq<byte>, streams: seq<seq<byte>>)
    requires Steady(reader) && Accepts(d) && IsEndpoint(c) && Complete(d, reader, c, first)
    requires var t := Onward(Served(d, reader, Config(c, first)).s);
      t.m.typ != HTTP_BOTH && forall i :: 0 <= i < |streams| ==> Complete(d, reader, t, streams[i])
    ensures var r, one := Served(d, reader, Config(c, first + Session.Flat(streams))), Served(d, reader, Config(c, first)).s;
      && r.s.trace == one.trace + Join(Traces(d, reader, Onward(one), streams))
      && r.s.error == 0 && r.s.cur == START && r.input == []
  {
    hide Served, TidyServed, Accepts, IsEndpoint, Onward;
    var t := Onward(Served(d, reader, Config(c, first)).s);
    CompleteLooksFresh(d, reader, c, first);
    Concatenated(d, reader, c, first, Session.Flat(streams));
    Pipelined(d, reader, t, streams);
  }

  lemma NothingToRead(d: Policy, c: Core)
    requires IsEndpoint(c)
    ensures Run(d, Config(c, [])) == Config(c, []) && Halted(Config(c, []))
  {
  }

  /** Responses have no request lines: for them the run is that of the machine. */
  lemma ResponsesNeedNoReader(d: Policy, reader: Reader, c: Core, stream: seq<byte>)
    requires Steady(reader) && Accepts(d) && IsEndpoint(c) && c.m.typ == HTTP_RESPONSE
    ensures Served(d, reader, Config(c, stream)) == Run(d, Config(c, stream))
    ensures TidyServed(d, reader, Config(c, stream)) <==> Tidy(d, Config(c, stream))
  {
    hide Run, Tidy, Accepts, Keeps;
    EndpointKeeps(c, stream);
    RunKeeps(d, Config(c, stream), c);
    var s := Run(d, Config(c, stream)).s;
    ResponseHasNoLine(s, c);
  }

  lemma ResponseHasNoLine(s: Core, c: Core)
    requires Keeps(s, c) && c.m.typ == HTTP_RESPONSE
    ensures !AtRequestLine(s)
  {
  }
}
