/**
 The meaning of the graph, one byte at a time: a configuration is a parser state and the bytes
 not yet read. `Run` is the reference that the parser's loop is proved against. The policy `d`
 says how the user answers a callback without data, from all that was reported before.
 */
module Machine {
  import opened Bytes
  import opened Graph

  type Policy = seq<Event> -> int

  /** Append a callback, gluing a piece to a preceding piece of the same kind. */
  function Add(t: seq<Event>, e: Event): seq<Event> {
    if e.Piece? && t != [] && t[|t| - 1].Piece? && t[|t| - 1].kind == e.kind
    then t[..|t| - 1] + [Piece(e.kind, t[|t| - 1].bytes + e.bytes)]
    else t + [e]
  }

  /** The callbacks as a user sees them who joins the pieces of a span. */
  function Glue(raw: seq<Event>): seq<Event> {
    if raw == [] then [] else Add(Glue(raw[..|raw| - 1]), raw[|raw| - 1])
  }

  lemma AddPieces(t: seq<Event>, k: Kind, x: seq<byte>, y: seq<byte>)
    ensures Add(Add(t, Piece(k, x)), Piece(k, y)) == Add(t, Piece(k, x + y))
  {
    var u := Add(t, Piece(k, x));
    var n := |u| - 1;
    assert u[n].Piece? && u[n].kind == k;
    if t != [] && t[|t| - 1].Piece? && t[|t| - 1].kind == k {
      assert t[|t| - 1].bytes + x + y == t[|t| - 1].bytes + (x + y);
    } else {
      assert u[..|u| - 1] == t;
    }
  }

  predicate EndsWithPiece(t: seq<Event>, k: Kind) {
    t != [] && t[|t| - 1].Piece? && t[|t| - 1].kind == k
  }

  /** An open span has been reported by at least an empty piece. */
  predicate SpanShown(s: Core) {
    s.span.Some? ==> EndsWithPiece(s.trace, s.span.value)
  }

  lemma AddNothing(t: seq<Event>, k: Kind)
    requires EndsWithPiece(t, k)
    ensures Add(t, Piece(k, [])) == t
  {
    assert t[|t| - 1].bytes + [] == t[|t| - 1].bytes;
    assert t == t[..|t| - 1] + [t[|t| - 1]];
  }

  lemma GlueSnoc(raw: seq<Event>, e: Event)
    ensures Glue(raw + [e]) == Add(Glue(raw), e)
  {
    assert (raw + [e])[..|raw|] == raw;
  }

  datatype Config = Config(s: Core, input: seq<byte>)

  /** The nodes that look at a byte. */
  predicate Waits(s: Core) {
    match ShapeOf(s.cur)
    case Switch => true
    case Number => true
    case Match => true
    case Open => true
    case Close => Skips(s.cur)
    case Consume => s.m.length > 0
    case _ => false
  }

  predicate Halted(k: Config) {
    k.s.error != 0 || ShapeOf(k.s.cur).Park? || (Waits(k.s) && k.input == [])
  }

  /** A byte goes by; inside a span it belongs to the span. */
  function Take(s: Core, c: byte): Core {
    match s.span
    case None => s
    case Some(k) => s.(trace := Add(s.trace, Piece(k, [c])))
  }

  /** The word goes on at this byte. */
  predicate Matches(s: Core, c: byte) {
    s.index < |WordOf(s.cur)| && FoldByte(FoldOf(s.cur), c) == WordOf(s.cur)[s.index]
  }

  /** One block, on at most one byte. */
  function Tick(d: Policy, k: Config): Config
    requires !Halted(k)
  {
    var s, n := k.s, k.s.cur;
    match ShapeOf(n)
    case Switch =>
      var t := Branch(n, k.input[0]);
      if t.over then Config(Take(s, k.input[0]).(cur := t.next), k.input[1..]) else Config(s.(cur := t.next), k.input)
    case Number =>
      var c := k.input[0];
      if !IsDigitOf(n, c) then Config(s.(cur := MissOf(n)), k.input)
      else Config(Take(s, c).(cur := AfterDigit(n, s.m, c), m := TakeDigit(n, s.m, c)), k.input[1..])
    case Match =>
      if !Matches(s, k.input[0]) then Config(s.(index := 0, cur := MissOf(n)), k.input)
      else if s.index + 1 == |WordOf(n)| then Config(Take(s, k.input[0]).(index := 0, cur := NextOf(n)), k.input[1..])
      else Config(Take(s, k.input[0]).(index := s.index + 1), k.input[1..])
    case Consume =>
      if s.m.length == 0 then Config(s.(cur := NextOf(n)), k.input)
      else Config(Take(s, k.input[0]).(m := s.m.(length := s.m.length - 1)), k.input[1..])
    case Open =>
      Config(s.(span := Some(KindOf(n)), trace := Add(s.trace, Piece(KindOf(n), [])), cur := NextOf(n)), k.input)
    case Close => Config(s.(span := None, cur := NextOf(n)), if Skips(n) then k.input[1..] else k.input)
    case Call =>
      var t := Add(s.trace, EventOf(n, s.m));
      Config(s.(trace := t, cur := Route(n, d(t))), k.input)
    case Invoke => Config(s.(cur := Goto(n, s.m), m := Update(n, s.m)), k.input)
    case Fail => Config(s.(error := ErrorOf(n), cur := DEAD), k.input)
    case Stop => Config(s.(error := HPE_PAUSED_UPGRADE, cur := INVOKE_AFTER_MESSAGE_COMPLETE), k.input)
    case Park => k
  }

  lemma BranchDescends(n: Node, c: byte)
    requires ShapeOf(n).Switch?
    ensures Branch(n, c).over || Branch(n, c).next < n
  {
  }

  lemma GotoDescends(n: Node, m: Fields)
    requires ShapeOf(n).Invoke?
    ensures Goto(n, m) < n
  {
  }

  lemma EdgeDescends(n: Node, answer: int)
    ensures match ShapeOf(n)
      case Number => MissOf(n) < n
      case Match => MissOf(n) < n
      case Consume => NextOf(n) < n
      case Open => NextOf(n) < n
      case Close => Skips(n) || NextOf(n) < n
      case Call => Route(n, answer) < n
      case Stop => INVOKE_AFTER_MESSAGE_COMPLETE < n
      case Fail => n > 0
      case _ => true
  {
  }

  /** A block that reads nothing goes down, so the run between two bytes is short. */
  lemma TickDescends(d: Policy, k: Config)
    requires !Halted(k)
    ensures var t := Tick(d, k);
      (t.input == k.input && t.s.cur < k.s.cur) || (k.input != [] && t.input == k.input[1..])
  {
    EdgeDescends(k.s.cur, d(Add(k.s.trace, EventOf(k.s.cur, k.s.m))));
    match ShapeOf(k.s.cur)
    case Switch => BranchDescends(k.s.cur, k.input[0]);
    case Invoke => GotoDescends(k.s.cur, k.s.m);
    case _ =>
  }

  /** Run blocks until a byte is needed and there is none, or the machine stops. */
  function Run(d: Policy, k: Config): (r: Config)
    ensures Halted(r)
    decreases |k.input|, k.s.cur
  {
    if Halted(k) then k else TickDescends(d, k); Run(d, Tick(d, k))
  }

  /** The state that llhttp_init sets up. */
  function Fresh(typ: nat): Core {
    Core(START, 0, None, 0, [], Fields(0, typ, 0, 0, 0, 0, false, false, false, FINISH_SAFE, NO_FLAGS, 0))
  }

  /** The machine waits for a request line, which is not part of the graph. */
  predicate AtRequestLine(s: Core) {
    s.error == 0 && (s.cur == START_REQ || s.cur == REQ_FIRST_SPACE_BEFORE_URL)
  }

  /** The request line has been read: the method, unless it was HEAD, the version, and the target. */
  function AfterRequestLine(s: Core, verb: nat, major: nat, minor: nat, url: seq<byte>): Core
    requires AtRequestLine(s)
  {
    s.(cur := HEADER_FIELD_START,
       trace := Add(Add(s.trace, Piece(OnUrl, url)), UrlComplete),
       m := s.m.(verb := if s.cur == START_REQ then verb else s.m.verb, major := major, minor := minor))
  }

  lemma RunAgain(d: Policy, k: Config)
    ensures Run(d, Run(d, k)) == Run(d, k)
  {
  }

  /** The first `n` blocks of a run. */
  function Ticks(d: Policy, k: Config, n: nat): Config
    decreases n
  {
    if n == 0 || Halted(k) then k else Ticks(d, Tick(d, k), n - 1)
  }

  /** The machine comes by `t` on its way from `k`. */
  ghost predicate Reaches(d: Policy, k: Config, t: Config) {
    exists n: nat :: Ticks(d, k, n) == t
  }

  lemma ReachesSelf(d: Policy, k: Config)
    ensures Reaches(d, k, k)
  {
    assert Ticks(d, k, 0) == k;
  }

  lemma ReachesTick(d: Policy, k: Config)
    requires !Halted(k)
    ensures Reaches(d, k, Tick(d, k))
  {
    assert Ticks(d, k, 1) == Ticks(d, Tick(d, k), 0);
  }

  lemma {:induction false} TicksPlus(d: Policy, k: Config, m: nat, n: nat)
    ensures Ticks(d, Ticks(d, k, m), n) == Ticks(d, k, m + n)
    decreases m
  {
    hide Tick, Halted;
    if m > 0 {
      if Halted(k) {
        assert Ticks(d, k, m) == k && Ticks(d, k, m + n) == k && Ticks(d, k, n) == k;
      } else {
        TicksPlus(d, Tick(d, k), m - 1, n);
      }
    }
  }

  lemma ReachesOn(d: Policy, k: Config, t: Config, u: Config)
    requires Reaches(d, k, t) && Reaches(d, t, u)
    ensures Reaches(d, k, u)
  {
    hide Ticks;
    var m: nat :| Ticks(d, k, m) == t;
    var n: nat :| Ticks(d, t, n) == u;
    TicksPlus(d, k, m, n);
  }

  lemma {:induction false} TicksRun(d: Policy, k: Config, n: nat)
    ensures Run(d, Ticks(d, k, n)) == Run(d, k)
    decreases n
  {
    hide Tick, Halted;
    if n > 0 && !Halted(k) {
      TicksRun(d, Tick(d, k), n - 1);
    }
  }

  /** What the machine comes by has the same run before it. */
  lemma ReachesRun(d: Policy, k: Config, t: Config)
    requires Reaches(d, k, t)
    ensures Run(d, t) == Run(d, k)
  {
    hide Ticks, Run;
    var n: nat :| Ticks(d, k, n) == t;
    TicksRun(d, k, n);
  }

  lemma {:induction false} RunIsReached(d: Policy, k: Config)
    ensures Reaches(d, k, Run(d, k))
    decreases |k.input|, k.s.cur
  {
    hide Tick, Halted, Reaches;
    ReachesSelf(d, k);
    if !Halted(k) {
      TickDescends(d, k);
      RunIsReached(d, Tick(d, k));
      ReachesTick(d, k);
      ReachesOn(d, k, Tick(d, k), Run(d, k));
    }
  }

  /** What is left unread is the end of what was given. */
  lemma {:induction false} RunLeavesSuffix(d: Policy, k: Config)
    ensures var r := Run(d, k);
      |r.input| <= |k.input| && r.input == k.input[|k.input| - |r.input|..]
    decreases |k.input|, k.s.cur
  {
    if !Halted(k) {
      TickDescends(d, k);
      RunLeavesSuffix(d, Tick(d, k));
    }
  }

  /** A block does not see past the first byte. */
  lemma TickLocal(d: Policy, k: Config, more: seq<byte>)
    requires !Halted(k)
    ensures !Halted(Config(k.s, k.input + more))
    ensures Tick(d, Config(k.s, k.input + more)) == Config(Tick(d, k).s, Tick(d, k).input + more)
  {
    if k.input != [] {
      assert (k.input + more)[0] == k.input[0];
      assert (k.input + more)[1..] == k.input[1..] + more;
    }
  }

  /** Bytes that arrive later are read as if they had been there from the start. */
  lemma {:induction false} RunSplit(d: Policy, k: Config, more: seq<byte>)
    ensures var r := Run(d, k);
      Run(d, Config(k.s, k.input + more)) == Run(d, Config(r.s, r.input + more))
    decreases |k.input|, k.s.cur
  {
    if !Halted(k) {
      TickDescends(d, k);
      TickLocal(d, k, more);
      RunSplit(d, Tick(d, k), more);
    }
  }
}
