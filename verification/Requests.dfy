/**
 Runs that go through request lines. The states between the start of a request and its headers are
 a reader of bytes: what they make of the bytes in front of them is an input, for every reader that
 does not change its mind when more bytes arrive.
 */
module Requests {
  import opened Bytes
  import opened Graph
  import opened Machine
  import opened Soundness
  import opened Strides
  import opened Walk
  import Grammar
  import Messages

  /** What becomes of a request line: it is not whole, it is read, or it is an error after part of it was reported. */
  datatype Verdict =
    | More
    | Line(size: nat, verb: nat, major: nat, minor: nat, url: seq<byte>)
    | Fault(size: nat, error: int, shown: Option<seq<byte>>, urlComplete: bool)

  type Reader = (Node, seq<byte>) -> Verdict

  /** A verdict is about bytes that are there, and needs at least one. */
  predicate Measured(v: Verdict, input: seq<byte>) {
    match v
    case More => true
    case Line(size, _, _, _, _) => 0 < size <= |input|
    case Fault(size, error, _, _) => input != [] && size <= |input| && 0 < error < HPE_PAUSED
  }

  /** The verdicts are measured, and stay what they are when more bytes arrive. */
  ghost predicate Steady(reader: Reader) {
    && (forall n, x :: Measured(reader(n, x), x))
    && (forall n, x, y :: !reader(n, x).More? ==> reader(n, x + y) == reader(n, x))
  }

  /** There are such readers: this one takes every line for a request with that target. */
  function TakeLine(n: Node, input: seq<byte>): Verdict {
    var k := LineEnd(input);
    if k == |input| then More else Line(k + 1, 1, 1, 1, input[..k])
  }

  /** The place of the first line feed, or the length. */
  function LineEnd(w: seq<byte>): (k: nat)
    ensures k <= |w|
    ensures forall i :: 0 <= i < k ==> w[i] != LF
    ensures k < |w| ==> w[k] == LF
  {
    if w == [] || w[0] == LF then 0 else 1 + LineEnd(w[1..])
  }

  lemma {:induction false} LineEndStays(x: seq<byte>, y: seq<byte>)
    requires LineEnd(x) < |x|
    ensures LineEnd(x + y) == LineEnd(x)
  {
    if x[0] != LF {
      assert (x + y)[1..] == x[1..] + y;
      LineEndStays(x[1..], y);
    }
  }

  lemma TakeLineIsSteady()
    ensures Steady(TakeLine)
  {
    forall n: Node, x: seq<byte>, y: seq<byte> | !TakeLine(n, x).More? ensures TakeLine(n, x + y) == TakeLine(n, x) {
      LineEndStays(x, y);
      assert (x + y)[..LineEnd(x)] == x[..LineEnd(x)];
    }
  }

  /** The request line was an error. */
  function AfterFault(s: Core, error: int, shown: Option<seq<byte>>, urlComplete: bool): Core {
    var t := if shown.None? then s.trace else Add(s.trace, Piece(OnUrl, shown.value));
    s.(cur := DEAD, error := error, trace := if shown.Some? && urlComplete then Add(t, UrlComplete) else t)
  }

  /** Behind the request line that the machine waits for. */
  function Behind(k: Config, v: Verdict): Config
    requires AtRequestLine(k.s) && Measured(v, k.input) && !v.More?
  {
    match v
    case Line(size, verb, major, minor, url) => Config(AfterRequestLine(k.s, verb, major, minor, url), k.input[size..])
    case Fault(size, error, shown, urlComplete) => Config(AfterFault(k.s, error, shown, urlComplete), k.input[size..])
  }

  /** The run of the machine, and through every request line that is whole, on. */
  ghost function Served(d: Policy, reader: Reader, k: Config): (r: Config)
    requires Steady(reader)
    ensures Halted(r)
    decreases |k.input|
  {
    var r := Run(d, k);
    RunLeavesSuffix(d, k);
    if !AtRequestLine(r.s) then r
    else
      var v := reader(r.s.cur, r.input);
      match v
      case More => r
      case Line(_, _, _, _, _) => Served(d, reader, Behind(r, v))
      case Fault(_, _, _, _) => Behind(r, v)
  }

  lemma ServedRun(d: Policy, reader: Reader, k: Config, t: Config)
    requires Steady(reader) && Run(d, k) == Run(d, t)
    ensures Served(d, reader, k) == Served(d, reader, t)
  {
    hide Run;
  }

  lemma ServedHalted(d: Policy, reader: Reader, k: Config)
    requires Steady(reader) && Halted(k) && (AtRequestLine(k.s) ==> reader(k.s.cur, k.input).More?)
    ensures Served(d, reader, k) == k
  {
  }

  /** Bytes that arrive later are read as if they had been there from the start. */
  lemma {:induction false} ServedSplit(d: Policy, reader: Reader, k: Config, more: seq<byte>)
    requires Steady(reader)
    ensures var r := Served(d, reader, k);
      Served(d, reader, Config(k.s, k.input + more)) == Served(d, reader, Config(r.s, r.input + more))
    decreases |k.input|
  {
    hide Run, Behind;
    var r := Run(d, k);
    RunSplit(d, k, more);
    ServedRun(d, reader, Config(k.s, k.input + more), Config(r.s, r.input + more));
    if AtRequestLine(r.s) {
      RunLeavesSuffix(d, k);
      var v := reader(r.s.cur, r.input);
      if !v.More? {
        BehindMore(d, reader, r, more);
        if v.Line? { ServedSplit(d, reader, Behind(r, v), more); }
      }
    }
  }

  lemma BehindMore(d: Policy, reader: Reader, r: Config, more: seq<byte>)
    requires Steady(reader) && AtRequestLine(r.s) && !reader(r.s.cur, r.input).More?
    ensures var v := reader(r.s.cur, r.input);
      && |Behind(r, v).input| < |r.input| + (if v.Line? then 0 else 1)
      && reader(r.s.cur, r.input + more) == v && Measured(v, r.input + more)
      && Behind(Config(r.s, r.input + more), v) == Config(Behind(r, v).s, Behind(r, v).input + more)
      && Served(d, reader, Config(r.s, r.input + more)) == Served(d, reader, Behind(Config(r.s, r.input + more), v))
  {
    var v, k := reader(r.s.cur, r.input), Config(r.s, r.input + more);
    assert (r.input + more)[v.size..] == r.input[v.size..] + more;
    assert Run(d, k) == k;
    hide Run;
    if v.Fault? { ServedHalted(d, reader, Behind(k, v)); }
  }

  /** The machine comes by `t` on its way from `k`, through any number of request lines. */
  ghost predicate Passes(d: Policy, reader: Reader, k: Config, t: Config)
    requires Steady(reader)
    decreases |k.input|
  {
    var r := Run(d, k);
    RunLeavesSuffix(d, k);
    Reaches(d, k, t) ||
    (AtRequestLine(r.s) && reader(r.s.cur, r.input).Line? && Passes(d, reader, Behind(r, reader(r.s.cur, r.input)), t))
  }

  lemma LineSound(s: Core, verb: nat, major: nat, minor: nat, url: seq<byte>, input: seq<byte>)
    requires AtRequestLine(s) && Placed(s)
    ensures Sound(Config(AfterRequestLine(s, verb, major, minor, url), input))
  {
    hide Add;
  }

  lemma FaultFits(s: Core, error: int, shown: Option<seq<byte>>, urlComplete: bool)
    requires AtRequestLine(s) && Grammar.Fits(s)
    ensures Grammar.Fits(AfterFault(s, error, shown, urlComplete))
  {
    hide Grammar.PhaseOf, Add;
    if shown.Some? {
      Grammar.PhaseAdd(s.trace, Piece(OnUrl, shown.value));
      Grammar.PhaseAdd(Add(s.trace, Piece(OnUrl, shown.value)), UrlComplete);
      if EndsWithPiece(s.trace, OnUrl) { Messages.UrlPhase(s.trace); }
    }
  }

  lemma BehindFits(k: Config, v: Verdict)
    requires AtRequestLine(k.s) && Measured(v, k.input) && !v.More? && Sound(k) && Grammar.Fits(k.s)
    ensures Sound(Behind(k, v)) && Grammar.Fits(Behind(k, v).s)
  {
    match v
    case Line(size, verb, major, minor, url) =>
      hide Grammar.Fits;
      LineSound(k.s, verb, major, minor, url, k.input[size..]);
      Messages.RequestLineFits(k.s, verb, major, minor, url);
    case Fault(size, error, shown, urlComplete) =>
      hide Grammar.Fits;
      FaultFits(k.s, error, shown, urlComplete);
  }

  lemma BehindSound(k: Config, v: Verdict)
    requires AtRequestLine(k.s) && Measured(v, k.input) && !v.More? && Sound(k)
    ensures Sound(Behind(k, v))
  {
    if v.Line? { LineSound(k.s, v.verb, v.major, v.minor, v.url, k.input[v.size..]); }
  }

  /** Through any number of request lines the callbacks stay inside the grammar. */
  lemma {:induction false} ServedFits(d: Policy, reader: Reader, k: Config)
    requires Steady(reader) && Sound(k) && Grammar.Fits(k.s)
    ensures Grammar.Fits(Served(d, reader, k).s) && Sound(Served(d, reader, k))
    decreases |k.input|
  {
    hide Run, Behind, Sound, Grammar.Fits;
    var r := Run(d, k);
    Grammar.RunFits(d, k);
    RunLeavesSuffix(d, k);
    if AtRequestLine(r.s) && !reader(r.s.cur, r.input).More? {
      var v := reader(r.s.cur, r.input);
      BehindFits(r, v);
      BehindMore(d, reader, r, []);
      if v.Line? { ServedFits(d, reader, Behind(r, v)); }
    }
  }

  /**
   From the fresh parser, of requests, of responses or of both, on any stream with any request
   lines, and whatever the user answers, the callbacks show messages.
   */
  lemma ServedShows(d: Policy, reader: Reader, typ: nat, input: seq<byte>)
    requires Steady(reader)
    ensures var s := Served(d, reader, Config(Fresh(typ), input)).s;
      Messages.Begins(s.trace) && (s.error == 0 && s.cur == START ==> Messages.Shows(s.trace))
  {
    assert Sound(Config(Fresh(typ), input)) && Grammar.Fits(Fresh(typ));
    hide Served, Messages.Begins, Messages.Shows, Grammar.Fits, Sound;
    ServedFits(d, reader, Config(Fresh(typ), input));
    Messages.FitsShows(Served(d, reader, Config(Fresh(typ), input)).s);
  }
}
