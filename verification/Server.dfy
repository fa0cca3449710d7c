/**
 A connection of requests: chunks arrive, the user pauses and resumes, and whenever the parser waits
 at a request line, what the reader makes of it is handed to the parser.
 */
module Server {
  import opened Bytes
  import opened Graph
  import opened Machine
  import opened Strides
  import opened Requests
  import S = Session
  import P = Parser

  /** How a connection stands: what is unread leads to `r` from here, or the machine has stopped at `r`. */
  ghost predicate Stands(p: P.Parser, d: Policy, reader: Reader, unread: seq<byte>, r: Config)
    requires Steady(reader)
    reads p
  {
    || ((p.error == 0 || p.error == HPE_PAUSED || p.Refused()) && Served(d, reader, Config(p.View().(error := 0), unread)) == r)
    || (p.error != 0 && p.error != HPE_PAUSED && unread == r.input && S.Short(p.View(), r.s))
  }

  lemma StopsServed(d: Policy, reader: Reader, k: Config)
    requires Steady(reader) && Run(d, k).s.error != 0
    ensures Served(d, reader, k) == Run(d, k)
  {
    hide Run;
  }

  lemma ShortKeepsError(u: Core, s: Core)
    requires S.Short(u, s)
    ensures s.error == u.error
  {
  }

  /** How the parser stands on one run is how it stands on the whole connection. */
  lemma StandsOn(p: P.Parser, d: Policy, reader: Reader, unread: seq<byte>, k: Config)
    requires Steady(reader) && S.Stands(p, d, unread, Run(d, k))
    ensures Stands(p, d, reader, unread, Served(d, reader, k))
  {
    hide Run, Served, P.Parser.Refused;
    var t := Config(p.View().(error := 0), unread);
    if (p.error == 0 || p.error == HPE_PAUSED || p.Refused()) && Run(d, t) == Run(d, k) {
      ServedRun(d, reader, k, t);
    } else {
      ShortKeepsError(p.View(), Run(d, k).s);
      StopsServed(d, reader, k);
    }
  }

  /** What follows a request line that is whole, whatever bytes come behind it. */
  lemma LineServed(d: Policy, reader: Reader, s: Core, unread: seq<byte>, more: seq<byte>)
    requires Steady(reader) && AtRequestLine(s) && !reader(s.cur, unread).More?
    ensures var v := reader(s.cur, unread);
      && Measured(v, unread)
      && Served(d, reader, Config(s, unread + more)) ==
           Served(d, reader, Config(Behind(Config(s, unread), v).s, unread[v.size..] + more))
      && (v.Line? ==> v.size > 0)
  {
    hide Run, Served, Behind;
    BehindMore(d, reader, Config(s, unread), more);
    BehindInput(Config(s, unread), reader(s.cur, unread));
  }

  lemma BehindInput(k: Config, v: Verdict)
    requires AtRequestLine(k.s) && Measured(v, k.input) && !v.More?
    ensures Behind(k, v).input == k.input[v.size..] && (v.Line? ==> v.size > 0)
  {
  }

  lemma FaultStands(p: P.Parser, d: Policy, reader: Reader, unread: seq<byte>)
    requires Steady(reader) && p.error != 0 && p.error != HPE_PAUSED && p.span == None
    ensures Stands(p, d, reader, unread, Served(d, reader, Config(p.View(), unread)))
  {
    hide Run;
    ServedHalted(d, reader, Config(p.View(), unread));
    assert p.View() == Gain(p.View(), []);
  }

  lemma SpanAtLine(p: P.Parser)
    requires p.Stable() && AtRequestLine(p.View())
    ensures p.span == None
  {
  }

  /** One chunk, through all request lines in it. */
  method Advance(p: P.Parser, data: seq<byte>, ghost more: seq<byte>, reader: Reader, ghost d: Policy) returns (unread: seq<byte>)
    requires p.Valid() && (p.error == 0 || p.error == HPE_PAUSED) && P.Obeys(p.answer, d) && Steady(reader)
    modifies p
    ensures p.Valid() && old(p.calls) <= p.calls
    ensures Stands(p, d, reader, unread + more, Served(d, reader, Config(old(p.View()).(error := 0), data + more)))
    ensures p.error == 0 ==> Config(p.View(), unread) == Served(d, reader, Config(old(p.View()).(error := 0), data))
  {
    hide Run, Served, Steady, S.Stands, Stands, Behind, P.Parser.Valid, P.Parser.Refused, P.Parser.Stable, P.Obeys;
    ghost var s := p.View().(error := 0);
    ghost var r, whole := Served(d, reader, Config(s, data)), Served(d, reader, Config(s, data + more));
    unread := S.Step(p, data, more, d);
    Advanced(p, d, reader, unread, more, s, data);
    while p.error == 0 && (p.cur == START_REQ || p.cur == REQ_FIRST_SPACE_BEFORE_URL) && !reader(p.cur, unread).More?
      invariant p.Valid() && old(p.calls) <= p.calls
      invariant Stands(p, d, reader, unread + more, whole)
      invariant p.error == 0 ==> Run(d, Config(p.View(), unread)) == Config(p.View(), unread)
      invariant p.error == 0 ==> Served(d, reader, Config(p.View(), unread)) == r
      decreases |unread|
    {
      var v := reader(p.cur, unread);
      LineServed(d, reader, p.View(), unread, more);
      LineServed(d, reader, p.View(), unread, []);
      assert unread + [] == unread && unread[v.size..] + [] == unread[v.size..];
      StandsHere(p, d, reader, unread + more, whole);
      p.ValidIsStable();
      SpanAtLine(p);
      ghost var t := Behind(Config(p.View(), unread), v).s;
      BehindIs(Config(p.View(), unread), v);
      unread := unread[v.size..];
      match v {
        case Line(_, verb, major, minor, url) =>
          p.RequestLine(verb, major, minor, url);
          ghost var input := unread;
          unread := S.Step(p, unread, more, d);
          Advanced(p, d, reader, unread, more, t, input);
        case Fault(_, code, shown, urlComplete) =>
          p.RequestFault(code, shown, urlComplete);
          FaultStands(p, d, reader, unread + more);
          return;
      }
    }
    if p.error == 0 { Idle(d, reader, Config(p.View(), unread)); }
  }

  lemma Advanced(p: P.Parser, d: Policy, reader: Reader, unread: seq<byte>, more: seq<byte>, s: Core, data: seq<byte>)
    requires Steady(reader) && S.Stands(p, d, unread + more, Run(d, Config(s, data + more)))
    requires p.error == 0 ==> Config(p.View(), unread) == Run(d, Config(s, data))
    ensures Stands(p, d, reader, unread + more, Served(d, reader, Config(s, data + more)))
    ensures p.error == 0 ==> Run(d, Config(p.View(), unread)) == Config(p.View(), unread)
    ensures p.error == 0 ==> Served(d, reader, Config(p.View(), unread)) == Served(d, reader, Config(s, data))
  {
    hide Run, Served, Steady, S.Stands, Stands;
    StandsOn(p, d, reader, unread + more, Config(s, data + more));
    if p.error == 0 {
      RunAgain(d, Config(s, data));
      ServedRun(d, reader, Config(s, data), Config(p.View(), unread));
    }
  }

  lemma StandsHere(p: P.Parser, d: Policy, reader: Reader, unread: seq<byte>, r: Config)
    requires Steady(reader) && Stands(p, d, reader, unread, r) && p.error == 0
    ensures Served(d, reader, Config(p.View(), unread)) == r
  {
    hide Served, P.Parser.Refused;
    assert p.View().(error := 0) == p.View();
  }

  lemma BehindIs(k: Config, v: Verdict)
    requires AtRequestLine(k.s) && Measured(v, k.input) && !v.More?
    ensures v.Line? ==> Behind(k, v).s == AfterRequestLine(k.s, v.verb, v.major, v.minor, v.url)
    ensures v.Fault? ==> Behind(k, v).s == AfterFault(k.s, v.error, v.shown, v.urlComplete) && 0 < v.error < HPE_PAUSED
  {
  }

  lemma Idle(d: Policy, reader: Reader, k: Config)
    requires Steady(reader) && Run(d, k) == k && (AtRequestLine(k.s) ==> reader(k.s.cur, k.input).More?)
    ensures Served(d, reader, k) == k
  {
    hide Run;
  }

  /**
   The chunks one after another, until the machine stops or the user refuses for good. However the
   stream is cut and however often the user pauses, the parser comes to the state that one run
   through all request lines comes to.
   */
  method Serve(p: P.Parser, chunks: seq<seq<byte>>, reader: Reader, ghost d: Policy) returns (unread: seq<byte>)
    requires p.Valid() && (p.error == 0 || p.error == HPE_PAUSED) && P.Obeys(p.answer, d) && Steady(reader)
    modifies p
    ensures p.Valid() && old(p.calls) <= p.calls
    ensures Stands(p, d, reader, unread, Served(d, reader, Config(old(p.View()).(error := 0), S.Flat(chunks))))
    ensures p.error == 0 && chunks != [] ==>
      Config(p.View(), unread) == Served(d, reader, Config(old(p.View()).(error := 0), S.Flat(chunks)))
  {
    hide Run, Served, Steady, P.Parser.Valid, P.Parser.Refused, P.Obeys;
    unread := [];
    ghost var r := Served(d, reader, Config(p.View().(error := 0), S.Flat(chunks)));
    assert [] + S.Flat(chunks[0..]) == S.Flat(chunks) by { assert chunks[0..] == chunks; }
    var i := 0;
    while i < |chunks|
      invariant i <= |chunks| && p.Valid() && old(p.calls) <= p.calls
      invariant Stands(p, d, reader, unread + S.Flat(chunks[i..]), r)
      invariant p.error == 0 || p.error == HPE_PAUSED
      invariant p.error == 0 && 0 < i == |chunks| ==> Config(p.View(), unread) == r
    {
      var data := unread + chunks[i];
      ghost var rest := S.Flat(chunks[i + 1..]);
      assert data + rest == unread + S.Flat(chunks[i..]) by { assert chunks[i..][1..] == chunks[i + 1..]; }
      if i + 1 == |chunks| { assert data + rest == data; }
      unread := Advance(p, data, rest, reader, d);
      i := i + 1;
      if p.error != 0 && p.error != HPE_PAUSED {
        return unread + S.Flat(chunks[i..]);
      }
    }
    assert unread + S.Flat(chunks[i..]) == unread;
  }
}
