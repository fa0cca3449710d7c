/**
 A connection: the stream arrives in chunks, and a user who paused the parser resumes it with the
 bytes that were not read. However the stream is cut, and however often the user pauses, the
 parser comes to the state that the machine comes to on the whole stream.
 */
module Session {
  import opened Bytes
  import opened Graph
  import opened Machine
  import opened Strides
  import P = Parser

  function Flat(chunks: seq<seq<byte>>): seq<byte> {
    if chunks == [] then [] else chunks[0] + Flat(chunks[1..])
  }

  /** Two configurations with one run have one run after more bytes, too. */
  lemma SameRun(d: Policy, k: Config, t: Config, more: seq<byte>)
    requires Run(d, k) == Run(d, t)
    ensures Run(d, Config(k.s, k.input + more)) == Run(d, Config(t.s, t.input + more))
  {
    hide Run;
    RunSplit(d, k, more);
    RunSplit(d, t, more);
  }

  /** A machine that stopped in an error reads nothing more. */
  lemma StoppedRun(d: Policy, k: Config, more: seq<byte>)
    requires Run(d, k).s.error != 0
    ensures Run(d, Config(k.s, k.input + more)) == Config(Run(d, k).s, Run(d, k).input + more)
  {
    RunSplit(d, k, more);
  }

  /** The state `s`, but for bytes of an open span that were not reported before an error. */
  ghost predicate Short(u: Core, s: Core) {
    exists w: seq<byte> :: s == Gain(u, w)
  }

  /** How a connection stands: what is unread leads to `r` from here, or the machine has stopped at `r`. */
  ghost predicate Stands(p: P.Parser, d: Policy, unread: seq<byte>, r: Config)
    reads p
  {
    || ((p.error == 0 || p.error == HPE_PAUSED || p.Refused()) && Run(d, Config(p.View().(error := 0), unread)) == r)
    || (p.error != 0 && p.error != HPE_PAUSED && unread == r.input && Short(p.View(), r.s))
  }

  /** How one call of Execute stands, when more bytes are to follow. */
  lemma Settles(p: P.Parser, data: seq<byte>, read: nat, d: Policy, k: Config, more: seq<byte>)
    requires p.error != 0 && read <= |data| && (p.span.Some? ==> p.spanPos <= read) && p.Settled(data, read, d, k)
    ensures Stands(p, d, data[read..] + more, Run(d, Config(k.s, k.input + more)))
  {
    hide Run;
    if p.error != HPE_PAUSED && p.At(data, read) == Run(d, k) {
      StoppedRun(d, k, more);
      if p.span.None? {
        assert Run(d, k).s == Gain(p.View(), []);
      }
    } else {
      SameRun(d, k, Config(p.View().(error := 0), data[read..]), more);
    }
  }

  /** One call of Execute, after a resume. */
  method Step(p: P.Parser, data: seq<byte>, ghost more: seq<byte>, ghost d: Policy) returns (unread: seq<byte>)
    requires p.Valid() && (p.error == 0 || p.error == HPE_PAUSED) && P.Obeys(p.answer, d)
    modifies p
    ensures p.Valid() && old(p.calls) <= p.calls && |unread| <= |data|
    ensures Stands(p, d, unread + more, Run(d, Config(old(p.View()).(error := 0), data + more)))
    ensures p.error == 0 ==> Config(p.View(), unread) == Run(d, Config(old(p.View()).(error := 0), data))
  {
    p.ValidIsStable();
    p.Resume();
    p.ShownIsView();
    ghost var k := Config(p.View(), data);
    var err, read := p.Execute(data, d);
    unread := data[read..];
    hide Run, P.Parser.Valid, P.Parser.Settled, P.Parser.Refused, P.Parser.Shown, P.Parser.Stable, Gain;
    if err == 0 {
      RunAgain(d, k);
      SameRun(d, k, Config(p.View(), unread), more);
    } else {
      Settles(p, data, read, d, k, more);
    }
  }

  /**
   The chunks one after another, until the machine stops or the user refuses for good. `unread`
   is everything that was given and not read.
   */
  method Feed(p: P.Parser, chunks: seq<seq<byte>>, ghost d: Policy) returns (unread: seq<byte>)
    requires p.Valid() && (p.error == 0 || p.error == HPE_PAUSED) && P.Obeys(p.answer, d)
    modifies p
    ensures p.Valid() && old(p.calls) <= p.calls
    ensures Stands(p, d, unread, Run(d, Config(old(p.View()).(error := 0), Flat(chunks))))
    ensures p.error == 0 && chunks != [] ==>
      Config(p.View(), unread) == Run(d, Config(old(p.View()).(error := 0), Flat(chunks)))
  {
    hide Run, P.Parser.Valid, P.Parser.Refused, P.Obeys;
    unread := [];
    ghost var r := Run(d, Config(p.View().(error := 0), Flat(chunks)));
    assert [] + Flat(chunks[0..]) == Flat(chunks) by { assert chunks[0..] == chunks; }
    var i := 0;
    while i < |chunks|
      invariant i <= |chunks| && p.Valid() && old(p.calls) <= p.calls
      invariant Stands(p, d, unread + Flat(chunks[i..]), r)
      invariant p.error == 0 || p.error == HPE_PAUSED
      invariant p.error == 0 && 0 < i == |chunks| ==> Config(p.View(), unread) == r
    {
      var data := unread + chunks[i];
      ghost var rest := Flat(chunks[i + 1..]);
      assert data + rest == unread + Flat(chunks[i..]) by { assert chunks[i..][1..] == chunks[i + 1..]; }
      if i + 1 == |chunks| { assert data + rest == data; }
      unread := Step(p, data, rest, d);
      i := i + 1;
      if p.error != 0 && p.error != HPE_PAUSED {
        return unread + Flat(chunks[i..]);
      }
    }
    assert unread + Flat(chunks[i..]) == unread;
  }

  /**
   Two parsers in one state are given one stream, cut in two ways, to two users who obey one policy
   and pause where they like, with and without the fast paths.
   */
  method CutsAgree(p: P.Parser, q: P.Parser, x: seq<seq<byte>>, y: seq<seq<byte>>, ghost d: Policy)
    returns (unreadX: seq<byte>, unreadY: seq<byte>)
    requires p != q && p.Valid() && q.Valid() && p.error == 0 && p.View() == q.View()
    requires P.Obeys(p.answer, d) && P.Obeys(q.answer, d)
    requires Flat(x) == Flat(y) && x != [] && y != []
    modifies p, q
    ensures p.error == 0 && q.error == 0 ==> p.View() == q.View() && unreadX == unreadY
    ensures p.error != 0 && p.error != HPE_PAUSED && !p.Refused() ==> q.error != 0
    ensures p.error != 0 && p.error != HPE_PAUSED && !p.Refused() && q.error != 0 && q.error != HPE_PAUSED && !q.Refused() ==>
      p.error == q.error && unreadX == unreadY
  {
    hide Run, P.Parser.Valid, P.Parser.Refused, P.Obeys;
    ghost var k := Config(p.View(), Flat(x));
    unreadX := Feed(p, x, d);
    unreadY := Feed(q, y, d);
  }
}
