/** The request parser of the server: a loop that takes lines from a buffer. */
module HttpContext {
  import opened Bytes
  import opened Graph
  import B = Buffer

  datatype ParseState = ExpectRequestLine | ExpectHeaders | ExpectBody | GotAll

  type Headers = map<seq<byte>, seq<byte>>

  /** The loop between two iterations: `ok` is what it will return, `more` whether it goes on. */
  datatype Loop = Loop(state: ParseState, input: seq<byte>, headers: Headers, ok: bool, more: bool)

  /** The place of the first colon, or the length. */
  function Colon(line: seq<byte>): (k: nat)
    ensures k <= |line|
    ensures forall i :: 0 <= i < k ==> line[i] != COLON
    ensures k < |line| ==> line[k] == COLON
  {
    if line == [] || line[0] == COLON then 0 else 1 + Colon(line[1..])
  }

  /** One iteration. `accepts` is what processRequestLine says of a request line. */
  function Step(accepts: seq<byte> -> bool, k: Loop): Loop {
    match (k.state, B.FirstCrlf(k.input))
    case (ExpectRequestLine, Some(i)) =>
      if accepts(k.input[..i]) then k.(ok := true, input := k.input[i + 2..], state := ExpectHeaders)
      else k.(ok := false, more := false)
    case (ExpectRequestLine, None) => k.(more := false)
    case (ExpectHeaders, Some(i)) =>
      var line, rest := k.input[..i], k.input[i + 2..];
      var c := Colon(line);
      if c < i then k.(headers := k.headers[line[..c] := line[c + 1..]], input := rest)
      else k.(state := GotAll, more := false, input := rest)
    case _ => k
  }

  function Iterate(accepts: seq<byte> -> bool, k: Loop, n: nat): Loop
    decreases n
  {
    if n == 0 || !k.more then k else Iterate(accepts, Step(accepts, k), n - 1)
  }

  /** The input holds a header block to its end: lines with a colon, and then a line without. */
  predicate Closed(input: seq<byte>)
    decreases |input|
  {
    match B.FirstCrlf(input)
    case None => false
    case Some(i) => Colon(input[..i]) == i || Closed(input[i + 2..])
  }

  /** What a caller has to check before the call, so that the loop comes to an end. */
  predicate Ends(accepts: seq<byte> -> bool, k: Loop) {
    || !k.more
    || match k.state
       case ExpectRequestLine =>
         (match B.FirstCrlf(k.input)
          case None => true
          case Some(i) => !accepts(k.input[..i]) || Closed(k.input[i + 2..]))
       case ExpectHeaders => Closed(k.input)
       case _ => false
  }

  lemma StepEnds(accepts: seq<byte> -> bool, k: Loop)
    ensures k.more ==> (Ends(accepts, Step(accepts, k)) <==> Ends(accepts, k))
  {
    hide Colon, B.FirstCrlf;
  }

  lemma StepShrinks(accepts: seq<byte> -> bool, k: Loop)
    requires k.more && Ends(accepts, k)
    ensures Step(accepts, k).more ==> |Step(accepts, k).input| < |k.input|
    ensures |Step(accepts, k).input| <= |k.input|
  {
    hide Colon, B.FirstCrlf;
  }

  /** Where the end is not in sight the loop never ends: it takes what it can, and then spins. */
  lemma {:induction false} Spins(accepts: seq<byte> -> bool, k: Loop, n: nat)
    requires !Ends(accepts, k)
    ensures Iterate(accepts, k, n).more
    decreases n
  {
    if n > 0 {
      StepEnds(accepts, k);
      Spins(accepts, Step(accepts, k), n - 1);
    }
  }

  lemma {:induction false} Stops(accepts: seq<byte> -> bool, k: Loop) returns (n: nat)
    requires Ends(accepts, k)
    ensures !Iterate(accepts, k, n).more
    decreases |k.input|, k.more
  {
    if k.more {
      StepEnds(accepts, k);
      StepShrinks(accepts, k);
      var m := Stops(accepts, Step(accepts, k));
      n := m + 1;
    } else {
      n := 0;
    }
  }

  /** The loop comes to an end exactly when the condition holds. */
  lemma EndsExactly(accepts: seq<byte> -> bool, k: Loop)
    ensures Ends(accepts, k) <==> exists n :: !Iterate(accepts, k, n).more
  {
    if Ends(accepts, k) {
      var n := Stops(accepts, k);
    } else {
      forall n: nat ensures Iterate(accepts, k, n).more { Spins(accepts, k, n); }
    }
  }

  /** What the loop comes to. */
  function Parsed(accepts: seq<byte> -> bool, k: Loop): (r: Loop)
    requires Ends(accepts, k)
    ensures !r.more
    decreases |k.input|, k.more
  {
    if !k.more then k else
      StepEnds(accepts, k);
      StepShrinks(accepts, k);
      Parsed(accepts, Step(accepts, k))
  }

  class HttpContext {
    var state: ParseState
    var headers: Headers

    constructor ()
      ensures state == ExpectRequestLine && headers == map[]
    {
      state, headers := ExpectRequestLine, map[];
    }

    method ParseRequest(buf: B.Buffer, accepts: seq<byte> -> bool) returns (ok: bool)
      requires buf.Valid() && Ends(accepts, Loop(state, buf.Contents(), headers, true, true))
      modifies this, buf`readerIndex, buf`writerIndex
      ensures buf.Valid()
      ensures Loop(state, buf.Contents(), headers, ok, false) ==
        Parsed(accepts, Loop(old(state), old(buf.Contents()), old(headers), true, true))
    {
      hide Ends, Colon;
      ok := true;
      var hasMore := true;
      ghost var start := Loop(state, buf.Contents(), headers, ok, hasMore);
      while hasMore
        invariant buf.Valid() && Ends(accepts, Loop(state, buf.Contents(), headers, ok, hasMore))
        invariant Parsed(accepts, Loop(state, buf.Contents(), headers, ok, hasMore)) == Parsed(accepts, start)
        decreases |buf.Contents()|, hasMore
      {
        ghost var k := Loop(state, buf.Contents(), headers, ok, true);
        ParsedStep(accepts, k);
        StepShrinks(accepts, k);
        ok, hasMore := Iteration(buf, accepts, ok);
      }
    }

    /** The body of the loop. */
    method Iteration(buf: B.Buffer, accepts: seq<byte> -> bool, ok: bool) returns (accepted: bool, hasMore: bool)
      requires buf.Valid()
      modifies this, buf`readerIndex, buf`writerIndex
      ensures buf.Valid()
      ensures Loop(state, buf.Contents(), headers, accepted, hasMore) ==
        Step(accepts, Loop(old(state), old(buf.Contents()), old(headers), ok, true))
    {
      hide Colon, B.FirstCrlf, Step;
      if state == ExpectRequestLine {
        accepted, hasMore := RequestLine(buf, accepts, ok);
      } else if state == ExpectHeaders {
        accepted := ok;
        hasMore := HeaderLine(buf, accepts, ok);
      } else {
        StepStays(accepts, Loop(state, buf.Contents(), headers, ok, true));
        accepted, hasMore := ok, true;
      }
    }

    method RequestLine(buf: B.Buffer, accepts: seq<byte> -> bool, ok: bool) returns (accepted: bool, hasMore: bool)
      requires buf.Valid() && state == ExpectRequestLine
      modifies this`state, buf`readerIndex, buf`writerIndex
      ensures buf.Valid()
      ensures Loop(state, buf.Contents(), headers, accepted, hasMore) ==
        Step(accepts, Loop(ExpectRequestLine, old(buf.Contents()), headers, ok, true))
    {
      hide Colon, B.FirstCrlf;
      accepted, hasMore := ok, false;
      var crlf := buf.FindCrlf();
      if crlf.Some? {
        accepted := accepts(buf.Peek(crlf.value));
        if accepted {
          buf.RetrieveUntil(buf.readerIndex + crlf.value + 2);
          state, hasMore := ExpectHeaders, true;
        }
      }
    }

    /** A line of the header. Where there is none the loop goes on. */
    method HeaderLine(buf: B.Buffer, ghost accepts: seq<byte> -> bool, ghost ok: bool) returns (hasMore: bool)
      requires buf.Valid() && state == ExpectHeaders
      modifies this, buf`readerIndex, buf`writerIndex
      ensures buf.Valid()
      ensures Loop(state, buf.Contents(), headers, ok, hasMore) ==
        Step(accepts, Loop(ExpectHeaders, old(buf.Contents()), old(headers), ok, true))
    {
      hide Colon, B.FirstCrlf;
      hasMore := true;
      var crlf := buf.FindCrlf();
      if crlf.Some? {
        var line := buf.Peek(crlf.value);
        var colon := Colon(line);
        if colon != |line| {
          headers := headers[line[..colon] := line[colon + 1..]];
        } else {
          state, hasMore := GotAll, false;
        }
        buf.RetrieveUntil(buf.readerIndex + crlf.value + 2);
      }
    }
  }

  lemma StepStays(accepts: seq<byte> -> bool, k: Loop)
    requires k.state != ExpectRequestLine && k.state != ExpectHeaders
    ensures Step(accepts, k) == k
  {
  }

  lemma ParsedStep(accepts: seq<byte> -> bool, k: Loop)
    requires Ends(accepts, k) && k.more
    ensures Ends(accepts, Step(accepts, k)) && Parsed(accepts, k) == Parsed(accepts, Step(accepts, k))
  {
    StepEnds(accepts, k);
  }

  /** A header line as it is sent. */
  datatype Pair = Pair(name: seq<byte>, value: seq<byte>)

  const CRLF: seq<byte> := [CR, LF]

  predicate HasCrlf(line: seq<byte>) {
    B.FirstCrlf(line).Some?
  }

  function Line(p: Pair): seq<byte> {
    p.name + [COLON] + p.value
  }

  predicate Printable(ps: seq<Pair>) {
    forall i :: 0 <= i < |ps| ==> COLON !in ps[i].name && !HasCrlf(Line(ps[i]))
  }

  function Print(ps: seq<Pair>): seq<byte> {
    if ps == [] then [] else Line(ps[0]) + CRLF + Print(ps[1..])
  }

  /** The map that the pairs make, in order: the last of two equal names stays. */
  function Fold(h: Headers, ps: seq<Pair>): Headers
    decreases |ps|
  {
    if ps == [] then h else Fold(h[ps[0].name := ps[0].value], ps[1..])
  }

  lemma {:induction false} FoldLast(h: Headers, ps: seq<Pair>, name: seq<byte>, i: nat)
    requires i < |ps| && ps[i].name == name && forall j :: i < j < |ps| ==> ps[j].name != name
    ensures name in Fold(h, ps) && Fold(h, ps)[name] == ps[i].value
    decreases |ps|
  {
    if i > 0 {
      FoldLast(h[ps[0].name := ps[0].value], ps[1..], name, i - 1);
    } else {
      FoldOthers(h[name := ps[0].value], ps[1..], name);
    }
  }

  lemma {:induction false} FoldOthers(h: Headers, ps: seq<Pair>, name: seq<byte>)
    requires forall j :: 0 <= j < |ps| ==> ps[j].name != name
    ensures name in Fold(h, ps) <==> name in h
    ensures name in h ==> Fold(h, ps)[name] == h[name]
    decreases |ps|
  {
    if ps != [] { FoldOthers(h[ps[0].name := ps[0].value], ps[1..], name); }
  }

  /** A line without a line end inside ends at the first line end. */
  lemma LineEnds(line: seq<byte>, rest: seq<byte>)
    requires !HasCrlf(line)
    ensures B.FirstCrlf(line + CRLF + rest) == Some(|line|)
    ensures (line + CRLF + rest)[..|line|] == line && (line + CRLF + rest)[|line| + 2..] == rest
  {
    var s := line + CRLF + rest;
    assert s[|line|] == CR && s[|line| + 1] == LF;
  }

  lemma ColonOf(p: Pair)
    requires COLON !in p.name
    ensures Colon(Line(p)) == |p.name| && Line(p)[..|p.name|] == p.name && Line(p)[|p.name| + 1..] == p.value
  {
    var line := Line(p);
    assert line[..|p.name|] == p.name && line[|p.name|] == COLON;
  }

  lemma NoColon(line: seq<byte>)
    requires COLON !in line
    ensures Colon(line) == |line|
  {
  }

  lemma StepLine(accepts: seq<byte> -> bool, p: Pair, more: seq<byte>, h: Headers)
    requires COLON !in p.name && !HasCrlf(Line(p))
    ensures Step(accepts, Loop(ExpectHeaders, Line(p) + CRLF + more, h, true, true)) ==
      Loop(ExpectHeaders, more, h[p.name := p.value], true, true)
  {
    hide Colon, HasCrlf, B.FirstCrlf;
    LineEnds(Line(p), more);
    ColonOf(p);
  }

  lemma StepLast(accepts: seq<byte> -> bool, last: seq<byte>, rest: seq<byte>, h: Headers)
    requires COLON !in last && !HasCrlf(last)
    ensures Step(accepts, Loop(ExpectHeaders, last + CRLF + rest, h, true, true)) == Loop(GotAll, rest, h, true, false)
  {
    hide Colon, HasCrlf, B.FirstCrlf;
    LineEnds(last, rest);
    NoColon(last);
  }

  /**
   Parsing undoes printing: the lines in order make the map, the line without a colon ends the
   header, and exactly what follows it is left to be read.
   */
  lemma {:induction false} PrintedParses(accepts: seq<byte> -> bool, ps: seq<Pair>, last: seq<byte>, rest: seq<byte>, h: Headers)
    requires Printable(ps) && COLON !in last && !HasCrlf(last)
    ensures var k := Loop(ExpectHeaders, Print(ps) + (last + CRLF + rest), h, true, true);
      Ends(accepts, k) && Parsed(accepts, k) == Loop(GotAll, rest, Fold(h, ps), true, false)
    decreases |ps|
  {
    hide HasCrlf, Ends, Step, Line;
    var tail := last + CRLF + rest;
    var k := Loop(ExpectHeaders, Print(ps) + tail, h, true, true);
    StepEnds(accepts, k);
    if ps == [] {
      assert Print(ps) + tail == tail;
      StepLast(accepts, last, rest, h);
      NothingMore(accepts, Step(accepts, k));
    } else {
      var more := Print(ps[1..]) + tail;
      assert Print(ps) + tail == Line(ps[0]) + CRLF + more;
      StepLine(accepts, ps[0], more, h);
      PrintedParses(accepts, ps[1..], last, rest, h[ps[0].name := ps[0].value]);
    }
    ParsedStep(accepts, k);
  }

  lemma NothingMore(accepts: seq<byte> -> bool, k: Loop)
    requires !k.more
    ensures Ends(accepts, k) && Parsed(accepts, k) == k
  {
  }

  lemma StepAccepted(accepts: seq<byte> -> bool, line: seq<byte>, more: seq<byte>, h: Headers, ok: bool)
    requires !HasCrlf(line) && accepts(line)
    ensures Step(accepts, Loop(ExpectRequestLine, line + CRLF + more, h, ok, true)) == Loop(ExpectHeaders, more, h, true, true)
  {
    hide HasCrlf, B.FirstCrlf;
    LineEnds(line, more);
  }

  /** A whole request: an accepted line, the headers, and the line without a colon. The answer is true. */
  lemma RequestParses(accepts: seq<byte> -> bool, line: seq<byte>, ps: seq<Pair>, last: seq<byte>, rest: seq<byte>, h: Headers)
    requires !HasCrlf(line) && accepts(line) && Printable(ps) && COLON !in last && !HasCrlf(last)
    ensures var k := Loop(ExpectRequestLine, line + CRLF + (Print(ps) + (last + CRLF + rest)), h, true, true);
      Ends(accepts, k) && Parsed(accepts, k) == Loop(GotAll, rest, Fold(h, ps), true, false)
  {
    hide HasCrlf, Ends, Step;
    var block := Print(ps) + (last + CRLF + rest);
    var k := Loop(ExpectRequestLine, line + CRLF + block, h, true, true);
    StepAccepted(accepts, line, block, h, true);
    StepEnds(accepts, k);
    PrintedParses(accepts, ps, last, rest, h);
    ParsedStep(accepts, k);
  }

  /** A refused request line: the answer is false, and everything is as it was. */
  lemma RefusedParses(accepts: seq<byte> -> bool, line: seq<byte>, more: seq<byte>, h: Headers)
    requires !HasCrlf(line) && !accepts(line)
    ensures var k := Loop(ExpectRequestLine, line + CRLF + more, h, true, true);
      Ends(accepts, k) && Parsed(accepts, k) == k.(ok := false, more := false)
  {
    hide HasCrlf, B.FirstCrlf, Ends;
    var k := Loop(ExpectRequestLine, line + CRLF + more, h, true, true);
    LineEnds(line, more);
    NothingMore(accepts, Step(accepts, k));
    StepEnds(accepts, k);
    ParsedStep(accepts, k);
  }

  /** A request line that is not whole: the answer is true, and everything is as it was. */
  lemma UnfinishedParses(accepts: seq<byte> -> bool, input: seq<byte>, h: Headers)
    requires !HasCrlf(input)
    ensures var k := Loop(ExpectRequestLine, input, h, true, true);
      Ends(accepts, k) && Parsed(accepts, k) == k.(more := false)
  {
    hide Ends;
    var k := Loop(ExpectRequestLine, input, h, true, true);
    NothingMore(accepts, Step(accepts, k));
    StepEnds(accepts, k);
    ParsedStep(accepts, k);
  }

  /** The answer is false exactly for a refused request line, wherever the loop begins and however it ends. */
  lemma {:induction false} AnswerIsVerdict(accepts: seq<byte> -> bool, k: Loop)
    requires Ends(accepts, k) && k.ok && k.more
    ensures Parsed(accepts, k).ok <==>
      !(k.state == ExpectRequestLine && B.FirstCrlf(k.input).Some? && !accepts(k.input[..B.FirstCrlf(k.input).value]))
    decreases |k.input|
  {
    hide Ends, Colon, B.FirstCrlf;
    ParsedStep(accepts, k);
    StepShrinks(accepts, k);
    var t := Step(accepts, k);
    if t.more { AnswerIsVerdict(accepts, t); } else { NothingMore(accepts, t); }
  }
}
