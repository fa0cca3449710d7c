/** A Content-Length line, section 3.3.2 of RFC 7230. */
module ContentLength {
  import opened Bytes
  import opened Graph
  import opened Machine
  import opened Strides
  import opened Walk
  import opened HeaderNames
  import opened HeaderValues
  import opened Numbers

  /** The number of digits in front. */
  function Digits(w: seq<byte>): (k: nat)
    ensures k <= |w|
    ensures forall i :: 0 <= i < k ==> IsDigit(w[i])
    ensures k < |w| ==> !IsDigit(w[k])
  {
    if w == [] || !IsDigit(w[0]) then 0 else 1 + Digits(w[1..])
  }

  /** The number that a value shows. */
  function Shown(w: seq<byte>): nat {
    Value(10, 0, DecimalDigits(w[..Digits(w)]))
  }

  /** One or more digits, then spaces only, and a number that fits. */
  predicate IsLength(w: seq<byte>) {
    Digits(w) > 0 && AllSpaces(w[Digits(w)..]) && Shown(w) <= MAX_UINT64
  }

  lemma LengthNodes(n: Node, c: byte)
    ensures n == HEADER_VALUE_CONTENT_LENGTH ==> ShapeOf(n).Number? && MissOf(n) == HEADER_VALUE_CONTENT_LENGTH_WS
    ensures n == HEADER_VALUE_CONTENT_LENGTH ==> (IsDigitOf(n, c) <==> IsDigit(c))
    ensures n == HEADER_VALUE_CONTENT_LENGTH_WS ==> ShapeOf(n).Switch?
    ensures n == HEADER_VALUE_CONTENT_LENGTH_WS && c == SP ==> Branch(n, c) == Turn(n, true)
    ensures n == HEADER_VALUE_CONTENT_LENGTH_WS && (c == CR || c == LF) ==> Branch(n, c) == Turn(INVOKE_OR_CONTENT_LENGTH, false)
    ensures n == HEADER_VALUE_CONTENT_LENGTH_WS && c != SP && c != CR && c != LF ==>
      Branch(n, c) == Turn(SPAN_END_HEADER_VALUE_5, false)
  {
  }

  /** Behind the digits: spaces up to the end of the line. */
  lemma AfterDigits(d: Policy, s: Core, y: seq<byte>, e: byte, rest: seq<byte>)
    requires s.cur == HEADER_VALUE_CONTENT_LENGTH_WS && InValue(s) && CR !in y && LF !in y && (e == CR || e == LF)
    ensures var r := Run(d, Config(s, y + ([e] + rest)));
      if AllSpaces(y) then
        r == Run(d, Config(Gain(s, y).(cur := HEADER_VALUE_OTHERWISE, m := s.m.(flags := s.m.flags.(contentLength := true))), [e] + rest))
      else r.s.error == HPE_INVALID_CONTENT_LENGTH
  {
    hide Run, ShapeOf, Branch;
    var input, n := y + ([e] + rest), Spaces(y);
    LengthNodes(HEADER_VALUE_CONTENT_LENGTH_WS, SP);
    Loop(d, s, input, n);
    var t := Gain(s, y[..n]);
    assert input[..n] == y[..n];
    var c, tail := input[n], input[n + 1..];
    assert input[n..] == [c] + tail;
    LengthNodes(HEADER_VALUE_CONTENT_LENGTH_WS, c);
    StepSwitch(d, t, c, tail);
    if n == |y| {
      assert c == e && tail == rest && y[..n] == y;
      OrLength(d, t.(cur := INVOKE_OR_CONTENT_LENGTH), [e] + rest);
    } else {
      assert c == y[n] && c in y;
      LengthFails(d, t.(cur := SPAN_END_HEADER_VALUE_5), [c] + tail);
    }
  }

  lemma OrLength(d: Policy, s: Core, input: seq<byte>)
    requires s.cur == INVOKE_OR_CONTENT_LENGTH && s.error == 0
    ensures Run(d, Config(s, input)) ==
      Run(d, Config(s.(cur := HEADER_VALUE_OTHERWISE, m := s.m.(flags := s.m.flags.(contentLength := true))), input))
  {
    hide Run;
    StepInvoke(d, s, input);
  }

  /** The digits end, and what is behind them is looked at. */
  lemma DigitsEnd(d: Policy, s: Core, y: seq<byte>, e: byte, rest: seq<byte>)
    requires s.cur == HEADER_VALUE_CONTENT_LENGTH && InValue(s) && CR !in y && LF !in y && (e == CR || e == LF)
    requires y != [] ==> !IsDigit(y[0])
    ensures var r := Run(d, Config(s, y + ([e] + rest)));
      if AllSpaces(y) then
        r == Run(d, Config(Gain(s, y).(cur := HEADER_VALUE_OTHERWISE, m := s.m.(flags := s.m.flags.(contentLength := true))), [e] + rest))
      else r.s.error == HPE_INVALID_CONTENT_LENGTH
  {
    hide Run, ShapeOf, MissOf, IsDigitOf, AfterDigit, TakeDigit, AllSpaces, Gain;
    var tail := y + ([e] + rest);
    var c := tail[0];
    assert tail == [c] + tail[1..];
    assert !IsDigit(c);
    LengthNodes(HEADER_VALUE_CONTENT_LENGTH, c);
    StepNumber(d, s, c, tail[1..]);
    AfterDigits(d, s.(cur := HEADER_VALUE_CONTENT_LENGTH_WS), y, e, rest);
    GainMoved(s, y);
  }

  lemma GainMoved(s: Core, w: seq<byte>)
    ensures Gain(s.(cur := HEADER_VALUE_CONTENT_LENGTH_WS), w) == Gain(s, w).(cur := HEADER_VALUE_CONTENT_LENGTH_WS)
  {
  }

  /**
   The value is accepted exactly when it is one or more digits, then spaces, and its number is
   below 2^64; then that number is in content_length. No value at all would pass here with the
   number 0, which is why the line without one is caught before.
   */
  lemma LengthValue(d: Policy, s: Core, w: seq<byte>, e: byte, rest: seq<byte>)
    requires s.cur == HEADER_VALUE_CONTENT_LENGTH && InValue(s) && s.m.length == 0
    requires CR !in w && LF !in w && (e == CR || e == LF) && (w != [] ==> !IsBlank(w[0]))
    ensures var r := Run(d, Config(s, w + ([e] + rest)));
      if IsLength(w) || w == [] then
        r == Run(d, Config(Gain(s, w).(cur := HEADER_VALUE_OTHERWISE,
          m := s.m.(length := Shown(w), flags := s.m.flags.(contentLength := true))), [e] + rest))
      else r.s.error == HPE_INVALID_CONTENT_LENGTH
  {
    hide Run, ShapeOf, MissOf, IsDigitOf, AfterDigit, TakeDigit, Value, Digits, DecimalDigits;
    var n := Digits(w);
    var x, y, tail := w[..n], w[n..], w[n..] + ([e] + rest);
    assert w + ([e] + rest) == x + tail && x + y == w;
    FittingIsLongest(10, MAX_UINT64, 0, DecimalDigits(x));
    LengthRun(d, s, x, tail);
    if Shown(w) <= MAX_UINT64 {
      var t := Gain(s, x).(m := s.m.(length := Shown(w)));
      GainShown(s, x);
      DigitsEnd(d, t, y, e, rest);
      GainMore(s, x, y);
      if n == 0 && w != [] { assert y == w && !AllSpaces(w); }
    }
  }

  lemma LoadLength(d: Policy, s: Core, input: seq<byte>)
    requires s.cur == INVOKE_LOAD_HEADER_STATE_2 && s.error == 0 && s.m.headerState == 2 && !s.m.flags.contentLength
    ensures Run(d, Config(s, input)) == Run(d, Config(s.(cur := HEADER_VALUE_CONTENT_LENGTH), input))
  {
    hide Run;
    StepInvoke(d, s, input);
  }

  /** A second Content-Length line is refused. */
  lemma LengthTwice(d: Policy, s: Core, blanks: seq<byte>, c: byte, rest: seq<byte>)
    requires s.cur == HEADER_VALUE_DISCARD_WS && s.error == 0 && s.span == None && s.m.headerState == 2 && s.m.flags.contentLength
    requires AllBlank(blanks) && !IsBlank(c) && c != CR && c != LF
    ensures Run(d, Config(s, blanks + ([c] + rest))).s.error == HPE_UNEXPECTED_CONTENT_LENGTH
  {
    hide Run, IsBlank;
    ValueBegins(d, s, blanks, c, rest);
    StepInvoke(d, Begun(s), [c] + rest);
    StepFail(d, Begun(s).(cur := FAIL_UNEXPECTED_CONTENT_LENGTH), [c] + rest);
  }

  /** A whole line, from its colon to the first byte of the next line. */
  lemma LengthLine(d: Policy, s: Core, blanks: seq<byte>, w: seq<byte>, eol: seq<byte>, c: byte, rest: seq<byte>)
    requires s.cur == HEADER_VALUE_DISCARD_WS && s.error == 0 && s.span == None && s.index == 0
    requires s.m.headerState == 2 && !s.m.flags.contentLength && s.m.length == 0
    requires AllBlank(blanks) && (w != [] ==> !IsBlank(w[0])) && CR !in w && LF !in w && IsEol(eol) && !IsBlank(c)
    ensures var r := Run(d, Config(s, blanks + w + eol + ([c] + rest)));
      if IsLength(w) then
        r == Run(d, Config(s.(cur := HEADER_FIELD_START,
          trace := Add(s.trace, Piece(OnHeaderValue, w)) + [HeaderValueComplete],
          m := s.m.(length := Shown(w), flags := s.m.flags.(contentLength := true))), [c] + rest))
      else r.s.error == HPE_INVALID_CONTENT_LENGTH
  {
    hide Run, IsLength, Shown, IsBlank;
    if w == [] {
      assert blanks + w + eol == blanks + eol;
      BlankLine(d, s, blanks, eol, c, rest);
      NothingIsNoLength();
    } else {
      SomeLength(d, s, blanks, w, eol, c, rest);
    }
  }

  lemma NothingIsNoLength()
    ensures !IsLength([])
  {
  }

  lemma SomeLength(d: Policy, s: Core, blanks: seq<byte>, w: seq<byte>, eol: seq<byte>, c: byte, rest: seq<byte>)
    requires s.cur == HEADER_VALUE_DISCARD_WS && s.error == 0 && s.span == None && s.index == 0
    requires s.m.headerState == 2 && !s.m.flags.contentLength && s.m.length == 0
    requires AllBlank(blanks) && w != [] && !IsBlank(w[0]) && CR !in w && LF !in w && IsEol(eol) && !IsBlank(c)
    ensures var r := Run(d, Config(s, blanks + w + eol + ([c] + rest)));
      if IsLength(w) then
        r == Run(d, Config(s.(cur := HEADER_FIELD_START,
          trace := Add(s.trace, Piece(OnHeaderValue, w)) + [HeaderValueComplete],
          m := s.m.(length := Shown(w), flags := s.m.flags.(contentLength := true))), [c] + rest))
      else r.s.error == HPE_INVALID_CONTENT_LENGTH
  {
    hide Run, IsLength, Shown, IsBlank;
    var tail := eol + ([c] + rest);
    LineParts(blanks, w, eol, [c] + rest);
    assert w[0] in w;
    ValueBegins(d, s, blanks, w[0], w[1..] + tail);
    var t := Begun(s);
    LoadLength(d, t, w + tail);
    GainShown(s.(span := Some(OnHeaderValue)), []);
    LengthValue(d, t.(cur := HEADER_VALUE_CONTENT_LENGTH), w, eol[0], tail[1..]);
    AddPieces(s.trace, OnHeaderValue, [], w);
    if IsLength(w) {
      var u := Gain(t, w).(cur := HEADER_VALUE_OTHERWISE, m := s.m.(length := Shown(w), flags := s.m.flags.(contentLength := true)));
      ValueEnds(d, u, eol, c, rest);
    }
  }
}
