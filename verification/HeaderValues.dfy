/** Header values on one line: how a value begins, its comma-separated elements, and how it ends. */
module HeaderValues {
  import opened Bytes
  import opened Graph
  import opened Machine
  import opened Strides
  import opened Walk

  predicate IsBlank(c: byte) {
    c == SP || c == TAB
  }

  predicate AllBlank(w: seq<byte>) {
    forall i :: 0 <= i < |w| ==> IsBlank(w[i])
  }

  predicate AllValueBytes(w: seq<byte>) {
    forall i :: 0 <= i < |w| ==> IsValueByte(w[i])
  }

  lemma EolIsNoValue(c: byte)
    ensures IsValueByte(c) ==> c != CR && c != LF
    ensures c == CR || c == LF || c == COMMA ==> !IsBlank(c)
  {
  }

  predicate IsEol(eol: seq<byte>) {
    eol == [LF] || eol == [CR, LF]
  }

  /** The number of spaces and tabs in front. */
  function Blanks(w: seq<byte>): (k: nat)
    ensures k <= |w|
    ensures forall i :: 0 <= i < k ==> IsBlank(w[i])
    ensures k < |w| ==> !IsBlank(w[k])
  {
    if w == [] || !IsBlank(w[0]) then 0 else 1 + Blanks(w[1..])
  }

  function TrimLeft(w: seq<byte>): seq<byte> {
    w[Blanks(w)..]
  }

  /** The place of the first comma, or the length. */
  function Comma(w: seq<byte>): (k: nat)
    ensures k <= |w|
    ensures forall i :: 0 <= i < k ==> w[i] != COMMA
    ensures k < |w| ==> w[k] == COMMA
  {
    if w == [] || w[0] == COMMA then 0 else 1 + Comma(w[1..])
  }

  /** The comma-separated elements of a value. */
  function Elements(w: seq<byte>): (es: seq<seq<byte>>)
    ensures es != []
    decreases |w|
  {
    var k := Comma(w);
    if k == |w| then [w] else [w[..k]] + Elements(w[k + 1..])
  }

  /** A value begins at the first byte that is no blank. */
  lemma BeginNodes(n: Node, c: byte)
    ensures n == HEADER_VALUE_DISCARD_WS ==> ShapeOf(n).Switch?
    ensures n == HEADER_VALUE_DISCARD_WS && IsBlank(c) ==> Branch(n, c) == Turn(n, true)
    ensures n == HEADER_VALUE_DISCARD_WS && !IsBlank(c) && c != CR && c != LF ==>
      Branch(n, c) == Turn(SPAN_START_HEADER_VALUE_1, false)
    ensures n == SPAN_START_HEADER_VALUE_1 ==>
      ShapeOf(n).Open? && KindOf(n) == OnHeaderValue && NextOf(n) == INVOKE_LOAD_HEADER_STATE_2
  {
  }

  function Begun(s: Core): Core {
    Gain(s.(span := Some(OnHeaderValue)), []).(cur := INVOKE_LOAD_HEADER_STATE_2)
  }

  lemma ValueBegins(d: Policy, s: Core, blanks: seq<byte>, c: byte, rest: seq<byte>)
    requires s.cur == HEADER_VALUE_DISCARD_WS && s.error == 0 && s.span == None
    requires AllBlank(blanks) && !IsBlank(c) && c != CR && c != LF
    ensures Run(d, Config(s, blanks + ([c] + rest))) == Run(d, Config(Begun(s), [c] + rest))
  {
    hide Run, ShapeOf, Branch, KindOf, NextOf, IsBlank;
    var input := blanks + ([c] + rest);
    BeginNodes(HEADER_VALUE_DISCARD_WS, c);
    forall i | 0 <= i < |blanks| ensures Branch(s.cur, input[i]) == Turn(s.cur, true) {
      assert input[i] == blanks[i];
      BeginNodes(HEADER_VALUE_DISCARD_WS, blanks[i]);
    }
    Loop(d, s, input, |blanks|);
    assert input[|blanks|..] == [c] + rest;
    StepSwitch(d, s, c, rest);
    BeginNodes(SPAN_START_HEADER_VALUE_1, c);
    StepOpen(d, s.(cur := SPAN_START_HEADER_VALUE_1), [c] + rest);
  }

  /** The parts of a line with a value. */
  lemma LineParts(blanks: seq<byte>, w: seq<byte>, eol: seq<byte>, next: seq<byte>)
    requires w != [] && eol != []
    ensures blanks + w + eol + next == blanks + ([w[0]] + (w[1..] + (eol + next)))
    ensures [w[0]] + (w[1..] + (eol + next)) == w + (eol + next)
    ensures eol + next == [eol[0]] + (eol + next)[1..]
    ensures [] + w == w
  {
  }

  lemma EndNodes(n: Node, c: byte, m: Fields)
    ensures n == HEADER_VALUE_OTHERWISE || n == HEADER_VALUE_ALMOST_DONE || n == HEADER_VALUE_LWS ==> ShapeOf(n).Switch?
    ensures n == HEADER_VALUE_OTHERWISE && c == LF ==> Branch(n, c) == Turn(SPAN_END_HEADER_VALUE_1, false)
    ensures n == HEADER_VALUE_OTHERWISE && c == CR ==> Branch(n, c) == Turn(SPAN_END_HEADER_VALUE_2, false)
    ensures n == SPAN_END_HEADER_VALUE_1 ==> ShapeOf(n).Close? && !Skips(n) && NextOf(n) == HEADER_VALUE_ALMOST_DONE
    ensures n == SPAN_END_HEADER_VALUE_2 ==> ShapeOf(n).Close? && Skips(n) && NextOf(n) == HEADER_VALUE_ALMOST_DONE
    ensures n == HEADER_VALUE_ALMOST_DONE && c == LF ==> Branch(n, c) == Turn(HEADER_VALUE_LWS, true)
    ensures n == HEADER_VALUE_LWS && !IsBlank(c) ==> Branch(n, c) == Turn(INVOKE_LOAD_HEADER_STATE_3, false)
  {
  }

  /** The end of a line, up to the byte that begins the next. */
  lemma EolRead(d: Policy, s: Core, eol: seq<byte>, c: byte, rest: seq<byte>)
    requires s.cur == HEADER_VALUE_OTHERWISE && s.error == 0 && IsEol(eol)
    ensures Run(d, Config(s, eol + ([c] + rest))) == Run(d, Config(s.(cur := HEADER_VALUE_LWS, span := None), [c] + rest))
  {
    hide Run, ShapeOf, Branch, NextOf, Skips;
    var t, next := s.(span := None), [c] + rest;
    EndNodes(HEADER_VALUE_OTHERWISE, eol[0], s.m);
    if eol == [LF] {
      StepSwitch(d, s, LF, next);
      EndNodes(SPAN_END_HEADER_VALUE_1, LF, s.m);
      StepClose(d, s.(cur := SPAN_END_HEADER_VALUE_1), [LF] + next);
    } else {
      assert eol + next == [CR] + ([LF] + next);
      StepSwitch(d, s, CR, [LF] + next);
      EndNodes(SPAN_END_HEADER_VALUE_2, LF, s.m);
      StepClose(d, s.(cur := SPAN_END_HEADER_VALUE_2), [CR] + ([LF] + next));
      assert ([CR] + ([LF] + next))[1..] == [LF] + next;
    }
    EndNodes(HEADER_VALUE_ALMOST_DONE, LF, s.m);
    StepSwitch(d, t.(cur := HEADER_VALUE_ALMOST_DONE), LF, next);
  }

  lemma LoadAtEnd(d: Policy, s: Core, input: seq<byte>)
    requires s.cur == INVOKE_LOAD_HEADER_STATE_3 && s.error == 0
    ensures Run(d, Config(s, input)) == Run(d, Config(s.(cur := HEADER_FIELD_START, m := OrHeaderFlag(s.m),
      trace := s.trace + [HeaderValueComplete]), input))
  {
    hide Run, OrHeaderFlag;
    StepInvoke(d, s, input);
    StepCall(d, s.(cur := ON_HEADER_VALUE_COMPLETE, m := OrHeaderFlag(s.m)), input);
  }

  /** Where a line is read that is not folded: its option has become a flag, and the next line begins. */
  function LineDone(s: Core): Core {
    s.(cur := HEADER_FIELD_START, span := None, m := OrHeaderFlag(s.m), trace := s.trace + [HeaderValueComplete])
  }

  /** The end of the line, when the next line does not go on with it. */
  lemma ValueEnds(d: Policy, s: Core, eol: seq<byte>, c: byte, rest: seq<byte>)
    requires s.cur == HEADER_VALUE_OTHERWISE && s.error == 0 && IsEol(eol) && !IsBlank(c)
    ensures Run(d, Config(s, eol + ([c] + rest))) == Run(d, Config(LineDone(s), [c] + rest))
  {
    hide Run, ShapeOf, Branch, IsBlank, OrHeaderFlag;
    var t, next := s.(span := None), [c] + rest;
    EolRead(d, s, eol, c, rest);
    EndNodes(HEADER_VALUE_LWS, c, s.m);
    StepSwitch(d, t.(cur := HEADER_VALUE_LWS), c, rest);
    LoadAtEnd(d, t.(cur := INVOKE_LOAD_HEADER_STATE_3), next);
  }

  // A line with blanks only. Behind a carriage return any byte counts as the end of the line here.

  predicate IsBlankEol(eol: seq<byte>) {
    eol == [LF] || (|eol| == 2 && eol[0] == CR)
  }

  lemma BlankNodes(n: Node, c: byte)
    ensures n == HEADER_VALUE_DISCARD_WS || n == HEADER_VALUE_DISCARD_WS_ALMOST_DONE || n == HEADER_VALUE_DISCARD_LWS ==> ShapeOf(n).Switch?
    ensures n == HEADER_VALUE_DISCARD_WS && c == LF ==> Branch(n, c) == Turn(HEADER_VALUE_DISCARD_LWS, true)
    ensures n == HEADER_VALUE_DISCARD_WS && c == CR ==> Branch(n, c) == Turn(HEADER_VALUE_DISCARD_WS_ALMOST_DONE, true)
    ensures n == HEADER_VALUE_DISCARD_WS_ALMOST_DONE ==> Branch(n, c) == Turn(HEADER_VALUE_DISCARD_LWS, true)
    ensures n == HEADER_VALUE_DISCARD_LWS && !IsBlank(c) ==> Branch(n, c) == Turn(INVOKE_LOAD_HEADER_STATE, false)
  {
  }

  lemma BlankEnds(n: Node, m: Fields)
    ensures n == INVOKE_LOAD_HEADER_STATE ==> ShapeOf(n).Invoke?
    ensures n == INVOKE_LOAD_HEADER_STATE && m.headerState == 2 ==> Goto(n, m) == FAIL_INVALID_CONTENT_LENGTH && Update(n, m) == m
    ensures n == INVOKE_LOAD_HEADER_STATE && m.headerState != 2 ==> Goto(n, m) == SPAN_START_HEADER_VALUE && Update(n, m) == OrHeaderFlag(m)
    ensures n == FAIL_INVALID_CONTENT_LENGTH ==> ShapeOf(n).Fail? && ErrorOf(n) == HPE_INVALID_CONTENT_LENGTH
    ensures n == SPAN_START_HEADER_VALUE ==> ShapeOf(n).Open? && KindOf(n) == OnHeaderValue && NextOf(n) == SPAN_END_HEADER_VALUE
    ensures n == SPAN_END_HEADER_VALUE ==> ShapeOf(n).Close? && !Skips(n) && NextOf(n) == HEADER_FIELD_START
  {
    hide OrHeaderFlag, BodyDecision, UpgradeDecision;
  }

  lemma EolAfterBlanks(d: Policy, s: Core, blanks: seq<byte>, eol: seq<byte>, next: seq<byte>)
    requires s.cur == HEADER_VALUE_DISCARD_WS && s.error == 0 && s.span == None && AllBlank(blanks) && IsBlankEol(eol)
    ensures Run(d, Config(s, blanks + eol + next)) == Run(d, Config(s.(cur := HEADER_VALUE_DISCARD_LWS), next))
  {
    hide Run, ShapeOf, Branch, IsBlank;
    BlankNodes(HEADER_VALUE_DISCARD_WS, eol[0]);
    forall i | 0 <= i < |blanks| ensures Branch(s.cur, blanks[i]) == Turn(s.cur, true) { BeginNodes(HEADER_VALUE_DISCARD_WS, blanks[i]); }
    assert blanks + eol + next == blanks + (eol + next);
    LoopAll(d, s, blanks, eol + next);
    if eol == [LF] {
      StepSwitch(d, s, LF, next);
    } else {
      assert eol + next == [CR] + ([eol[1]] + next);
      StepSwitch(d, s, CR, [eol[1]] + next);
      BlankNodes(HEADER_VALUE_DISCARD_WS_ALMOST_DONE, eol[1]);
      StepSwitch(d, s.(cur := HEADER_VALUE_DISCARD_WS_ALMOST_DONE), eol[1], next);
    }
  }

  /** Blanks and the end of the line. */
  lemma BlanksRead(d: Policy, s: Core, blanks: seq<byte>, eol: seq<byte>, c: byte, rest: seq<byte>)
    requires s.cur == HEADER_VALUE_DISCARD_WS && s.error == 0 && s.span == None
    requires AllBlank(blanks) && IsBlankEol(eol) && !IsBlank(c)
    ensures Run(d, Config(s, blanks + eol + ([c] + rest))) == Run(d, Config(s.(cur := INVOKE_LOAD_HEADER_STATE), [c] + rest))
  {
    hide Run, ShapeOf, Branch, IsBlank;
    EolAfterBlanks(d, s, blanks, eol, [c] + rest);
    BlankNodes(HEADER_VALUE_DISCARD_LWS, c);
    StepSwitch(d, s.(cur := HEADER_VALUE_DISCARD_LWS), c, rest);
  }

  /** Where a line without a value is read: an empty piece is reported, and not that the value is complete. */
  function BlankDone(s: Core): Core {
    s.(cur := HEADER_FIELD_START, m := OrHeaderFlag(s.m), trace := Add(s.trace, Piece(OnHeaderValue, [])))
  }

  /** A line without a value is an error for Content-Length; for any other name nothing but its option is looked at. */
  lemma BlankLine(d: Policy, s: Core, blanks: seq<byte>, eol: seq<byte>, c: byte, rest: seq<byte>)
    requires s.cur == HEADER_VALUE_DISCARD_WS && s.error == 0 && s.span == None
    requires AllBlank(blanks) && IsBlankEol(eol) && !IsBlank(c)
    ensures Run(d, Config(s, blanks + eol + ([c] + rest))) ==
      if s.m.headerState == 2 then Config(s.(cur := DEAD, error := HPE_INVALID_CONTENT_LENGTH), [c] + rest)
      else Run(d, Config(BlankDone(s), [c] + rest))
  {
    hide Run, ShapeOf, Goto, Update, NextOf, KindOf, Skips, ErrorOf, IsBlank, OrHeaderFlag, Add;
    var next, t := [c] + rest, s.(cur := INVOKE_LOAD_HEADER_STATE);
    BlanksRead(d, s, blanks, eol, c, rest);
    BlankEnds(INVOKE_LOAD_HEADER_STATE, s.m);
    StepInvoke(d, t, next);
    if s.m.headerState == 2 {
      BlankEnds(FAIL_INVALID_CONTENT_LENGTH, s.m);
      StepFail(d, s.(cur := FAIL_INVALID_CONTENT_LENGTH), next);
    } else {
      var u := s.(cur := SPAN_START_HEADER_VALUE, m := OrHeaderFlag(s.m));
      BlankEnds(SPAN_START_HEADER_VALUE, s.m);
      BlankEnds(SPAN_END_HEADER_VALUE, s.m);
      StepOpen(d, u, next);
      StepClose(d, Gain(u.(span := Some(OnHeaderValue)), []).(cur := SPAN_END_HEADER_VALUE), next);
    }
  }

  /** What the value of a line is reported as. */
  function ValueShown(t: seq<Event>, w: seq<byte>): seq<Event> {
    Add(t, Piece(OnHeaderValue, w)) + (if w == [] then [] else [HeaderValueComplete])
  }

  /** The names whose codes say nothing yet leave no flag. */
  lemma NoOption(m: Fields)
    requires m.headerState <= 4
    ensures OrHeaderFlag(m) == m
  {
  }

  /** Inside a value. */
  predicate InValue(s: Core) {
    s.error == 0 && s.span == Some(OnHeaderValue) && s.index == 0 && EndsWithPiece(s.trace, OnHeaderValue)
  }

  // Values on more than one line, and values that are refused.

  lemma LineNodes(n: Node, c: byte)
    ensures n == HEADER_VALUE_ALMOST_DONE && c != LF ==> Branch(n, c) == Turn(FAIL_LF_EXPECTED, false)
    ensures n == FAIL_LF_EXPECTED ==> ShapeOf(n).Fail? && ErrorOf(n) == HPE_LF_EXPECTED
    ensures n == HEADER_VALUE_LWS && IsBlank(c) ==> Branch(n, c) == Turn(SPAN_START_HEADER_VALUE_1, false)
    ensures n == HEADER_VALUE_DISCARD_LWS && IsBlank(c) ==> Branch(n, c) == Turn(HEADER_VALUE_DISCARD_WS, true)
  {
  }

  /**
   A line that begins with a blank goes on with the value of the line before: the end of the line is
   not reported, the blank is the next byte of the value, and header_state is looked at once more.
   */
  lemma FoldGoesOn(d: Policy, s: Core, eol: seq<byte>, c: byte, rest: seq<byte>)
    requires s.cur == HEADER_VALUE_OTHERWISE && InValue(s) && IsEol(eol) && IsBlank(c)
    ensures Run(d, Config(s, eol + ([c] + rest))) == Run(d, Config(s.(cur := INVOKE_LOAD_HEADER_STATE_2), [c] + rest))
  {
    hide Run, ShapeOf, Branch, NextOf, KindOf, IsBlank;
    var t := s.(cur := HEADER_VALUE_LWS, span := None);
    EolRead(d, s, eol, c, rest);
    EndNodes(HEADER_VALUE_LWS, c, s.m);
    LineNodes(HEADER_VALUE_LWS, c);
    StepSwitch(d, t, c, rest);
    BeginNodes(SPAN_START_HEADER_VALUE_1, c);
    StepOpen(d, t.(cur := SPAN_START_HEADER_VALUE_1), [c] + rest);
    AddNothing(s.trace, OnHeaderValue);
  }

  /** A line with blanks only goes on behind the blank that the next line begins with. */
  lemma BlankFold(d: Policy, s: Core, blanks: seq<byte>, eol: seq<byte>, c: byte, rest: seq<byte>)
    requires s.cur == HEADER_VALUE_DISCARD_WS && s.error == 0 && s.span == None
    requires AllBlank(blanks) && IsBlankEol(eol) && IsBlank(c)
    ensures Run(d, Config(s, blanks + eol + ([c] + rest))) == Run(d, Config(s, rest))
  {
    hide Run, ShapeOf, Branch, IsBlank;
    EolAfterBlanks(d, s, blanks, eol, [c] + rest);
    BlankNodes(HEADER_VALUE_DISCARD_LWS, c);
    LineNodes(HEADER_VALUE_DISCARD_LWS, c);
    StepSwitch(d, s.(cur := HEADER_VALUE_DISCARD_LWS), c, rest);
  }

  /** A carriage return that no line feed follows. */
  lemma LfExpected(d: Policy, s: Core, c: byte, rest: seq<byte>)
    requires s.cur == HEADER_VALUE_OTHERWISE && s.error == 0 && c != LF
    ensures Run(d, Config(s, [CR] + ([c] + rest))) ==
      Config(s.(cur := DEAD, span := None, error := HPE_LF_EXPECTED), [c] + rest)
  {
    hide Run, ShapeOf, Branch, NextOf, Skips, ErrorOf;
    var t := s.(span := None);
    EndNodes(HEADER_VALUE_OTHERWISE, CR, s.m);
    EndNodes(SPAN_END_HEADER_VALUE_2, CR, s.m);
    EndNodes(HEADER_VALUE_ALMOST_DONE, c, s.m);
    LineNodes(HEADER_VALUE_ALMOST_DONE, c);
    LineNodes(FAIL_LF_EXPECTED, c);
    StepSwitch(d, s, CR, [c] + rest);
    StepClose(d, s.(cur := SPAN_END_HEADER_VALUE_2), [CR] + ([c] + rest));
    assert ([CR] + ([c] + rest))[1..] == [c] + rest;
    StepSwitch(d, t.(cur := HEADER_VALUE_ALMOST_DONE), c, rest);
    StepFail(d, t.(cur := FAIL_LF_EXPECTED), [c] + rest);
  }

  lemma OddNodes(n: Node, c: byte, m: Fields)
    ensures n == HEADER_VALUE_OTHERWISE && c != CR && c != LF ==> Branch(n, c) == Turn(INVOKE_TEST_LENIENT_HEADERS, false)
    ensures n == INVOKE_TEST_LENIENT_HEADERS ==> ShapeOf(n).Invoke? && Update(n, m) == m
    ensures n == INVOKE_TEST_LENIENT_HEADERS ==> Goto(n, m) == if m.lenientHeaders then HEADER_VALUE_LENIENT else FAIL_INVALID_HEADER_TOKEN
    ensures n == FAIL_INVALID_HEADER_TOKEN ==> ShapeOf(n).Fail? && ErrorOf(n) == HPE_INVALID_HEADER_TOKEN
    ensures n == HEADER_VALUE_LENIENT ==> ShapeOf(n).Switch?
    ensures n == HEADER_VALUE_LENIENT && c != CR && c != LF ==> Branch(n, c) == Turn(n, true)
    ensures n == HEADER_VALUE_LENIENT && c == LF ==> Branch(n, c) == Turn(SPAN_END_HEADER_VALUE_1, false)
    ensures n == HEADER_VALUE_LENIENT && c == CR ==> Branch(n, c) == Turn(SPAN_END_HEADER_VALUE_3, false)
    ensures n == SPAN_END_HEADER_VALUE_3 ==> ShapeOf(n).Close? && Skips(n) && NextOf(n) == HEADER_VALUE_ALMOST_DONE
  {
    hide BodyDecision, OrHeaderFlag, UpgradeDecision;
  }

  /** A byte that no value may hold is refused where it stands. */
  lemma OddByteFails(d: Policy, s: Core, c: byte, rest: seq<byte>)
    requires s.cur == HEADER_VALUE_OTHERWISE && s.error == 0 && c != CR && c != LF && !s.m.lenientHeaders
    ensures Run(d, Config(s, [c] + rest)) == Config(s.(cur := DEAD, error := HPE_INVALID_HEADER_TOKEN), [c] + rest)
  {
    hide Run, ShapeOf, Branch, Goto, Update, ErrorOf;
    EndNodes(HEADER_VALUE_OTHERWISE, c, s.m);
    OddNodes(HEADER_VALUE_OTHERWISE, c, s.m);
    OddNodes(INVOKE_TEST_LENIENT_HEADERS, c, s.m);
    OddNodes(FAIL_INVALID_HEADER_TOKEN, c, s.m);
    StepSwitch(d, s, c, rest);
    StepInvoke(d, s.(cur := INVOKE_TEST_LENIENT_HEADERS), [c] + rest);
    StepFail(d, s.(cur := FAIL_INVALID_HEADER_TOKEN), [c] + rest);
  }

  /** With lenience such a byte, and all up to the end of the line, belongs to the value. */
  lemma OddBytesPass(d: Policy, s: Core, x: seq<byte>, eol: seq<byte>, c: byte, rest: seq<byte>)
    requires s.cur == HEADER_VALUE_OTHERWISE && InValue(s) && s.m.lenientHeaders
    requires x != [] && CR !in x && LF !in x && IsEol(eol)
    ensures Run(d, Config(s, x + (eol + ([c] + rest)))) ==
      Run(d, Config(Gain(s, x).(cur := HEADER_VALUE_LWS, span := None), [c] + rest))
  {
    hide Run, ShapeOf, Branch, Goto, Update, NextOf, Skips;
    var next := [c] + rest;
    var tail := eol + next;
    assert x[0] in x && x + tail == [x[0]] + (x[1..] + tail);
    EndNodes(HEADER_VALUE_OTHERWISE, x[0], s.m);
    OddNodes(HEADER_VALUE_OTHERWISE, x[0], s.m);
    OddNodes(INVOKE_TEST_LENIENT_HEADERS, x[0], s.m);
    StepSwitch(d, s, x[0], x[1..] + tail);
    StepInvoke(d, s.(cur := INVOKE_TEST_LENIENT_HEADERS), x + tail);
    OddNodes(HEADER_VALUE_LENIENT, x[0], s.m);
    var t := s.(cur := HEADER_VALUE_LENIENT);
    forall i | 0 <= i < |x| ensures Branch(HEADER_VALUE_LENIENT, x[i]) == Turn(HEADER_VALUE_LENIENT, true) {
      assert x[i] in x;
      OddNodes(HEADER_VALUE_LENIENT, x[i], s.m);
    }
    LoopAll(d, t, x, tail);
    LenientEol(d, Gain(t, x), eol, c, rest);
  }

  lemma LenientEol(d: Policy, s: Core, eol: seq<byte>, c: byte, rest: seq<byte>)
    requires s.cur == HEADER_VALUE_LENIENT && s.error == 0 && IsEol(eol)
    ensures Run(d, Config(s, eol + ([c] + rest))) == Run(d, Config(s.(cur := HEADER_VALUE_LWS, span := None), [c] + rest))
  {
    hide Run, ShapeOf, Branch, NextOf, Skips;
    var t, next := s.(span := None), [c] + rest;
    OddNodes(HEADER_VALUE_LENIENT, eol[0], s.m);
    if eol == [LF] {
      StepSwitch(d, s, LF, next);
      EndNodes(SPAN_END_HEADER_VALUE_1, LF, s.m);
      StepClose(d, s.(cur := SPAN_END_HEADER_VALUE_1), [LF] + next);
    } else {
      assert eol + next == [CR] + ([LF] + next);
      StepSwitch(d, s, CR, [LF] + next);
      OddNodes(SPAN_END_HEADER_VALUE_3, LF, s.m);
      StepClose(d, s.(cur := SPAN_END_HEADER_VALUE_3), [CR] + ([LF] + next));
      assert ([CR] + ([LF] + next))[1..] == [LF] + next;
    }
    EndNodes(HEADER_VALUE_ALMOST_DONE, LF, s.m);
    StepSwitch(d, t.(cur := HEADER_VALUE_ALMOST_DONE), LF, next);
  }

  // Values of names without a meaning, and of Upgrade.

  lemma FreeNodes(n: Node, c: byte, m: Fields)
    ensures n == INVOKE_LOAD_HEADER_STATE_2 ==> ShapeOf(n).Invoke?
    ensures n == INVOKE_LOAD_HEADER_STATE_2 && (m.headerState == 0 || m.headerState > 3) ==> Goto(n, m) == HEADER_VALUE
    ensures n == INVOKE_LOAD_HEADER_STATE_2 && m.headerState == 0 ==> Update(n, m) == m
    ensures n == INVOKE_LOAD_HEADER_STATE_2 && m.headerState == 4 ==>
      Update(n, m) == m.(flags := m.flags.(upgrade := true), headerState := 0)
    ensures n == HEADER_VALUE ==> ShapeOf(n).Switch?
    ensures n == HEADER_VALUE ==> Branch(n, c) == (if IsValueByte(c) then Turn(n, true) else Turn(HEADER_VALUE_OTHERWISE, false))
  {
    hide IsValueByte, OrHeaderFlag, UpgradeDecision;
  }

  /** The fields when the value of such a name has begun: an Upgrade sets its flag. */
  function FreeFields(m: Fields): Fields {
    if m.headerState == 4 then m.(flags := m.flags.(upgrade := true), headerState := 0) else m
  }

  /** The bytes of such a value, up to the first that no value may hold, the end of the line among them. */
  lemma FreeBytes(d: Policy, s: Core, w: seq<byte>, c: byte, rest: seq<byte>)
    requires s.cur == INVOKE_LOAD_HEADER_STATE_2 && InValue(s) && (s.m.headerState == 0 || s.m.headerState == 4)
    requires AllValueBytes(w) && !IsValueByte(c)
    ensures Run(d, Config(s, w + ([c] + rest))) ==
      Run(d, Config(Gain(s, w).(cur := HEADER_VALUE_OTHERWISE, m := FreeFields(s.m)), [c] + rest))
  {
    hide Run, ShapeOf, Branch, Goto, Update, IsValueByte;
    FreeNodes(INVOKE_LOAD_HEADER_STATE_2, c, s.m);
    StepInvoke(d, s, w + ([c] + rest));
    var t := s.(cur := HEADER_VALUE, m := FreeFields(s.m));
    FreeNodes(HEADER_VALUE, c, s.m);
    forall i | 0 <= i < |w| ensures Branch(HEADER_VALUE, w[i]) == Turn(HEADER_VALUE, true) { FreeNodes(HEADER_VALUE, w[i], s.m); }
    LoopAll(d, t, w, [c] + rest);
    StepSwitch(d, Gain(t, w), c, rest);
  }
}
