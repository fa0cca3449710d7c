/** The first line of a response: what it is read as, and how it is refused. */
module StatusLine {
  import opened Bytes
  import opened Graph
  import opened Machine
  import opened Strides
  import opened Walk
  import opened HeaderValues
  import opened Numbers
  import Messages

  /** A status line as it is sent. Without a reason the space behind the code may be missing, too. */
  datatype Status = Status(major: byte, minor: byte, code: seq<byte>, reason: Option<seq<byte>>, eol: seq<byte>)

  predicate SendableStatus(t: Status) {
    && IsDigit(t.major) && IsDigit(t.minor) && AllDigits(t.code) && Value(10, 0, DecimalDigits(t.code)) <= 999
    && (t.reason.Some? ==> CR !in t.reason.value && LF !in t.reason.value)
    && IsBlankEol(t.eol)
  }

  function PrintStatus(t: Status): seq<byte> {
    W_HTTP + [t.major, 46, t.minor, SP] + t.code + (if t.reason.Some? then [SP] + t.reason.value else []) + t.eol
  }

  function ShownLine(t: Status): Messages.Line {
    Messages.Response(if t.reason == Some([]) then None else t.reason)
  }

  /** How far two words agree. */
  function Common(w: seq<byte>, word: seq<byte>): (k: nat)
    ensures k <= |w| && k <= |word|
    ensures forall i :: 0 <= i < k ==> w[i] == word[i]
    ensures k < |w| && k < |word| ==> w[k] != word[k]
  {
    if w == [] || word == [] || w[0] != word[0] then 0 else 1 + Common(w[1..], word[1..])
  }

  lemma WordNode(n: Node)
    ensures n == START_RES ==> ShapeOf(n).Match? && WordOf(n) == W_HTTP && FoldOf(n) == Exact
    ensures n == START_RES ==> NextOf(n) == RES_HTTP_MAJOR && MissOf(n) == FAIL_INVALID_CONSTANT
    ensures n == FAIL_INVALID_CONSTANT ==> ShapeOf(n).Fail? && ErrorOf(n) == HPE_INVALID_CONSTANT
  {
  }

  /** A response begins with HTTP/, in these letters. */
  lemma Protocol(d: Policy, s: Core, w: seq<byte>, rest: seq<byte>)
    requires s.cur == START_RES && s.error == 0 && s.span == None && s.index == 0 && |w| == |W_HTTP|
    ensures if w == W_HTTP then Run(d, Config(s, w + rest)) == Run(d, Config(s.(cur := RES_HTTP_MAJOR), rest))
            else Run(d, Config(s, w + rest)).s.error == HPE_INVALID_CONSTANT
  {
    hide Run, ShapeOf, WordOf, FoldOf, NextOf, MissOf, ErrorOf;
    WordNode(START_RES);
    var k := Common(w, W_HTTP);
    if k == |w| {
      assert w == w[..k] && W_HTTP == W_HTTP[..k];
      Spell(d, s, W_HTTP, rest);
    } else {
      var x, y := w[..k], w[k..] + rest;
      assert w + rest == x + y && x == W_HTTP[..k] && y[0] == w[k];
      forall i | 0 <= i < |x| ensures x[i] == W_HTTP[i] { assert W_HTTP[..k][i] == W_HTTP[i]; }
      Spell(d, s, x, y);
      MatchBreaks(d, s.(index := k), y);
      WordNode(FAIL_INVALID_CONSTANT);
      StepFail(d, s.(cur := FAIL_INVALID_CONSTANT), y);
    }
  }

  lemma VersionNode(n: Node, m: Fields, c: byte)
    ensures n == RES_HTTP_MAJOR || n == RES_HTTP_MINOR ==> ShapeOf(n).Number? && MissOf(n) == FAIL_INVALID_VERSION && (IsDigitOf(n, c) <==> IsDigit(c))
    ensures n == RES_HTTP_MAJOR && IsDigit(c) ==> AfterDigit(n, m, c) == RES_HTTP_DOT && TakeDigit(n, m, c) == m.(major := c - 48)
    ensures n == RES_HTTP_MINOR && IsDigit(c) ==> AfterDigit(n, m, c) == RES_HTTP_END && TakeDigit(n, m, c) == m.(minor := c - 48)
    ensures n == RES_HTTP_DOT || n == RES_HTTP_END ==> ShapeOf(n).Switch?
    ensures n == RES_HTTP_DOT ==> Branch(n, c) == if c == 46 then Turn(RES_HTTP_MINOR, true) else Turn(FAIL_INVALID_VERSION, false)
    ensures n == RES_HTTP_END ==> Branch(n, c) == if c == SP then Turn(INVOKE_UPDATE_STATUS_CODE, true) else Turn(FAIL_INVALID_VERSION, false)
    ensures n == FAIL_INVALID_VERSION ==> ShapeOf(n).Fail? && ErrorOf(n) == HPE_INVALID_VERSION
  {
    hide MulAdd10, MulAdd16;
  }

  lemma VersionFails(d: Policy, s: Core, input: seq<byte>)
    requires s.cur == FAIL_INVALID_VERSION && s.error == 0
    ensures Run(d, Config(s, input)).s.error == HPE_INVALID_VERSION
  {
    hide Run, ShapeOf, ErrorOf;
    VersionNode(FAIL_INVALID_VERSION, s.m, 0);
    StepFail(d, s, input);
  }

  /** Digit, dot, digit, space: nothing else is a version. */
  lemma Version(d: Policy, s: Core, w: seq<byte>, rest: seq<byte>)
    requires s.cur == RES_HTTP_MAJOR && s.error == 0 && s.span == None && |w| == 4
    ensures if IsDigit(w[0]) && w[1] == 46 && IsDigit(w[2]) && w[3] == SP then
        Run(d, Config(s, w + rest)) ==
          Run(d, Config(s.(cur := INVOKE_UPDATE_STATUS_CODE, m := s.m.(major := w[0] - 48, minor := w[2] - 48)), rest))
      else Run(d, Config(s, w + rest)).s.error == HPE_INVALID_VERSION
  {
    hide Run, ShapeOf, Branch, MissOf, AfterDigit, TakeDigit, IsDigitOf;
    var r3 := [w[3]] + rest;
    var r2 := [w[2]] + r3;
    var r1 := [w[1]] + r2;
    assert w + rest == [w[0]] + r1;
    VersionNode(RES_HTTP_MAJOR, s.m, w[0]);
    StepNumber(d, s, w[0], r1);
    if !IsDigit(w[0]) {
      VersionFails(d, s.(cur := FAIL_INVALID_VERSION), [w[0]] + r1);
    } else {
      var s1 := s.(cur := RES_HTTP_DOT, m := s.m.(major := w[0] - 48));
      VersionNode(RES_HTTP_DOT, s1.m, w[1]);
      StepSwitch(d, s1, w[1], r2);
      if w[1] != 46 {
        VersionFails(d, s1.(cur := FAIL_INVALID_VERSION), r1);
      } else {
        VersionNode(RES_HTTP_MINOR, s1.m, w[2]);
        StepNumber(d, s1.(cur := RES_HTTP_MINOR), w[2], r3);
        if !IsDigit(w[2]) {
          VersionFails(d, s1.(cur := FAIL_INVALID_VERSION), r2);
        } else {
          var s2 := s1.(cur := RES_HTTP_END, m := s1.m.(minor := w[2] - 48));
          VersionNode(RES_HTTP_END, s2.m, w[3]);
          StepSwitch(d, s2, w[3], rest);
          if w[3] != SP { VersionFails(d, s2.(cur := FAIL_INVALID_VERSION), r3); }
        }
      }
    }
  }

  lemma CodeNode(n: Node, m: Fields, c: byte)
    ensures n == INVOKE_UPDATE_STATUS_CODE ==> ShapeOf(n).Invoke? && Goto(n, m) == RES_STATUS_CODE && Update(n, m) == m.(status := 0)
    ensures n == RES_STATUS_CODE ==> ShapeOf(n).Number? && (IsDigitOf(n, c) <==> IsDigit(c)) && MissOf(n) == RES_STATUS_CODE_OTHERWISE
    ensures n == RES_STATUS_CODE_OTHERWISE ==> ShapeOf(n).Switch?
    ensures n == RES_STATUS_CODE_OTHERWISE && c == SP ==> Branch(n, c) == Turn(RES_STATUS_START, true)
    ensures n == RES_STATUS_CODE_OTHERWISE && (c == CR || c == LF) ==> Branch(n, c) == Turn(RES_STATUS_START, false)
    ensures n == RES_STATUS_CODE_OTHERWISE && c != SP && c != CR && c != LF ==> Branch(n, c) == Turn(FAIL_INVALID_STATUS, false)
    ensures n == FAIL_INVALID_STATUS ==> ShapeOf(n).Fail? && ErrorOf(n) == HPE_INVALID_STATUS
  {
    hide BodyDecision, OrHeaderFlag, UpgradeDecision;
  }

  /** The digits of a code up to 999, and behind them a space or the end of the line. */
  lemma Code(d: Policy, s: Core, ds: seq<byte>, e: byte, rest: seq<byte>)
    requires s.cur == INVOKE_UPDATE_STATUS_CODE && s.error == 0 && s.span == None && AllDigits(ds) && !IsDigit(e)
    ensures var r, v := Run(d, Config(s, ds + ([e] + rest))), Value(10, 0, DecimalDigits(ds));
      if v <= 999 && (e == SP || e == CR || e == LF) then
        r == Run(d, Config(s.(cur := RES_STATUS_START, m := s.m.(status := v)), if e == SP then rest else [e] + rest))
      else r.s.error == HPE_INVALID_STATUS
  {
    hide Run, ShapeOf, Branch, Goto, Update, MissOf, AfterDigit, TakeDigit, IsDigitOf, Value, ErrorOf;
    var t := s.(cur := RES_STATUS_CODE, m := s.m.(status := 0));
    CodeNode(INVOKE_UPDATE_STATUS_CODE, s.m, e);
    StepInvoke(d, s, ds + ([e] + rest));
    FittingIsLongest(10, 999, 0, DecimalDigits(ds));
    StatusRun(d, t, ds, [e] + rest);
    if Value(10, 0, DecimalDigits(ds)) <= 999 {
      var u := t.(m := s.m.(status := Value(10, 0, DecimalDigits(ds))));
      CodeNode(RES_STATUS_CODE, u.m, e);
      CodeNode(RES_STATUS_CODE_OTHERWISE, u.m, e);
      StepNumber(d, u, e, rest);
      StepSwitch(d, u.(cur := RES_STATUS_CODE_OTHERWISE), e, rest);
      if e != SP && e != CR && e != LF {
        CodeNode(FAIL_INVALID_STATUS, u.m, e);
        StepFail(d, u.(cur := FAIL_INVALID_STATUS), [e] + rest);
      }
    }
  }

  lemma ReasonNode(n: Node, m: Fields, c: byte)
    ensures n == RES_STATUS_START || n == RES_STATUS || n == RES_LINE_ALMOST_DONE ==> ShapeOf(n).Switch?
    ensures n == RES_STATUS_START && c == LF ==> Branch(n, c) == Turn(ON_STATUS_COMPLETE, true)
    ensures n == RES_STATUS_START && c == CR ==> Branch(n, c) == Turn(RES_LINE_ALMOST_DONE, true)
    ensures n == RES_STATUS_START && c != CR && c != LF ==> Branch(n, c) == Turn(SPAN_START_STATUS, false)
    ensures n == SPAN_START_STATUS ==> ShapeOf(n).Open? && KindOf(n) == OnStatus && NextOf(n) == RES_STATUS
    ensures n == RES_STATUS && c == LF ==> Branch(n, c) == Turn(SPAN_END_STATUS, false)
    ensures n == RES_STATUS && c == CR ==> Branch(n, c) == Turn(SPAN_END_STATUS_1, false)
    ensures n == RES_STATUS && c != CR && c != LF ==> Branch(n, c) == Turn(n, true)
    ensures n == SPAN_END_STATUS ==> ShapeOf(n).Close? && Skips(n) && NextOf(n) == ON_STATUS_COMPLETE
    ensures n == SPAN_END_STATUS_1 ==> ShapeOf(n).Close? && Skips(n) && NextOf(n) == RES_LINE_ALMOST_DONE
    ensures n == RES_LINE_ALMOST_DONE ==> Branch(n, c) == Turn(ON_STATUS_COMPLETE, true)
    ensures n == ON_STATUS_COMPLETE ==> ShapeOf(n).Call? && EventOf(n, m) == StatusComplete
  {
  }

  lemma IgnoredAnswer(answer: int)
    ensures Route(ON_STATUS_COMPLETE, answer) == HEADER_FIELD_START
  {
  }

  lemma LineComplete(d: Policy, s: Core, rest: seq<byte>)
    requires s.cur == ON_STATUS_COMPLETE && s.error == 0
    ensures Run(d, Config(s, rest)) == Run(d, Config(s.(cur := HEADER_FIELD_START, trace := s.trace + [StatusComplete]), rest))
  {
    hide Run, ShapeOf, Route, EventOf;
    ReasonNode(ON_STATUS_COMPLETE, s.m, 0);
    StepCall(d, s, rest);
    IgnoredAnswer(d(s.trace + [StatusComplete]));
  }

  /** The end of the line: a line feed, or a carriage return and any byte. */
  lemma LineEnds(d: Policy, s: Core, eol: seq<byte>, rest: seq<byte>)
    requires s.cur == RES_STATUS_START && s.error == 0 && s.span == None && IsBlankEol(eol)
    ensures Run(d, Config(s, eol + rest)) == Run(d, Config(s.(cur := HEADER_FIELD_START, trace := s.trace + [StatusComplete]), rest))
  {
    hide Run, ShapeOf, Branch;
    ReasonNode(RES_STATUS_START, s.m, eol[0]);
    if eol == [LF] {
      StepSwitch(d, s, LF, rest);
    } else {
      assert eol + rest == [CR] + ([eol[1]] + rest);
      StepSwitch(d, s, CR, [eol[1]] + rest);
      ReasonNode(RES_LINE_ALMOST_DONE, s.m, eol[1]);
      StepSwitch(d, s.(cur := RES_LINE_ALMOST_DONE), eol[1], rest);
    }
    LineComplete(d, s.(cur := ON_STATUS_COMPLETE), rest);
  }

  /** The bytes of a reason. */
  lemma ReasonBytes(d: Policy, s: Core, reason: seq<byte>, tail: seq<byte>)
    requires s.cur == RES_STATUS_START && s.error == 0 && s.span == None && reason != [] && CR !in reason && LF !in reason
    ensures Run(d, Config(s, reason + tail)) ==
      Run(d, Config(s.(cur := RES_STATUS, span := Some(OnStatus), trace := Add(s.trace, Piece(OnStatus, reason))), tail))
  {
    hide Run, ShapeOf, Branch, KindOf, NextOf, Add;
    var c := reason[0];
    assert reason + tail == [c] + (reason[1..] + tail);
    assert c in reason;
    ReasonNode(RES_STATUS_START, s.m, c);
    ReasonNode(SPAN_START_STATUS, s.m, c);
    ReasonNode(RES_STATUS, s.m, CR);
    StepSwitch(d, s, c, reason[1..] + tail);
    StepOpen(d, s.(cur := SPAN_START_STATUS), reason + tail);
    var u := Gain(s.(span := Some(OnStatus)), []).(cur := RES_STATUS);
    forall i | 0 <= i < |reason| ensures Branch(RES_STATUS, reason[i]) == Turn(RES_STATUS, true) {
      assert reason[i] in reason;
      ReasonNode(RES_STATUS, s.m, reason[i]);
    }
    GainShown(s.(span := Some(OnStatus)), []);
    LoopAll(d, u, reason, tail);
    AddPieces(s.trace, OnStatus, [], reason);
    assert [] + reason == reason;
  }

  /** The end of the line behind a reason. */
  lemma ReasonEnds(d: Policy, s: Core, eol: seq<byte>, rest: seq<byte>)
    requires s.cur == RES_STATUS && s.error == 0 && IsBlankEol(eol)
    ensures Run(d, Config(s, eol + rest)) ==
      Run(d, Config(s.(cur := HEADER_FIELD_START, span := None, trace := s.trace + [StatusComplete]), rest))
  {
    hide Run, ShapeOf, Branch, NextOf, Skips;
    var t := s.(span := None);
    ReasonNode(RES_STATUS, s.m, eol[0]);
    if eol == [LF] {
      StepSwitch(d, s, LF, rest);
      ReasonNode(SPAN_END_STATUS, s.m, LF);
      StepClose(d, s.(cur := SPAN_END_STATUS), [LF] + rest);
      assert ([LF] + rest)[1..] == rest;
    } else {
      assert eol + rest == [CR] + ([eol[1]] + rest);
      StepSwitch(d, s, CR, [eol[1]] + rest);
      ReasonNode(SPAN_END_STATUS_1, s.m, CR);
      StepClose(d, s.(cur := SPAN_END_STATUS_1), [CR] + ([eol[1]] + rest));
      assert ([CR] + ([eol[1]] + rest))[1..] == [eol[1]] + rest;
      ReasonNode(RES_LINE_ALMOST_DONE, s.m, eol[1]);
      StepSwitch(d, t.(cur := RES_LINE_ALMOST_DONE), eol[1], rest);
    }
    LineComplete(d, t.(cur := ON_STATUS_COMPLETE), rest);
  }

  /** The reason, if any, and the end of the line. */
  lemma Reason(d: Policy, s: Core, reason: seq<byte>, eol: seq<byte>, rest: seq<byte>)
    requires s.cur == RES_STATUS_START && s.error == 0 && s.span == None && IsBlankEol(eol) && CR !in reason && LF !in reason
    requires s.trace != [] && !s.trace[|s.trace| - 1].Piece?
    ensures Run(d, Config(s, reason + (eol + rest))) == Run(d, Config(s.(cur := HEADER_FIELD_START,
      trace := s.trace + Messages.ShowLine(Messages.Response(if reason == [] then None else Some(reason)))), rest))
  {
    hide Run;
    if reason == [] {
      assert reason + (eol + rest) == eol + rest;
      LineEnds(d, s, eol, rest);
    } else {
      ReasonBytes(d, s, reason, eol + rest);
      var t := s.(cur := RES_STATUS, span := Some(OnStatus), trace := s.trace + [Piece(OnStatus, reason)]);
      ReasonEnds(d, t, eol, rest);
      assert t.trace + [StatusComplete] == s.trace + Messages.ShowLine(Messages.Response(Some(reason)));
    }
  }

  /** The code, and all that follows it on the line. */
  lemma CodeRead(d: Policy, s: Core, t: Status, rest: seq<byte>)
    requires s.cur == INVOKE_UPDATE_STATUS_CODE && s.error == 0 && s.span == None && SendableStatus(t)
    requires s.trace != [] && !s.trace[|s.trace| - 1].Piece?
    ensures Run(d, Config(s, t.code + (if t.reason.Some? then [SP] + t.reason.value else []) + t.eol + rest)) ==
      Run(d, Config(s.(cur := HEADER_FIELD_START, trace := s.trace + Messages.ShowLine(ShownLine(t)),
                       m := s.m.(status := Value(10, 0, DecimalDigits(t.code)))), rest))
  {
    hide Run, Value;
    var u := s.(cur := RES_STATUS_START, m := s.m.(status := Value(10, 0, DecimalDigits(t.code))));
    if t.reason.Some? {
      var after := t.reason.value + (t.eol + rest);
      assert t.code + ([SP] + t.reason.value) + t.eol + rest == t.code + ([SP] + after);
      Code(d, s, t.code, SP, after);
      Reason(d, u, t.reason.value, t.eol, rest);
    } else {
      var after := t.eol + rest;
      assert t.code + [] + t.eol + rest == t.code + after;
      assert after == [t.eol[0]] + after[1..];
      Code(d, s, t.code, t.eol[0], after[1..]);
      Reason(d, u, [], t.eol, rest);
      assert [] + after == after;
    }
  }

  /** Behind a status line. */
  function AfterStatus(s: Core, t: Status): Core
    requires SendableStatus(t)
  {
    s.(cur := HEADER_FIELD_START, trace := s.trace + Messages.ShowLine(ShownLine(t)),
       m := s.m.(major := t.major - 48, minor := t.minor - 48, status := Value(10, 0, DecimalDigits(t.code))))
  }

  /** A whole status line, from its first letter. */
  lemma LineRead(d: Policy, s: Core, t: Status, rest: seq<byte>)
    requires s.cur == START_RES && s.error == 0 && s.span == None && s.index == 0 && SendableStatus(t)
    requires s.trace != [] && !s.trace[|s.trace| - 1].Piece?
    ensures Run(d, Config(s, PrintStatus(t) + rest)) == Run(d, Config(AfterStatus(s, t), rest))
  {
    hide Run, Value;
    var end := t.code + (if t.reason.Some? then [SP] + t.reason.value else []) + t.eol + rest;
    var version := [t.major, 46, t.minor, SP];
    assert PrintStatus(t) + rest == W_HTTP + (version + end);
    Protocol(d, s, W_HTTP, version + end);
    Version(d, s.(cur := RES_HTTP_MAJOR), version, end);
    CodeRead(d, s.(cur := INVOKE_UPDATE_STATUS_CODE, m := s.m.(major := t.major - 48, minor := t.minor - 48)), t, rest);
  }
}
