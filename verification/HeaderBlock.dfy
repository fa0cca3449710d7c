/**
 Header lines, any number of them and of any kind, that are not folded: which are refused and with
 what error, and what the others are shown as and leave in the fields.
 */
module HeaderBlock {
  import opened Bytes
  import opened Graph
  import opened Machine
  import opened Strides
  import opened Walk
  import opened HeaderNames
  import opened HeaderValues
  import opened OddValues
  import CL = ContentLength
  import TE = TransferEncoding
  import CO = Connection
  import Chunked
  import Framing
  import Messages

  /** A header line as it is sent. */
  datatype Header = Header(name: seq<byte>, blanks: seq<byte>, value: seq<byte>, eol: seq<byte>)

  /** Any line with a colon, that neither is the empty line nor goes on with the line before. */
  predicate IsLine(h: Header) {
    && COLON !in h.name && (h.name != [] ==> h.name[0] != CR && h.name[0] != LF && !IsBlank(h.name[0]))
    && AllBlank(h.blanks) && (h.value != [] ==> !IsBlank(h.value[0])) && CR !in h.value && LF !in h.value
    && IsEol(h.eol)
  }

  predicate AreLines(hs: seq<Header>) {
    forall i :: 0 <= i < |hs| ==> IsLine(hs[i])
  }

  function PrintHeader(h: Header): seq<byte> {
    h.name + [COLON] + h.blanks + h.value + h.eol
  }

  function PrintHeaders(hs: seq<Header>): seq<byte> {
    if hs == [] then [] else PrintHeader(hs[0]) + PrintHeaders(hs[1..])
  }

  /** How the parser shows a header: it says that the name is complete for the names it does not know, and that a value is, unless it is empty. */
  function Shown(h: Header): Messages.Field {
    Messages.Field(h.name, NameCode(h.name) == 0, h.value, h.value != [])
  }

  function AllShown(hs: seq<Header>): seq<Messages.Field> {
    seq(|hs|, i requires 0 <= i < |hs| => Shown(hs[i]))
  }

  /** What the header lines of a message have told so far. */
  datatype Told = Told(flags: Flags, length: nat)

  /** The error that a line is refused with, or 0. */
  function Wrong(t: Told, h: Header): int {
    if !AllNameBytes(h.name) then HPE_INVALID_HEADER_TOKEN
    else if NameCode(h.name) == 2 then
      if h.value == [] then HPE_INVALID_CONTENT_LENGTH
      else if t.flags.contentLength then HPE_UNEXPECTED_CONTENT_LENGTH
      else if !CL.IsLength(h.value) then HPE_INVALID_CONTENT_LENGTH
      else 0
    else if !AllValueBytes(h.value) then HPE_INVALID_HEADER_TOKEN
    else 0
  }

  /** What a line adds: options of Connection, a length, a coding, an upgrade. */
  ghost function Tell(t: Told, h: Header): Told {
    var code, w := NameCode(h.name), h.value;
    if w == [] then t
    else if code == 1 then t.(flags := CO.WithOptions(t.flags, w))
    else if code == 2 then Told(t.flags.(contentLength := true), CL.Shown(w))
    else if code == 3 then
      t.(flags := t.flags.(transferEncoding := true, chunked := t.flags.chunked || TE.IsChunked(TE.LastElement(w))))
    else if code == 4 then t.(flags := t.flags.(upgrade := true))
    else t
  }

  ghost function TellAll(t: Told, hs: seq<Header>): Told
    decreases |hs|
  {
    if hs == [] then t else TellAll(Tell(t, hs[0]), hs[1..])
  }

  /** The error of the first line that is refused, or 0. */
  ghost function FirstWrong(t: Told, hs: seq<Header>): int
    decreases |hs|
  {
    if hs == [] then 0 else if Wrong(t, hs[0]) != 0 then Wrong(t, hs[0]) else FirstWrong(Tell(t, hs[0]), hs[1..])
  }

  /** Between two header lines, with no length left over from an earlier message. */
  predicate AtHeader(s: Core) {
    && s.cur == HEADER_FIELD_START && s.error == 0 && s.span == None && s.index == 0 && !EndsWithPiece(s.trace, OnHeaderField)
    && !s.m.lenientHeaders && (s.m.flags.contentLength || s.m.length == 0)
  }

  function ToldBy(s: Core): Told {
    Told(s.m.flags, s.m.length)
  }

  /** Behind lines that tell `t`, shown as `fields`. The code in header_state does not matter there. */
  function Behind(s: Core, fields: seq<Messages.Field>, t: Told, headerState: nat): Core {
    s.(trace := s.trace + Messages.ShowFields(fields), m := s.m.(flags := t.flags, length := t.length, headerState := headerState))
  }

  lemma CodeIsSmall(name: seq<byte>)
    ensures NameCode(name) <= 4
  {
  }

  /** The name of a line, up to its colon. */
  lemma NameRead(d: Policy, s: Core, h: Header, rest: seq<byte>)
    requires AtHeader(s) && IsLine(h)
    ensures var r := Run(d, Config(s, h.name + [COLON] + rest));
      if AllNameBytes(h.name) then r == Run(d, Config(Named(s, h.name), rest)) else r.s.error == HPE_INVALID_HEADER_TOKEN
    ensures Named(s, h.name).trace == s.trace + [Piece(OnHeaderField, h.name)] + (if NameCode(h.name) == 0 then [HeaderFieldComplete] else [])
  {
    hide Run, NameCode, AllNameBytes;
    FieldName(d, s, h.name, rest);
  }

  /** Behind the colon of a name. */
  predicate AtValue(s: Core) {
    s.cur == HEADER_VALUE_DISCARD_WS && s.error == 0 && s.span == None && s.index == 0
  }

  /** The bytes of a value, behind its blanks. */
  lemma ValueRead(d: Policy, s: Core, h: Header, next: seq<byte>)
    requires AtValue(s) && IsLine(h) && h.value != []
    ensures Run(d, Config(s, h.blanks + h.value + h.eol + next)) == Run(d, Config(Begun(s), h.value + (h.eol + next)))
    ensures InValue(Begun(s))
  {
    hide Run, IsBlank;
    var w := h.value;
    assert w[0] in w;
    LineParts(h.blanks, w, h.eol, next);
    ValueBegins(d, s, h.blanks, w[0], w[1..] + (h.eol + next));
    GainShown(s.(span := Some(OnHeaderValue)), []);
  }

  /** A line of a name without a meaning, or of Upgrade, with a value. */
  lemma FreeLine(d: Policy, s: Core, h: Header, c: byte, rest: seq<byte>)
    requires AtValue(s) && IsLine(h) && h.value != [] && AllValueBytes(h.value) && !IsBlank(c)
    requires s.m.headerState == 0 || s.m.headerState == 4
    ensures Run(d, Config(s, h.blanks + h.value + h.eol + ([c] + rest))) == Run(d, Config(s.(cur := HEADER_FIELD_START,
      trace := ValueShown(s.trace, h.value), m := FreeFields(s.m)), [c] + rest))
  {
    hide Run, IsBlank, IsValueByte, OrHeaderFlag;
    var w, next := h.value, [c] + rest;
    var tail := h.eol + next;
    ValueRead(d, s, h, next);
    EolIsNoValue(h.eol[0]);
    assert tail == [h.eol[0]] + tail[1..];
    FreeBytes(d, Begun(s), w, h.eol[0], tail[1..]);
    var t := Gain(Begun(s), w).(cur := HEADER_VALUE_OTHERWISE, m := FreeFields(s.m));
    ValueEnds(d, t, h.eol, c, rest);
    NoOption(FreeFields(s.m));
    AddPieces(s.trace, OnHeaderValue, [], w);
    assert [] + w == w;
  }

  // Lines that go on with the line before.

  /** The end of a line, and the next line, which begins with a blank. */
  datatype Fold = Fold(eol: seq<byte>, line: seq<byte>)

  predicate IsFold(f: Fold) {
    IsEol(f.eol) && f.line != [] && IsBlank(f.line[0]) && AllValueBytes(f.line)
  }

  predicate AreFolds(fs: seq<Fold>) {
    forall i :: 0 <= i < |fs| ==> IsFold(fs[i])
  }

  function PrintFolds(fs: seq<Fold>): seq<byte> {
    if fs == [] then [] else fs[0].eol + fs[0].line + PrintFolds(fs[1..])
  }

  /** The value that they go on with. */
  function Unfolded(fs: seq<Fold>): seq<byte> {
    if fs == [] then [] else fs[0].line + Unfolded(fs[1..])
  }

  /**
   A value of a name without a meaning on any number of lines: the lines are reported as one value,
   without the ends of the lines between them.
   */
  lemma {:induction false} FoldedValue(d: Policy, s: Core, w: seq<byte>, fs: seq<Fold>, eol: seq<byte>, c: byte, rest: seq<byte>)
    requires s.cur == INVOKE_LOAD_HEADER_STATE_2 && InValue(s) && s.m.headerState == 0
    requires AllValueBytes(w) && AreFolds(fs) && IsEol(eol) && !IsBlank(c)
    ensures Run(d, Config(s, w + (PrintFolds(fs) + (eol + ([c] + rest))))) ==
      Run(d, Config(LineDone(Gain(s, w + Unfolded(fs))), [c] + rest))
    decreases |fs|
  {
    hide Run, IsValueByte, IsBlank, OrHeaderFlag;
    var next := eol + ([c] + rest);
    if fs == [] {
      assert w + (PrintFolds(fs) + next) == w + ([eol[0]] + next[1..]) && w + Unfolded(fs) == w;
      EolIsNoValue(eol[0]);
      FreeBytes(d, s, w, eol[0], next[1..]);
      assert [eol[0]] + next[1..] == next;
      ValueEnds(d, Gain(s, w).(cur := HEADER_VALUE_OTHERWISE), eol, c, rest);
    } else {
      var f, more := fs[0], PrintFolds(fs[1..]) + next;
      assert PrintFolds(fs) + next == f.eol + (f.line + more);
      FoldStep(d, s, w, f, more);
      var t := Gain(s, w);
      GainMoved(s, w);
      FoldedValue(d, t, f.line, fs[1..], eol, c, rest);
      GainMore(s, w, f.line + Unfolded(fs[1..]));
      assert w + (f.line + Unfolded(fs[1..])) == w + Unfolded(fs);
    }
  }

  lemma GainMoved(s: Core, w: seq<byte>)
    requires InValue(s)
    ensures InValue(Gain(s, w)) && Gain(s, w).cur == s.cur && Gain(s, w).m == s.m
  {
    GainShown(s, w);
  }

  /** One line of such a value, and the blank that the next begins with. */
  lemma FoldStep(d: Policy, s: Core, w: seq<byte>, f: Fold, more: seq<byte>)
    requires s.cur == INVOKE_LOAD_HEADER_STATE_2 && InValue(s) && s.m.headerState == 0 && AllValueBytes(w) && IsFold(f)
    ensures Run(d, Config(s, w + (f.eol + (f.line + more)))) == Run(d, Config(Gain(s, w), f.line + more))
  {
    hide Run, IsValueByte, IsBlank;
    var tail, line := f.eol + (f.line + more), f.line[1..] + more;
    assert f.line + more == [f.line[0]] + line;
    assert tail == [f.eol[0]] + tail[1..];
    EolIsNoValue(f.eol[0]);
    FreeBytes(d, s, w, f.eol[0], tail[1..]);
    GainMoved(s, w);
    FoldGoesOn(d, Gain(s, w).(cur := HEADER_VALUE_OTHERWISE), f.eol, f.line[0], line);
  }

  lemma FoldedNodes(n: Node, m: Fields)
    ensures n == INVOKE_LOAD_HEADER_STATE_2 && m.headerState == 2 && m.flags.contentLength ==>
      ShapeOf(n).Invoke? && Goto(n, m) == FAIL_UNEXPECTED_CONTENT_LENGTH && Update(n, m) == m
    ensures n == FAIL_UNEXPECTED_CONTENT_LENGTH ==> ShapeOf(n).Fail? && ErrorOf(n) == HPE_UNEXPECTED_CONTENT_LENGTH
  {
    hide OrHeaderFlag, UpgradeDecision;
  }

  /** A Content-Length that goes on in the next line is refused as a second one. */
  lemma FoldedLength(d: Policy, s: Core, eol: seq<byte>, c: byte, rest: seq<byte>)
    requires s.cur == HEADER_VALUE_OTHERWISE && InValue(s) && IsEol(eol) && IsBlank(c)
    requires s.m.headerState == 2 && s.m.flags.contentLength
    ensures Run(d, Config(s, eol + ([c] + rest))) == Config(s.(cur := DEAD, error := HPE_UNEXPECTED_CONTENT_LENGTH), [c] + rest)
  {
    hide Run, IsBlank, ShapeOf, Goto, Update, ErrorOf;
    FoldGoesOn(d, s, eol, c, rest);
    FoldedNodes(INVOKE_LOAD_HEADER_STATE_2, s.m);
    FoldedNodes(FAIL_UNEXPECTED_CONTENT_LENGTH, s.m);
    StepInvoke(d, s.(cur := INVOKE_LOAD_HEADER_STATE_2), [c] + rest);
    StepFail(d, s.(cur := FAIL_UNEXPECTED_CONTENT_LENGTH), [c] + rest);
  }

  lemma LoadNodes(n: Node, m: Fields)
    ensures n == INVOKE_LOAD_HEADER_STATE_2 ==> ShapeOf(n).Invoke? && Update(n, m).lenientHeaders == m.lenientHeaders
    ensures n == INVOKE_LOAD_HEADER_STATE_2 && m.headerState != 2 ==> InsideValue(Goto(n, m))
  {
    hide OrHeaderFlag, UpgradeDecision;
  }

  /** A value with a byte that no value may hold. */
  lemma OddLine(d: Policy, s: Core, h: Header, next: seq<byte>)
    requires AtValue(s) && IsLine(h) && !AllValueBytes(h.value) && s.m.headerState != 2 && !s.m.lenientHeaders
    ensures Run(d, Config(s, h.blanks + h.value + h.eol + next)).s.error == HPE_INVALID_HEADER_TOKEN
  {
    hide Run, ShapeOf, Goto, Update, InsideValue, IsValueByte, IsBlank;
    var t, tail := Begun(s), h.eol + next;
    ValueRead(d, s, h, next);
    LoadNodes(INVOKE_LOAD_HEADER_STATE_2, s.m);
    StepInvoke(d, t, h.value + tail);
    OddValueFails(d, t.(cur := Goto(t.cur, t.m), m := Update(t.cur, t.m)), h.value, tail);
  }

  /** A Content-Length line that is refused for one before it. */
  lemma SecondLength(d: Policy, s: Core, h: Header, next: seq<byte>)
    requires AtValue(s) && IsLine(h) && h.value != [] && s.m.headerState == 2 && s.m.flags.contentLength
    ensures Run(d, Config(s, h.blanks + h.value + h.eol + next)).s.error == HPE_UNEXPECTED_CONTENT_LENGTH
  {
    hide Run, IsBlank;
    LineParts(h.blanks, h.value, h.eol, next);
    assert h.value[0] in h.value;
    CL.LengthTwice(d, s, h.blanks, h.value[0], h.value[1..] + (h.eol + next));
  }

  /** The value of a line: from its colon to the next line, or to its error. */
  lemma LineRead(d: Policy, s: Core, h: Header, c: byte, rest: seq<byte>) returns (headerState: nat)
    requires AtValue(s) && IsLine(h) && !IsBlank(c) && s.m.headerState == NameCode(h.name) && AllNameBytes(h.name)
    requires !s.m.lenientHeaders && (s.m.flags.contentLength || s.m.length == 0)
    ensures var r := Run(d, Config(s, h.blanks + h.value + h.eol + ([c] + rest)));
      var t := Told(s.m.flags, s.m.length);
      if Wrong(t, h) != 0 then r.s.error == Wrong(t, h)
      else r == Run(d, Config(s.(cur := HEADER_FIELD_START, trace := ValueShown(s.trace, h.value),
        m := s.m.(flags := Tell(t, h).flags, length := Tell(t, h).length, headerState := headerState)), [c] + rest))
  {
    hide Run, NameCode, AllNameBytes, IsBlank, AllValueBytes, CL.IsLength, CL.Shown, CO.WithOptions, TE.IsChunked, TE.LastElement, OrHeaderFlag;
    var t, w := Told(s.m.flags, s.m.length), h.value;
    CodeIsSmall(h.name);
    headerState := s.m.headerState;
    if s.m.headerState == 2 {
      if w != [] && s.m.flags.contentLength {
        SecondLength(d, s, h, [c] + rest);
      } else if w == [] {
        assert h.blanks + h.value + h.eol == h.blanks + h.eol;
        BlankLine(d, s, h.blanks, h.eol, c, rest);
      } else {
        CL.LengthLine(d, s, h.blanks, w, h.eol, c, rest);
        assert ValueShown(s.trace, w) == Add(s.trace, Piece(OnHeaderValue, w)) + [HeaderValueComplete];
      }
    } else if w == [] {
      assert h.blanks + h.value + h.eol == h.blanks + h.eol;
      NothingIsValue();
      BlankLine(d, s, h.blanks, h.eol, c, rest);
      NoOption(s.m);
      assert ValueShown(s.trace, w) == Add(s.trace, Piece(OnHeaderValue, []));
    } else if !AllValueBytes(w) {
      OddLine(d, s, h, [c] + rest);
    } else if s.m.headerState == 1 {
      headerState := CO.ConnectionLine(d, s, h.blanks, w, h.eol, c, rest);
    } else if s.m.headerState == 3 {
      TE.CodingLine(d, s, h.blanks, w, h.eol, c, rest);
      headerState := TE.WithCoding(s.m, w).headerState;
    } else {
      FreeLine(d, s, h, c, rest);
      headerState := 0;
    }
  }

  lemma NothingIsValue()
    ensures AllValueBytes([])
  {
  }

  /** One line. */
  lemma HeaderRead(d: Policy, s: Core, h: Header, c: byte, rest: seq<byte>) returns (headerState: nat)
    requires AtHeader(s) && IsLine(h) && !IsBlank(c)
    ensures var r, t := Run(d, Config(s, PrintHeader(h) + ([c] + rest))), ToldBy(s);
      if Wrong(t, h) != 0 then r.s.error == Wrong(t, h)
      else r == Run(d, Config(Behind(s, [Shown(h)], Tell(t, h), headerState), [c] + rest))
    ensures Wrong(ToldBy(s), h) == 0 ==> AtHeader(Behind(s, [Shown(h)], Tell(ToldBy(s), h), headerState))
  {
    hide Run, NameCode, AllNameBytes, IsBlank, AllValueBytes, CL.IsLength, CL.Shown, Wrong, Tell;
    var value := h.blanks + h.value + h.eol + ([c] + rest);
    assert PrintHeader(h) + ([c] + rest) == h.name + [COLON] + value;
    NameRead(d, s, h, value);
    if !AllNameBytes(h.name) {
      OddNameIsWrong(ToldBy(s), h);
      headerState := 0;
    } else {
      var t := Named(s, h.name);
      headerState := LineRead(d, t, h, c, rest);
      ShownIs(s, h, t);
      TellKeeps(ToldBy(s), h);
    }
  }

  lemma OddNameIsWrong(t: Told, h: Header)
    requires !AllNameBytes(h.name)
    ensures Wrong(t, h) == HPE_INVALID_HEADER_TOKEN
  {
  }

  lemma ShownIs(s: Core, h: Header, t: Core)
    requires t.trace == s.trace + [Piece(OnHeaderField, h.name)] + (if NameCode(h.name) == 0 then [HeaderFieldComplete] else [])
    ensures ValueShown(t.trace, h.value) == s.trace + Messages.ShowFields([Shown(h)])
    ensures !EndsWithPiece(ValueShown(t.trace, h.value), OnHeaderField)
  {
    hide NameCode;
    assert Messages.ShowFields([Shown(h)]) == Messages.ShowField(Shown(h)) + [];
    assert ValueShown(t.trace, h.value) == s.trace + Messages.ShowField(Shown(h));
  }

  lemma OptionsKeep(f: Flags, w: seq<byte>)
    ensures var g := CO.WithOptions(f, w); g.contentLength == f.contentLength && g.trailing == f.trailing && g.skipBody == f.skipBody
  {
    hide CO.HasOption;
  }

  lemma TellKeeps(t: Told, h: Header)
    requires t.flags.contentLength || t.length == 0
    ensures Tell(t, h).flags.contentLength || Tell(t, h).length == 0
    ensures Tell(t, h).flags.trailing == t.flags.trailing && Tell(t, h).flags.skipBody == t.flags.skipBody
  {
    hide CL.Shown, NameCode, TE.IsChunked, TE.LastElement, CO.WithOptions;
    OptionsKeep(t.flags, h.value);
    var code := NameCode(h.name);
    if code == 1 {
    } else if code == 2 {
    } else if code == 3 {
    } else if code == 4 {
    }
  }

  lemma NextIsNoBlank(hs: seq<Header>, c: byte, rest: seq<byte>)
    requires AreLines(hs) && !IsBlank(c)
    ensures !IsBlank((PrintHeaders(hs) + ([c] + rest))[0])
  {
    if hs != [] {
      assert (PrintHeaders(hs) + ([c] + rest))[0] == (hs[0].name + [COLON])[0];
    }
  }

  /** Any number of lines: they are all read, or the first that is refused decides. */
  lemma {:induction false} HeadersRead(d: Policy, s: Core, hs: seq<Header>, c: byte, rest: seq<byte>) returns (headerState: nat)
    requires AtHeader(s) && AreLines(hs) && !IsBlank(c)
    ensures var r, t := Run(d, Config(s, PrintHeaders(hs) + ([c] + rest))), ToldBy(s);
      if FirstWrong(t, hs) != 0 then r.s.error == FirstWrong(t, hs)
      else r == Run(d, Config(Behind(s, AllShown(hs), TellAll(t, hs), headerState), [c] + rest))
    ensures FirstWrong(ToldBy(s), hs) == 0 ==> AtHeader(Behind(s, AllShown(hs), TellAll(ToldBy(s), hs), headerState))
    decreases |hs|
  {
    hide Run, IsBlank, PrintHeader, IsLine, Wrong, Tell, Shown, Messages.ShowField;
    var t := ToldBy(s);
    if hs == [] {
      headerState := s.m.headerState;
      assert PrintHeaders(hs) + ([c] + rest) == [c] + rest;
      assert Behind(s, AllShown(hs), t, headerState) == s by { assert s.trace + [] == s.trace; }
    } else {
      var more := PrintHeaders(hs[1..]) + ([c] + rest);
      assert more == [more[0]] + more[1..];
      NextIsNoBlank(hs[1..], c, rest);
      assert PrintHeaders(hs) + ([c] + rest) == PrintHeader(hs[0]) + more;
      var h := HeaderRead(d, s, hs[0], more[0], more[1..]);
      headerState := h;
      if Wrong(t, hs[0]) == 0 {
        var u := Behind(s, [Shown(hs[0])], Tell(t, hs[0]), h);
        headerState := HeadersRead(d, u, hs[1..], c, rest);
        BehindTwice(s, hs, Tell(t, hs[0]), h, TellAll(t, hs), headerState);
      }
    }
  }

  lemma BehindTwice(s: Core, hs: seq<Header>, t: Told, h: nat, u: Told, g: nat)
    requires hs != []
    ensures Behind(Behind(s, [Shown(hs[0])], t, h), AllShown(hs[1..]), u, g) == Behind(s, AllShown(hs), u, g)
    ensures ToldBy(Behind(s, [Shown(hs[0])], t, h)) == t
  {
    hide Shown, Messages.ShowField;
    assert AllShown(hs)[0] == Shown(hs[0]) && AllShown(hs)[1..] == AllShown(hs[1..]);
    assert Messages.ShowFields([Shown(hs[0])]) == Messages.ShowField(Shown(hs[0])) + [];
    assert s.trace + Messages.ShowFields([Shown(hs[0])]) + Messages.ShowFields(AllShown(hs[1..])) ==
      s.trace + Messages.ShowFields(AllShown(hs));
  }

  /** The empty line: a line feed, or a carriage return and any byte. */
  lemma EmptyLine(d: Policy, s: Core, eol: seq<byte>, rest: seq<byte>)
    requires s.cur == HEADER_FIELD_START && s.error == 0 && s.span == None && IsBlankEol(eol)
    ensures Run(d, Config(s, eol + rest)) == Run(d, Config(s.(cur := HEADERS_ALMOST_DONE), [eol[|eol| - 1]] + rest))
  {
    hide Run, ShapeOf, Branch;
    EmptyNodes(HEADER_FIELD_START, eol[0]);
    if eol == [LF] {
      StepSwitch(d, s, LF, rest);
    } else {
      assert eol + rest == [CR] + ([eol[1]] + rest);
      StepSwitch(d, s, CR, [eol[1]] + rest);
    }
  }

  lemma EmptyNodes(n: Node, c: byte)
    ensures n == HEADER_FIELD_START ==> ShapeOf(n).Switch?
    ensures n == HEADER_FIELD_START && c == LF ==> Branch(n, c) == Turn(HEADERS_ALMOST_DONE, false)
    ensures n == HEADER_FIELD_START && c == CR ==> Branch(n, c) == Turn(HEADERS_ALMOST_DONE, true)
  {
  }

  /** A header block does not contradict itself: it tells a length, or a coding, or none of them. */
  predicate Coherent(t: Told) {
    !(t.flags.transferEncoding && t.flags.contentLength)
  }

  /** Where the header of a message has been read, and on_headers_complete has been called. */
  function Headed(s: Core): Core {
    var m := s.m.(upgrade := UpgradeDecision(s.m));
    s.(cur := BodyDecision(m), trace := s.trace + [HeadersComplete], m := m)
  }

  /**
   A whole header block: it is refused for its first bad line, or at its end for a length and a coding
   together, before on_headers_complete; or it is complete, and the body is chosen.
   */
  lemma BlockRead(d: Policy, s: Core, hs: seq<Header>, eol: seq<byte>, rest: seq<byte>) returns (headerState: nat)
    requires AtHeader(s) && AreLines(hs) && IsBlankEol(eol) && !s.m.flags.trailing && !s.m.lenientLength && Accepts(d)
    ensures var r, t := Run(d, Config(s, PrintHeaders(hs) + eol + rest)), TellAll(ToldBy(s), hs);
      var u := Behind(s, AllShown(hs), t, headerState);
      if FirstWrong(ToldBy(s), hs) != 0 then r.s.error == FirstWrong(ToldBy(s), hs)
      else if !Coherent(t) then r == Config(u.(cur := DEAD, error := HPE_UNEXPECTED_CONTENT_LENGTH), rest)
      else r == Run(d, Config(Headed(u), rest))
  {
    hide Run, BodyDecision, UpgradeDecision, FirstWrong, TellAll, AreLines, IsBlank, Messages.ShowFields;
    var tail := eol + rest;
    assert PrintHeaders(hs) + eol + rest == PrintHeaders(hs) + ([tail[0]] + tail[1..]);
    EolIsNoValue(tail[0]);
    headerState := HeadersRead(d, s, hs, tail[0], tail[1..]);
    if FirstWrong(ToldBy(s), hs) == 0 {
      var t := TellAll(ToldBy(s), hs);
      TellAllKeeps(ToldBy(s), hs);
      var u := Behind(s, AllShown(hs), t, headerState);
      assert [tail[0]] + tail[1..] == eol + rest;
      EmptyLine(d, u, eol, rest);
      var v := u.(cur := HEADERS_ALMOST_DONE);
      if Coherent(t) {
        Framing.HeadersAnswered(d, v, eol[|eol| - 1], rest);
      } else {
        Framing.LengthsRefused(d, v, eol[|eol| - 1], rest);
      }
    }
  }

  lemma {:induction false} TellAllKeeps(t: Told, hs: seq<Header>)
    requires t.flags.contentLength || t.length == 0
    ensures TellAll(t, hs).flags.trailing == t.flags.trailing && TellAll(t, hs).flags.skipBody == t.flags.skipBody
    ensures TellAll(t, hs).flags.contentLength || TellAll(t, hs).length == 0
    decreases |hs|
  {
    hide Tell;
    if hs != [] {
      TellKeeps(t, hs[0]);
      TellAllKeeps(Tell(t, hs[0]), hs[1..]);
    }
  }
}
