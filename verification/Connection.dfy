/** A Connection line, section 6.1 of RFC 7230: which options set a flag. */
module Connection {
  import opened Bytes
  import opened Graph
  import opened Machine
  import opened Strides
  import opened Walk
  import opened HeaderNames
  import opened HeaderValues

  const CLOSE_OPTION: seq<byte> := [99] + W_LOSE
  const KEEP_ALIVE_OPTION: seq<byte> := [107] + W_EEP_ALIVE

  /** Some element is the word, whatever the case, without the blanks in front and the spaces behind. */
  ghost predicate Any(es: seq<seq<byte>>, word: seq<byte>) {
    exists i :: 0 <= i < |es| && Names(TrimLeft(es[i]), word)
  }

  ghost predicate HasOption(w: seq<byte>, word: seq<byte>) {
    Any(Elements(w), word)
  }

  function OrFlags(f: Flags, close: bool, keepAlive: bool, upgrade: bool): Flags {
    f.(close := f.close || close, keepAlive := f.keepAlive || keepAlive, connectionUpgrade := f.connectionUpgrade || upgrade)
  }

  /** The flags that a value sets. */
  ghost function WithOptions(f: Flags, w: seq<byte>): Flags {
    OrFlags(f, HasOption(w, CLOSE_OPTION), HasOption(w, KEEP_ALIVE_OPTION), HasOption(w, UPGRADE))
  }

  /** What header_state is behind an element: 6, 5 or 7 for the three options, and 0 for any other. */
  function OptionCode(t: seq<byte>): nat {
    if Names(t, CLOSE_OPTION) then 6
    else if Names(t, KEEP_ALIVE_OPTION) then 5
    else if Names(t, UPGRADE) then 7
    else 0
  }

  lemma OptionNodes(n: Node, c: byte)
    ensures n == HEADER_VALUE_CONNECTION || n == HEADER_VALUE_CONNECTION_WS || n == HEADER_VALUE_CONNECTION_TOKEN ==> ShapeOf(n).Switch?
    ensures n == HEADER_VALUE_CONNECTION_TOKEN && IsValueByte(c) && c != COMMA ==> Branch(n, c) == Turn(n, true)
    ensures n == HEADER_VALUE_CONNECTION_TOKEN && c == COMMA ==> Branch(n, c) == Turn(HEADER_VALUE_CONNECTION, true)
    ensures n == HEADER_VALUE_CONNECTION_TOKEN && (c == CR || c == LF) ==> Branch(n, c) == Turn(HEADER_VALUE_OTHERWISE, false)
    ensures n == HEADER_VALUE_CONNECTION && IsBlank(c) ==> Branch(n, c) == Turn(n, true)
  {
  }

  lemma SpaceNodes(n: Node, c: byte)
    ensures n == HEADER_VALUE_CONNECTION_WS && c == SP ==> Branch(n, c) == Turn(n, true)
    ensures n == HEADER_VALUE_CONNECTION_WS && c == COMMA ==> Branch(n, c) == Turn(INVOKE_LOAD_HEADER_STATE_4, true)
    ensures n == HEADER_VALUE_CONNECTION_WS && (c == CR || c == LF) ==> Branch(n, c) == Turn(HEADER_VALUE_OTHERWISE, false)
    ensures n == HEADER_VALUE_CONNECTION_WS && c != SP && c != COMMA && c != CR && c != LF ==>
      Branch(n, c) == Turn(INVOKE_RESET_CONNECTION, false)
  {
  }

  /** The bytes of one element: values, and no comma. */
  predicate IsElement(y: seq<byte>) {
    forall i :: 0 <= i < |y| ==> IsValueByte(y[i]) && y[i] != COMMA
  }

  /** What follows an element: the end of the line, or a comma. */
  predicate EndsElement(tail: seq<byte>) {
    tail != [] && (tail[0] == CR || tail[0] == LF || tail[0] == COMMA)
  }

  /** From `k` an element ends with `y`, and the machine is at `n` with `code` in header_state. */
  ghost predicate ElementEnds(d: Policy, k: Config, s: Core, y: seq<byte>, tail: seq<byte>, n: Node, code: nat) {
    Run(d, k) == Run(d, Config(Gain(s, y).(cur := n, m := s.m.(headerState := code)), tail))
  }

  lemma ElementGoesOn(d: Policy, k: Config, s: Core, m: Node, hs: nat, x: seq<byte>, y: seq<byte>, tail: seq<byte>, n: Node, code: nat)
    requires var t := Gain(s, x).(cur := m, m := s.m.(headerState := hs));
      Run(d, k) == Run(d, Config(t, y + tail)) && ElementEnds(d, Config(t, y + tail), t, y, tail, n, code)
    ensures ElementEnds(d, k, s, x + y, tail, n, code)
  {
    hide Run;
    GainMore(s, x, y);
  }

  /** The rest of an element that is no option. */
  lemma OtherOption(d: Policy, s: Core, y: seq<byte>, tail: seq<byte>)
    requires s.cur == HEADER_VALUE_CONNECTION_TOKEN && InValue(s) && IsElement(y)
    ensures ElementEnds(d, Config(s, y + tail), s, y, tail, HEADER_VALUE_CONNECTION_TOKEN, s.m.headerState)
  {
    hide Run, ShapeOf, Branch, IsValueByte;
    OptionNodes(s.cur, 0);
    forall i | 0 <= i < |y| ensures Branch(s.cur, (y + tail)[i]) == Turn(s.cur, true) { OptionNodes(s.cur, y[i]); }
    Loop(d, s, y + tail, |y|);
    assert (y + tail)[..|y|] == y && (y + tail)[|y|..] == tail;
  }

  lemma ResetOption(d: Policy, s: Core, input: seq<byte>)
    requires s.cur == INVOKE_RESET_CONNECTION && s.error == 0
    ensures Run(d, Config(s, input)) ==
      Run(d, Config(s.(cur := HEADER_VALUE_CONNECTION_TOKEN, m := s.m.(headerState := 0)), input))
  {
    hide Run;
    StepInvoke(d, s, input);
  }

  /** Behind an option: spaces to the end of the element, or it was another option after all. */
  lemma AfterOption(d: Policy, s: Core, y: seq<byte>, tail: seq<byte>)
    requires s.cur == HEADER_VALUE_CONNECTION_WS && InValue(s) && IsElement(y) && EndsElement(tail)
    ensures if AllSpaces(y) then ElementEnds(d, Config(s, y + tail), s, y, tail, HEADER_VALUE_CONNECTION_WS, s.m.headerState)
      else ElementEnds(d, Config(s, y + tail), s, y, tail, HEADER_VALUE_CONNECTION_TOKEN, 0)
  {
    hide Run, ShapeOf, Branch, IsValueByte;
    var input, n := y + tail, Spaces(y);
    OptionNodes(s.cur, 0);
    SpaceNodes(s.cur, SP);
    Loop(d, s, input, n);
    assert input[..n] == y[..n] && input[n..] == y[n..] + tail;
    if n == |y| {
      assert y[..n] == y && y[n..] + tail == tail;
    } else {
      var x, z := y[..n], y[n..];
      assert z + tail == [y[n]] + (y[n + 1..] + tail);
      assert IsValueByte(y[n]);
      EolIsNoValue(y[n]);
      SpaceNodes(s.cur, y[n]);
      StepSwitch(d, Gain(s, x), y[n], y[n + 1..] + tail);
      GainShown(s, x);
      ResetOption(d, Gain(s, x).(cur := INVOKE_RESET_CONNECTION), z + tail);
      var t := Gain(s, x).(cur := HEADER_VALUE_CONNECTION_TOKEN, m := s.m.(headerState := 0));
      OtherOption(d, t, z, tail);
      ElementGoesOn(d, Config(s, input), s, HEADER_VALUE_CONNECTION_TOKEN, 0, x, z, tail, HEADER_VALUE_CONNECTION_TOKEN, 0);
      assert x + z == y;
    }
  }

  /** The nodes that match an option from its second letter. */
  predicate IsOption(n: Node) {
    n == HEADER_VALUE_CONNECTION_1 || n == HEADER_VALUE_CONNECTION_2 || n == HEADER_VALUE_CONNECTION_3
  }

  function CodeOf(n: Node): nat {
    if n == HEADER_VALUE_CONNECTION_1 then 6 else if n == HEADER_VALUE_CONNECTION_2 then 5 else 7
  }

  lemma OptionWords(n: Node)
    requires IsOption(n)
    ensures ShapeOf(n).Match? && FoldOf(n) == ToLower && MissOf(n) == HEADER_VALUE_CONNECTION_TOKEN
    ensures WordOf(n) == if n == HEADER_VALUE_CONNECTION_1 then W_LOSE else if n == HEADER_VALUE_CONNECTION_2 then W_EEP_ALIVE else W_PGRADE
  {
  }

  lemma OptionStores(n: Node, m: Fields)
    requires IsOption(n)
    ensures ShapeOf(NextOf(n)).Invoke? && Goto(NextOf(n), m) == HEADER_VALUE_CONNECTION_WS
    ensures Update(NextOf(n), m) == m.(headerState := CodeOf(n))
  {
  }

  /** A word that is there is stored. */
  lemma WholeOption(d: Policy, s: Core, x: seq<byte>, y: seq<byte>, tail: seq<byte>)
    requires IsOption(s.cur) && InValue(s) && |x| == |WordOf(s.cur)| && BeginsWith(x, WordOf(s.cur))
    ensures Run(d, Config(s, x + y + tail)) ==
      Run(d, Config(Gain(s, x).(cur := HEADER_VALUE_CONNECTION_WS, m := s.m.(headerState := CodeOf(s.cur))), y + tail))
  {
    hide Run, ShapeOf, WordOf, FoldOf, NextOf, MissOf, Goto, Update;
    OptionWords(s.cur);
    assert x + y + tail == x + (y + tail);
    Spell(d, s, x, y + tail);
    OptionStores(s.cur, s.m);
    StepInvoke(d, Gain(s, x).(cur := NextOf(s.cur)), y + tail);
  }

  lemma OptionHasNoComma(n: Node, i: nat)
    requires IsOption(n) && i < |WordOf(n)|
    ensures WordOf(n)[i] >= 45
  {
    OptionWords(n);
  }

  lemma BrokenOption(d: Policy, s: Core, x: seq<byte>, y: seq<byte>, tail: seq<byte>)
    requires IsOption(s.cur) && InValue(s) && |x| < |WordOf(s.cur)| && EndsElement(tail)
    requires forall i :: 0 <= i < |x| ==> Lower(x[i]) == WordOf(s.cur)[i]
    requires y != [] ==> Lower(y[0]) != WordOf(s.cur)[|x|]
    ensures Run(d, Config(s, x + y + tail)) == Run(d, Config(Gain(s, x).(cur := HEADER_VALUE_CONNECTION_TOKEN), y + tail))
  {
    hide Run, ShapeOf, WordOf, FoldOf, NextOf, MissOf;
    OptionWords(s.cur);
    OptionHasNoComma(s.cur, |x|);
    var input := y + tail;
    assert x + y + tail == x + input;
    Spell(d, s, x, input);
    assert input[0] == if y == [] then tail[0] else y[0];
    MatchBreaks(d, Gain(s, x).(index := |x|), input);
  }

  /** Where an element stands at its end, given what it spells. */
  ghost predicate ElementRead(d: Policy, k: Config, s: Core, w: seq<byte>, tail: seq<byte>, code: nat) {
    if code != 0 then ElementEnds(d, k, s, w, tail, HEADER_VALUE_CONNECTION_WS, code)
    else
      || ElementEnds(d, k, s, w, tail, HEADER_VALUE_CONNECTION_TOKEN, 0)
      || ElementEnds(d, k, s, w, tail, HEADER_VALUE_CONNECTION_TOKEN, s.m.headerState)
  }

  lemma TokenRead(d: Policy, k: Config, s: Core, x: seq<byte>, y: seq<byte>, tail: seq<byte>)
    requires InValue(s) && IsElement(y)
    requires Run(d, k) == Run(d, Config(Gain(s, x).(cur := HEADER_VALUE_CONNECTION_TOKEN), y + tail))
    ensures ElementRead(d, k, s, x + y, tail, 0)
  {
    hide Run, ElementEnds;
    var t := Gain(s, x).(cur := HEADER_VALUE_CONNECTION_TOKEN);
    GainShown(s, x);
    OtherOption(d, t, y, tail);
    ElementGoesOn(d, k, s, t.cur, s.m.headerState, x, y, tail, HEADER_VALUE_CONNECTION_TOKEN, s.m.headerState);
  }

  lemma OptionRead(d: Policy, k: Config, s: Core, x: seq<byte>, y: seq<byte>, tail: seq<byte>, code: nat)
    requires InValue(s) && IsElement(y) && EndsElement(tail) && code != 0
    requires Run(d, k) == Run(d, Config(Gain(s, x).(cur := HEADER_VALUE_CONNECTION_WS, m := s.m.(headerState := code)), y + tail))
    ensures ElementRead(d, k, s, x + y, tail, if AllSpaces(y) then code else 0)
  {
    hide Run, ElementEnds;
    var t := Gain(s, x).(cur := HEADER_VALUE_CONNECTION_WS, m := s.m.(headerState := code));
    GainShown(s, x);
    AfterOption(d, t, y, tail);
    if AllSpaces(y) {
      ElementGoesOn(d, k, s, t.cur, code, x, y, tail, HEADER_VALUE_CONNECTION_WS, code);
    } else {
      ElementGoesOn(d, k, s, t.cur, code, x, y, tail, HEADER_VALUE_CONNECTION_TOKEN, 0);
    }
  }

  /** An element from its second letter. */
  lemma SecondLetter(d: Policy, s: Core, w: seq<byte>, tail: seq<byte>)
    requires IsOption(s.cur) && InValue(s) && IsElement(w) && EndsElement(tail)
    ensures ElementRead(d, Config(s, w + tail), s, w, tail, if Names(w, WordOf(s.cur)) then CodeOf(s.cur) else 0)
  {
    assert forall i: nat :: i <= |w| ==> IsElement(w[i..]);
    hide Run, WordOf, ElementRead, InValue, IsElement, EndsElement;
    var word, k := WordOf(s.cur), Config(s, w + tail);
    var n := Along(w, word);
    var x, y := w[..n], w[n..];
    assert w == x + y;
    if n == |word| {
      WholeOption(d, s, x, y, tail);
      OptionRead(d, k, s, x, y, tail, CodeOf(s.cur));
    } else {
      BrokenOption(d, s, x, y, tail);
      TokenRead(d, k, s, x, y, tail);
    }
  }

  /** Where the first letter of an element leads, once in lower case. */
  function OptionTurn(l: byte): Turn {
    match l
    case 99 => Turn(HEADER_VALUE_CONNECTION_1, true)
    case 107 => Turn(HEADER_VALUE_CONNECTION_2, true)
    case 117 => Turn(HEADER_VALUE_CONNECTION_3, true)
    case _ => Turn(HEADER_VALUE_CONNECTION_TOKEN, false)
  }

  lemma FirstNodes(c: byte)
    requires !IsBlank(c)
    ensures Branch(HEADER_VALUE_CONNECTION, c) == OptionTurn(Lower(c))
  {
  }

  /** The code of an element, letter by letter. */
  lemma CodeByOption(w: seq<byte>)
    ensures OptionCode(w) ==
      if w == [] then 0
      else if Lower(w[0]) == 99 then (if Names(w[1..], W_LOSE) then 6 else 0)
      else if Lower(w[0]) == 107 then (if Names(w[1..], W_EEP_ALIVE) then 5 else 0)
      else if Lower(w[0]) == 117 then (if Names(w[1..], W_PGRADE) then 7 else 0)
      else 0
  {
    hide Names;
    NamesCons(w, 99, W_LOSE);
    NamesCons(w, 107, W_EEP_ALIVE);
    NamesCons(w, 117, W_PGRADE);
  }

  /** An element that begins with one of the three letters. */
  lemma Letter(d: Policy, s: Core, n: Node, w: seq<byte>, tail: seq<byte>)
    requires s.cur == HEADER_VALUE_CONNECTION && InValue(s) && IsElement(w) && EndsElement(tail) && w != [] && !IsBlank(w[0])
    requires OptionTurn(Lower(w[0])) == Turn(n, true)
    ensures ElementRead(d, Config(s, w + tail), s, w, tail, OptionCode(w))
  {
    hide Run, ShapeOf, Branch, ElementEnds, Names, EndsElement, IsBlank;
    var x, y := [w[0]], w[1..];
    assert w + tail == x + (y + tail) && x + y == w;
    OptionNodes(s.cur, 0);
    FirstNodes(w[0]);
    StepSwitch(d, s, w[0], y + tail);
    GainShown(s, x);
    var t := Gain(s, x).(cur := n);
    SecondLetter(d, t, y, tail);
    CodeByOption(w);
    OptionWords(n);
    var k, hs := Config(s, w + tail), s.m.headerState;
    var code := OptionCode(w);
    if code != 0 {
      ElementGoesOn(d, k, s, n, hs, x, y, tail, HEADER_VALUE_CONNECTION_WS, code);
    } else if ElementEnds(d, Config(t, y + tail), t, y, tail, HEADER_VALUE_CONNECTION_TOKEN, 0) {
      ElementGoesOn(d, k, s, n, hs, x, y, tail, HEADER_VALUE_CONNECTION_TOKEN, 0);
    } else {
      ElementGoesOn(d, k, s, n, hs, x, y, tail, HEADER_VALUE_CONNECTION_TOKEN, hs);
    }
  }

  /** An element without blanks in front. */
  lemma Trimmed(d: Policy, s: Core, w: seq<byte>, tail: seq<byte>)
    requires s.cur == HEADER_VALUE_CONNECTION && InValue(s) && IsElement(w) && EndsElement(tail)
    requires w != [] ==> !IsBlank(w[0])
    ensures ElementRead(d, Config(s, w + tail), s, w, tail, OptionCode(w))
  {
    var c := (w + tail)[0];
    assert !IsBlank(c) && c == if w == [] then tail[0] else w[0];
    if w != [] && OptionTurn(Lower(c)).over {
      Letter(d, s, OptionTurn(Lower(c)).next, w, tail);
    } else {
      hide Run, ShapeOf, Branch, Names, IsBlank;
      CodeByOption(w);
      OptionNodes(s.cur, 0);
      FirstNodes(c);
      assert w + tail == [c] + (w + tail)[1..];
      StepSwitch(d, s, c, (w + tail)[1..]);
      GainNothing(s);
      TokenRead(d, Config(s, w + tail), s, [], w, tail);
      assert [] + w == w;
    }
  }

  /** After the first bytes of an element, the rest decides. */
  lemma ReadGoesOn(d: Policy, k: Config, s: Core, n: Node, x: seq<byte>, y: seq<byte>, tail: seq<byte>, code: nat)
    requires var t := Gain(s, x).(cur := n);
      Run(d, k) == Run(d, Config(t, y + tail)) && ElementRead(d, Config(t, y + tail), t, y, tail, code)
    ensures ElementRead(d, k, s, x + y, tail, code)
  {
    hide Run, ElementEnds;
    var t, hs := Gain(s, x).(cur := n), s.m.headerState;
    if code != 0 {
      ElementGoesOn(d, k, s, n, hs, x, y, tail, HEADER_VALUE_CONNECTION_WS, code);
    } else if ElementEnds(d, Config(t, y + tail), t, y, tail, HEADER_VALUE_CONNECTION_TOKEN, 0) {
      ElementGoesOn(d, k, s, n, hs, x, y, tail, HEADER_VALUE_CONNECTION_TOKEN, 0);
    } else {
      ElementGoesOn(d, k, s, n, hs, x, y, tail, HEADER_VALUE_CONNECTION_TOKEN, hs);
    }
  }

  /** A whole element. */
  lemma Element(d: Policy, s: Core, w: seq<byte>, tail: seq<byte>)
    requires s.cur == HEADER_VALUE_CONNECTION && InValue(s) && IsElement(w) && EndsElement(tail)
    ensures ElementRead(d, Config(s, w + tail), s, w, tail, OptionCode(TrimLeft(w)))
  {
    hide Run, ShapeOf, Branch, IsBlank, ElementRead, OptionCode, EndsElement;
    var n, input := Blanks(w), w + tail;
    var x, y := w[..n], w[n..];
    assert x + y == w && input[..n] == x && input[n..] == y + tail;
    OptionNodes(s.cur, 0);
    forall i | 0 <= i < n ensures Branch(s.cur, input[i]) == Turn(s.cur, true) {
      assert input[i] == x[i];
      OptionNodes(s.cur, x[i]);
    }
    Loop(d, s, input, n);
    GainShown(s, x);
    Trimmed(d, Gain(s, x), y, tail);
    ReadGoesOn(d, Config(s, input), s, HEADER_VALUE_CONNECTION, x, y, tail, OptionCode(y));
  }

  lemma AnyCons(x: seq<byte>, more: seq<seq<byte>>, word: seq<byte>)
    ensures Any([x] + more, word) <==> Names(TrimLeft(x), word) || Any(more, word)
  {
    hide Names, TrimLeft;
    var es := [x] + more;
    if Names(TrimLeft(x), word) { assert es[0] == x; }
    if Any(more, word) {
      var i :| 0 <= i < |more| && Names(TrimLeft(more[i]), word);
      assert es[i + 1] == more[i];
    }
  }

  lemma FirstElement(w: seq<byte>, word: seq<byte>)
    ensures var k := Comma(w);
      HasOption(w, word) <==>
        Names(TrimLeft(w[..k]), word) || (k < |w| && HasOption(w[k + 1..], word))
  {
    hide Names, TrimLeft, Any;
    var k := Comma(w);
    if k < |w| {
      AnyCons(w[..k], Elements(w[k + 1..]), word);
    } else {
      assert w[..|w|] == w && Elements(w) == [w] + [];
      AnyCons(w, [], word);
      AnyNothing(word);
    }
  }

  lemma AnyNothing(word: seq<byte>)
    ensures !Any([], word)
  {
  }

  /** The flag of one option. */
  function OptionFlags(f: Flags, code: nat): Flags {
    OrFlags(f, code == 6, code == 5, code == 7)
  }

  lemma CodeMeans(t: seq<byte>)
    ensures OptionCode(t) == 6 <==> Names(t, CLOSE_OPTION)
    ensures OptionCode(t) == 5 <==> Names(t, KEEP_ALIVE_OPTION)
    ensures OptionCode(t) == 7 <==> Names(t, UPGRADE)
  {
    hide Names;
    NamesCons(t, 99, W_LOSE);
    NamesCons(t, 107, W_EEP_ALIVE);
    NamesCons(t, 117, W_PGRADE);
  }

  lemma OrTwice(f: Flags, a: bool, b: bool, c: bool, a': bool, b': bool, c': bool)
    ensures OrFlags(OrFlags(f, a, b, c), a', b', c') == OrFlags(f, a || a', b || b', c || c')
  {
  }

  lemma SplitOne(w: seq<byte>, y: seq<byte>, t: seq<byte>, word: seq<byte>, code: nat)
    requires Comma(w) < |w| && y == w[Comma(w) + 1..] && t == TrimLeft(w[..Comma(w)])
    requires OptionCode(t) == code <==> Names(t, word)
    ensures HasOption(w, word) == (OptionCode(t) == code || HasOption(y, word))
  {
    hide Names, TrimLeft, HasOption, OptionCode, Comma;
    FirstElement(w, word);
  }

  lemma SplitFlags(f: Flags, w: seq<byte>, y: seq<byte>, t: seq<byte>)
    requires Comma(w) < |w| && y == w[Comma(w) + 1..] && t == TrimLeft(w[..Comma(w)])
    ensures WithOptions(f, w) == WithOptions(OptionFlags(f, OptionCode(t)), y)
  {
    hide Names, TrimLeft, HasOption, OptionCode, Comma, OrFlags;
    var code := OptionCode(t);
    CodeMeans(t);
    SplitOne(w, y, t, CLOSE_OPTION, 6);
    SplitOne(w, y, t, KEEP_ALIVE_OPTION, 5);
    SplitOne(w, y, t, UPGRADE, 7);
    OrTwice(f, code == 6, code == 5, code == 7, HasOption(y, CLOSE_OPTION), HasOption(y, KEEP_ALIVE_OPTION), HasOption(y, UPGRADE));
  }

  lemma LastFlags(f: Flags, w: seq<byte>)
    requires Comma(w) == |w|
    ensures WithOptions(f, w) == OptionFlags(f, OptionCode(TrimLeft(w)))
  {
    assert w[..|w|] == w;
    hide Names, TrimLeft, HasOption, OptionCode, Comma, OrFlags;
    CodeMeans(TrimLeft(w));
    FirstElement(w, CLOSE_OPTION);
    FirstElement(w, KEEP_ALIVE_OPTION);
    FirstElement(w, UPGRADE);
  }

  lemma CodeFlag(m: Fields)
    requires m.headerState != 8
    ensures OrHeaderFlag(m) == m.(flags := OptionFlags(m.flags, m.headerState),
      headerState := if 5 <= m.headerState <= 7 then 1 else m.headerState)
  {
    if m.headerState == 5 {
    } else if m.headerState == 6 {
    } else if m.headerState == 7 {
    }
  }

  lemma LoadOption(d: Policy, s: Core, input: seq<byte>)
    requires s.cur == INVOKE_LOAD_HEADER_STATE_4 && s.error == 0
    ensures Run(d, Config(s, input)) == Run(d, Config(s.(cur := HEADER_VALUE_CONNECTION, m := OrHeaderFlag(s.m)), input))
  {
    hide Run, OrHeaderFlag;
    StepInvoke(d, s, input);
  }

  /** The states of header_state in the value: none, or the code of an option just read. */
  predicate IsCode(h: nat) {
    h == 0 || h == 1 || h == 5 || h == 6 || h == 7
  }

  /** The comma behind an element. */
  lemma CommaRead(d: Policy, k: Config, s: Core, w: seq<byte>, more: seq<byte>, code: nat) returns (h: nat)
    requires ElementRead(d, k, s, w, [COMMA] + more, code) && s.error == 0
    requires code == 0 || 5 <= code <= 7
    requires s.m.headerState <= 1
    ensures h <= 1
    ensures Run(d, k) == Run(d, Config(Gain(s, w + [COMMA]).(cur := HEADER_VALUE_CONNECTION,
      m := s.m.(headerState := h, flags := OptionFlags(s.m.flags, code))), more))
  {
    assert OptionFlags(s.m.flags, 0) == s.m.flags;
    hide Run, ShapeOf, Branch, OrHeaderFlag, OptionFlags;
    GainMore(s, w, [COMMA]);
    OptionNodes(HEADER_VALUE_CONNECTION_WS, COMMA);
    OptionNodes(HEADER_VALUE_CONNECTION_TOKEN, COMMA);
    SpaceNodes(HEADER_VALUE_CONNECTION_WS, COMMA);
    if code != 0 {
      h := 1;
      var t := Gain(s, w).(cur := HEADER_VALUE_CONNECTION_WS, m := s.m.(headerState := code));
      StepSwitch(d, t, COMMA, more);
      CodeFlag(t.m);
      LoadOption(d, Gain(t, [COMMA]).(cur := INVOKE_LOAD_HEADER_STATE_4), more);
    } else {
      h := if ElementEnds(d, k, s, w, [COMMA] + more, HEADER_VALUE_CONNECTION_TOKEN, 0) then 0 else s.m.headerState;
      var t := Gain(s, w).(cur := HEADER_VALUE_CONNECTION_TOKEN, m := s.m.(headerState := h));
      StepSwitch(d, t, COMMA, more);
    }
  }

  /** The end of the line behind an element. */
  lemma EolRead(d: Policy, k: Config, s: Core, w: seq<byte>, e: byte, rest: seq<byte>, code: nat) returns (h: nat)
    requires ElementRead(d, k, s, w, [e] + rest, code) && s.error == 0 && (e == CR || e == LF)
    requires code == 0 || 5 <= code <= 7
    requires s.m.headerState <= 1
    ensures IsCode(h) && OptionFlags(s.m.flags, h) == OptionFlags(s.m.flags, code)
    ensures Run(d, k) == Run(d, Config(Gain(s, w).(cur := HEADER_VALUE_OTHERWISE, m := s.m.(headerState := h)), [e] + rest))
  {
    hide Run, ShapeOf, Branch;
    OptionNodes(HEADER_VALUE_CONNECTION_WS, e);
    OptionNodes(HEADER_VALUE_CONNECTION_TOKEN, e);
    SpaceNodes(HEADER_VALUE_CONNECTION_WS, e);
    if code != 0 {
      h := code;
      StepSwitch(d, Gain(s, w).(cur := HEADER_VALUE_CONNECTION_WS, m := s.m.(headerState := h)), e, rest);
    } else {
      h := if ElementEnds(d, k, s, w, [e] + rest, HEADER_VALUE_CONNECTION_TOKEN, 0) then 0 else s.m.headerState;
      StepSwitch(d, Gain(s, w).(cur := HEADER_VALUE_CONNECTION_TOKEN, m := s.m.(headerState := h)), e, rest);
    }
  }

  lemma CodeRange(t: seq<byte>)
    ensures OptionCode(t) == 0 || 5 <= OptionCode(t) <= 7
  {
  }

  lemma PrefixElement(w: seq<byte>)
    requires AllValueBytes(w)
    ensures IsElement(w[..Comma(w)])
  {
    forall i | 0 <= i < Comma(w) ensures IsValueByte(w[i]) && w[i] != COMMA { assert w[..Comma(w)][i] == w[i]; }
  }

  /** From `k` the value ends with `w`, leaving `f` and `h`. The option of the last element may still be in header_state. */
  ghost predicate OptionsEnd(d: Policy, k: Config, s: Core, w: seq<byte>, tail: seq<byte>, f: Flags, h: nat) {
    && IsCode(h) && OptionFlags(f, h) == WithOptions(s.m.flags, w)
    && Run(d, k) == Run(d, Config(Gain(s, w).(cur := HEADER_VALUE_OTHERWISE, m := s.m.(flags := f, headerState := h)), tail))
  }

  lemma LastOption(d: Policy, s: Core, w: seq<byte>, e: byte, rest: seq<byte>) returns (f: Flags, h: nat)
    requires s.cur == HEADER_VALUE_CONNECTION && InValue(s) && IsElement(w) && Comma(w) == |w| && (e == CR || e == LF) && s.m.headerState <= 1
    ensures OptionsEnd(d, Config(s, w + ([e] + rest)), s, w, [e] + rest, f, h)
  {
    assert s.error == 0;
    hide Run, ElementRead, OptionFlags, WithOptions, OptionCode, TrimLeft, IsElement, InValue, Gain;
    CodeRange(TrimLeft(w));
    LastFlags(s.m.flags, w);
    Element(d, s, w, [e] + rest);
    h := EolRead(d, Config(s, w + ([e] + rest)), s, w, e, rest, OptionCode(TrimLeft(w)));
    f := s.m.flags;
  }

  /** The first element and its comma: the value goes on with its flag set. */
  lemma FirstOption(d: Policy, s: Core, x: seq<byte>, rest: seq<byte>) returns (h: nat)
    requires s.cur == HEADER_VALUE_CONNECTION && InValue(s) && IsElement(x) && s.m.headerState <= 1
    ensures h <= 1
    ensures Run(d, Config(s, x + ([COMMA] + rest))) == Run(d, Config(Gain(s, x + [COMMA]).(cur := HEADER_VALUE_CONNECTION,
      m := s.m.(headerState := h, flags := OptionFlags(s.m.flags, OptionCode(TrimLeft(x))))), rest))
  {
    assert s.error == 0;
    hide Run, ElementRead, OptionFlags, OptionCode, TrimLeft, IsElement, InValue, Gain;
    CodeRange(TrimLeft(x));
    Element(d, s, x, [COMMA] + rest);
    h := CommaRead(d, Config(s, x + ([COMMA] + rest)), s, x, rest, OptionCode(TrimLeft(x)));
  }

  /** The value of a line, element by element. */
  lemma {:induction false} Options(d: Policy, s: Core, w: seq<byte>, e: byte, rest: seq<byte>) returns (f: Flags, h: nat)
    requires s.cur == HEADER_VALUE_CONNECTION && InValue(s) && AllValueBytes(w) && (e == CR || e == LF) && s.m.headerState <= 1
    ensures OptionsEnd(d, Config(s, w + ([e] + rest)), s, w, [e] + rest, f, h)
    decreases |w|
  {
    hide Run, OptionFlags, WithOptions, IsValueByte, IsElement, InValue, Gain, TrimLeft, OptionCode;
    var j := Comma(w);
    PrefixElement(w);
    if j == |w| {
      assert w[..j] == w;
      f, h := LastOption(d, s, w, e, rest);
    } else {
      var x, y, tail := w[..j], w[j + 1..], [e] + rest;
      assert w + tail == x + ([COMMA] + (y + tail)) && x + [COMMA] + y == w;
      var g := FirstOption(d, s, x, y + tail);
      SplitFlags(s.m.flags, w, y, TrimLeft(x));
      var t := Gain(s, x + [COMMA]).(cur := HEADER_VALUE_CONNECTION,
                                     m := s.m.(headerState := g, flags := OptionFlags(s.m.flags, OptionCode(TrimLeft(x)))));
      InValueStill(s, x + [COMMA], t);
      f, h := Options(d, t, y, e, rest);
      GainTwice(s, x + [COMMA], y, t);
    }
  }

  lemma InValueStill(s: Core, x: seq<byte>, t: Core)
    requires InValue(s) && t == Gain(s, x).(cur := t.cur, m := t.m)
    ensures InValue(t)
  {
    GainShown(s, x);
  }

  lemma GainTwice(s: Core, x: seq<byte>, y: seq<byte>, t: Core)
    requires t == Gain(s, x).(cur := t.cur, m := t.m)
    ensures forall n: Node, m: Fields :: Gain(t, y).(cur := n, m := m) == Gain(s, x + y).(cur := n, m := m)
  {
    GainMore(s, x, y);
  }

  lemma LoadConnection(d: Policy, s: Core, input: seq<byte>)
    requires s.cur == INVOKE_LOAD_HEADER_STATE_2 && s.error == 0 && s.m.headerState == 1
    ensures Run(d, Config(s, input)) == Run(d, Config(s.(cur := HEADER_VALUE_CONNECTION), input))
  {
    hide Run;
    StepInvoke(d, s, input);
  }

  /** A line with a value. */
  lemma SomeOptions(d: Policy, s: Core, blanks: seq<byte>, w: seq<byte>, eol: seq<byte>, c: byte, rest: seq<byte>)
    returns (h: nat)
    requires s.cur == HEADER_VALUE_DISCARD_WS && s.error == 0 && s.span == None && s.index == 0 && s.m.headerState == 1
    requires AllBlank(blanks) && w != [] && !IsBlank(w[0]) && AllValueBytes(w) && IsEol(eol) && !IsBlank(c)
    ensures h <= 1
    ensures Run(d, Config(s, blanks + w + eol + ([c] + rest))) == Run(d, Config(s.(cur := HEADER_FIELD_START,
      trace := Add(s.trace, Piece(OnHeaderValue, w)) + [HeaderValueComplete],
      m := s.m.(headerState := h, flags := WithOptions(s.m.flags, w))), [c] + rest))
  {
    hide Run, WithOptions, OptionFlags, IsBlank, OrHeaderFlag;
    var tail := eol + ([c] + rest);
    assert IsValueByte(w[0]) && w[0] != CR && w[0] != LF;
    assert tail == [eol[0]] + tail[1..];
    assert blanks + w + eol + ([c] + rest) == blanks + ([w[0]] + (w[1..] + tail));
    ValueBegins(d, s, blanks, w[0], w[1..] + tail);
    assert [w[0]] + (w[1..] + tail) == w + ([eol[0]] + tail[1..]);
    LoadConnection(d, Begun(s), w + tail);
    GainShown(s.(span := Some(OnHeaderValue)), []);
    var f, code := Options(d, Begun(s).(cur := HEADER_VALUE_CONNECTION), w, eol[0], tail[1..]);
    AddPieces(s.trace, OnHeaderValue, [], w);
    assert [] + w == w;
    var m := s.m.(headerState := code, flags := f);
    CodeFlag(m);
    ValueEnds(d, Gain(Begun(s), w).(cur := HEADER_VALUE_OTHERWISE, m := m), eol, c, rest);
    h := if code == 0 then 0 else 1;
  }

  lemma NoOptions(f: Flags)
    ensures WithOptions(f, []) == f
  {
  }

  /** A whole line: the flags of the options it lists are set, and no others. */
  lemma ConnectionLine(d: Policy, s: Core, blanks: seq<byte>, w: seq<byte>, eol: seq<byte>, c: byte, rest: seq<byte>)
    returns (h: nat)
    requires s.cur == HEADER_VALUE_DISCARD_WS && s.error == 0 && s.span == None && s.index == 0 && s.m.headerState == 1
    requires AllBlank(blanks) && (w != [] ==> !IsBlank(w[0])) && AllValueBytes(w) && IsEol(eol) && !IsBlank(c)
    ensures h <= 1
    ensures Run(d, Config(s, blanks + w + eol + ([c] + rest))) == Run(d, Config(s.(cur := HEADER_FIELD_START,
      trace := ValueShown(s.trace, w), m := s.m.(headerState := h, flags := WithOptions(s.m.flags, w))), [c] + rest))
  {
    hide Run, WithOptions, IsBlank, OrHeaderFlag;
    if w == [] {
      h := 1;
      assert blanks + w + eol == blanks + eol;
      BlankLine(d, s, blanks, eol, c, rest);
      NoOption(s.m);
      NoOptions(s.m.flags);
      assert ValueShown(s.trace, w) == Add(s.trace, Piece(OnHeaderValue, []));
    } else {
      h := SomeOptions(d, s, blanks, w, eol, c, rest);
    }
  }
}
