/** Field names: which header a name is taken for, section 3.2 of RFC 7230. */
module HeaderNames {
  import opened Bytes
  import opened Graph
  import opened Machine
  import opened Strides
  import opened Walk

  const CONNECTION: seq<byte> := [99] + W_ON + [110] + W_ECTION
  const CONTENT_LENGTH: seq<byte> := [99] + W_ON + [116] + W_ENT_LENGTH
  const PROXY_CONNECTION: seq<byte> := [112] + W_ROXY_CONNECTION
  const TRANSFER_ENCODING: seq<byte> := [116] + W_RANSFER_ENCODING
  const UPGRADE: seq<byte> := [117] + W_PGRADE

  /** `w` begins with the word, whatever the case of its letters. */
  predicate BeginsWith(w: seq<byte>, word: seq<byte>) {
    |word| <= |w| && forall i :: 0 <= i < |word| ==> Lower(w[i]) == word[i]
  }

  predicate AllSpaces(w: seq<byte>) {
    forall i :: 0 <= i < |w| ==> w[i] == SP
  }

  /** The name is the word, whatever the case, with any number of spaces behind it. */
  predicate Names(name: seq<byte>, word: seq<byte>) {
    BeginsWith(name, word) && AllSpaces(name[|word|..])
  }

  /** The header_state of a name: the header it is taken for, or 0. */
  function NameCode(name: seq<byte>): nat {
    if Names(name, CONNECTION) || Names(name, PROXY_CONNECTION) then 1
    else if Names(name, CONTENT_LENGTH) then 2
    else if Names(name, TRANSFER_ENCODING) then 3
    else if Names(name, UPGRADE) then 4
    else 0
  }

  predicate AllNameBytes(w: seq<byte>) {
    forall i :: 0 <= i < |w| ==> IsNameByte(w[i])
  }

  /** The state behind the colon of a name, whose last bytes are `w`. */
  function AfterName(s: Core, w: seq<byte>, code: nat): Core {
    var t := Gain(s, w).(span := None, cur := HEADER_VALUE_DISCARD_WS, m := s.m.(headerState := code));
    if code == 0 then t.(trace := t.trace + [HeaderFieldComplete]) else t
  }

  /** Inside a name. */
  predicate InName(s: Core) {
    s.error == 0 && s.span == Some(OnHeaderField) && s.index == 0 && EndsWithPiece(s.trace, OnHeaderField)
  }

  /** From `k` a name ends with `w` and is taken for `code`, or one of its bytes is refused. */
  ghost predicate NameEnds(d: Policy, k: Config, s: Core, w: seq<byte>, rest: seq<byte>, code: nat) {
    if AllNameBytes(w) then Run(d, k) == Run(d, Config(AfterName(s, w, code), rest))
    else Run(d, k).s.error == HPE_INVALID_HEADER_TOKEN
  }

  function Input(w: seq<byte>, rest: seq<byte>): seq<byte> {
    w + ([COLON] + rest)
  }

  /** After the first part `x` of a name, the rest decides. */
  lemma NameGoesOn(d: Policy, k: Config, s: Core, n: Node, hs: nat, x: seq<byte>, y: seq<byte>, rest: seq<byte>, code: nat)
    requires InName(s) && AllNameBytes(x)
    requires var t := Gain(s, x).(cur := n, m := s.m.(headerState := hs));
      Run(d, k) == Run(d, Config(t, Input(y, rest))) && NameEnds(d, Config(t, Input(y, rest)), t, y, rest, code)
    ensures NameEnds(d, k, s, x + y, rest, code)
  {
    hide Run;
    var t := Gain(s, x).(cur := n, m := s.m.(headerState := hs));
    GainMore(s, x, y);
    if AllNameBytes(x + y) {
      forall i | 0 <= i < |y| ensures IsNameByte(y[i]) { assert (x + y)[|x| + i] == y[i]; }
      assert AllNameBytes(y);
      assert AfterName(t, y, code) == AfterName(s, x + y, code);
    } else {
      var i :| 0 <= i < |x + y| && !IsNameByte((x + y)[i]);
      assert i >= |x| && !IsNameByte(y[i - |x|]);
    }
  }

  lemma GeneralNodes(n: Node, c: byte)
    ensures n == HEADER_FIELD_GENERAL || n == HEADER_FIELD_GENERAL_OTHERWISE ==> ShapeOf(n).Switch?
    ensures n == HEADER_FIELD_GENERAL ==>
      Branch(n, c) == if IsNameByte(c) then Turn(n, true) else Turn(HEADER_FIELD_GENERAL_OTHERWISE, false)
    ensures n == HEADER_FIELD_GENERAL_OTHERWISE ==>
      Branch(n, c) == Turn(if c == COLON then SPAN_END_HEADER_FIELD_1 else FAIL_INVALID_HEADER_TOKEN, false)
    ensures n == SPAN_END_HEADER_FIELD_1 ==> ShapeOf(n).Close? && Skips(n) && NextOf(n) == ON_HEADER_FIELD_COMPLETE
    ensures n == FAIL_INVALID_HEADER_TOKEN ==> ShapeOf(n).Fail? && ErrorOf(n) == HPE_INVALID_HEADER_TOKEN
  {
    hide IsNameByte;
  }

  lemma FieldComplete(d: Policy, s: Core, input: seq<byte>)
    requires s.cur == ON_HEADER_FIELD_COMPLETE && s.error == 0
    ensures Run(d, Config(s, input)) ==
      Run(d, Config(s.(cur := HEADER_VALUE_DISCARD_WS, trace := s.trace + [HeaderFieldComplete]), input))
  {
    hide Run;
    StepCall(d, s, input);
  }

  /** The end of the accepted bytes. */
  function Span(w: seq<byte>): (k: nat)
    ensures k <= |w|
    ensures forall i :: 0 <= i < k ==> IsNameByte(w[i])
    ensures k < |w| ==> !IsNameByte(w[k])
  {
    if w == [] || !IsNameByte(w[0]) then 0 else 1 + Span(w[1..])
  }

  /** A name that is none of the known ones. */
  lemma General(d: Policy, s: Core, w: seq<byte>, rest: seq<byte>)
    requires s.cur == HEADER_FIELD_GENERAL && InName(s) && s.m.headerState == 0 && COLON !in w
    ensures NameEnds(d, Config(s, Input(w, rest)), s, w, rest, 0)
  {
    assert !IsNameByte(COLON);
    hide Run, ShapeOf, Branch, NextOf, Skips, ErrorOf, IsNameByte;
    var input, n := Input(w, rest), Span(w);
    forall i | 0 <= i < n ensures Branch(s.cur, input[i]) == Turn(s.cur, true) {
      assert input[i] == w[i];
      GeneralNodes(HEADER_FIELD_GENERAL, w[i]);
    }
    GeneralNodes(HEADER_FIELD_GENERAL, COLON);
    Loop(d, s, input, n);
    var t := Gain(s, w[..n]);
    assert input[..n] == w[..n];
    var c, tail := input[n], input[n + 1..];
    assert input[n..] == [c] + tail;
    GeneralNodes(HEADER_FIELD_GENERAL, c);
    GeneralNodes(HEADER_FIELD_GENERAL_OTHERWISE, c);
    StepSwitch(d, t, c, tail);
    StepSwitch(d, t.(cur := HEADER_FIELD_GENERAL_OTHERWISE), c, tail);
    if n == |w| {
      assert c == COLON && tail == rest && w[..n] == w;
      GeneralNodes(SPAN_END_HEADER_FIELD_1, c);
      StepClose(d, t.(cur := SPAN_END_HEADER_FIELD_1), [c] + tail);
      assert ([c] + tail)[1..] == tail;
      FieldComplete(d, t.(cur := ON_HEADER_FIELD_COMPLETE, span := None), rest);
    } else {
      assert c == w[n];
      GeneralNodes(FAIL_INVALID_HEADER_TOKEN, c);
      StepFail(d, t.(cur := FAIL_INVALID_HEADER_TOKEN), [c] + tail);
    }
  }

  lemma Reset(d: Policy, s: Core, w: seq<byte>, rest: seq<byte>)
    requires s.cur == INVOKE_RESET_HEADER_STATE && InName(s) && COLON !in w
    ensures NameEnds(d, Config(s, Input(w, rest)), s, w, rest, 0)
  {
    hide Run;
    var t := s.(cur := HEADER_FIELD_GENERAL, m := s.m.(headerState := 0));
    StepInvoke(d, s, Input(w, rest));
    General(d, t, w, rest);
    GainNothing(s);
    NameGoesOn(d, Config(s, Input(w, rest)), s, HEADER_FIELD_GENERAL, 0, [], w, rest, 0);
    assert [] + w == w;
  }

  lemma ColonNodes(n: Node, c: byte)
    ensures n == HEADER_FIELD_COLON ==> ShapeOf(n).Switch?
    ensures n == HEADER_FIELD_COLON && c == SP ==> Branch(n, c) == Turn(n, true)
    ensures n == HEADER_FIELD_COLON && c == COLON ==> Branch(n, c) == Turn(SPAN_END_HEADER_FIELD, false)
    ensures n == HEADER_FIELD_COLON && c != SP && c != COLON ==> Branch(n, c) == Turn(INVOKE_RESET_HEADER_STATE, false)
    ensures n == SPAN_END_HEADER_FIELD ==> ShapeOf(n).Close? && Skips(n) && NextOf(n) == HEADER_VALUE_DISCARD_WS
  {
  }

  /** The number of spaces in front. */
  function Spaces(w: seq<byte>): (k: nat)
    ensures k <= |w|
    ensures forall i :: 0 <= i < k ==> w[i] == SP
    ensures k < |w| ==> w[k] != SP
  {
    if w == [] || w[0] != SP then 0 else 1 + Spaces(w[1..])
  }

  /** Spaces behind a known name go by. */
  lemma ColonSpaces(d: Policy, s: Core, x: seq<byte>, tail: seq<byte>)
    requires s.cur == HEADER_FIELD_COLON && InName(s) && AllSpaces(x)
    ensures Run(d, Config(s, x + tail)) == Run(d, Config(Gain(s, x), tail))
  {
    hide Run, ShapeOf, Branch;
    ColonNodes(HEADER_FIELD_COLON, SP);
    assert forall i :: 0 <= i < |x| ==> (x + tail)[i] == x[i];
    Loop(d, s, x + tail, |x|);
    assert (x + tail)[..|x|] == x && (x + tail)[|x|..] == tail;
  }

  /** Behind a known name: spaces up to the colon. */
  lemma ColonComes(d: Policy, s: Core, w: seq<byte>, rest: seq<byte>)
    requires s.cur == HEADER_FIELD_COLON && InName(s) && AllSpaces(w) && s.m.headerState != 0
    ensures NameEnds(d, Config(s, Input(w, rest)), s, w, rest, s.m.headerState)
  {
    hide Run, ShapeOf, Branch, NextOf, Skips;
    ColonSpaces(d, s, w, [COLON] + rest);
    ColonNodes(HEADER_FIELD_COLON, COLON);
    StepSwitch(d, Gain(s, w), COLON, rest);
    ColonNodes(SPAN_END_HEADER_FIELD, COLON);
    StepClose(d, Gain(s, w).(cur := SPAN_END_HEADER_FIELD), [COLON] + rest);
    assert ([COLON] + rest)[1..] == rest;
  }

  /** Behind a known name: something else, and it was another name after all. */
  lemma ColonFails(d: Policy, s: Core, x: seq<byte>, y: seq<byte>, rest: seq<byte>)
    requires s.cur == HEADER_FIELD_COLON && InName(s) && AllSpaces(x) && COLON !in y && y != [] && y[0] != SP
    ensures NameEnds(d, Config(s, Input(x + y, rest)), s, x + y, rest, 0)
  {
    hide Run, ShapeOf, Branch, NameEnds;
    var tail := Input(y, rest);
    assert Input(x + y, rest) == x + tail && tail == [y[0]] + tail[1..];
    ColonSpaces(d, s, x, tail);
    ColonNodes(HEADER_FIELD_COLON, y[0]);
    StepSwitch(d, Gain(s, x), y[0], tail[1..]);
    GainShown(s, x);
    Reset(d, Gain(s, x).(cur := INVOKE_RESET_HEADER_STATE), y, rest);
    NameGoesOn(d, Config(s, Input(x + y, rest)), s, INVOKE_RESET_HEADER_STATE, s.m.headerState, x, y, rest, 0);
  }

  lemma Colon(d: Policy, s: Core, w: seq<byte>, rest: seq<byte>)
    requires s.cur == HEADER_FIELD_COLON && InName(s) && COLON !in w && s.m.headerState != 0
    ensures NameEnds(d, Config(s, Input(w, rest)), s, w, rest, if AllSpaces(w) then s.m.headerState else 0)
  {
    hide Run, NameEnds, InName, Input;
    var n := Spaces(w);
    assert w[..n] + w[n..] == w;
    if n == |w| {
      ColonComes(d, s, w, rest);
    } else {
      assert !AllSpaces(w);
      ColonFails(d, s, w[..n], w[n..], rest);
    }
  }

  /** The nodes that match the rest of a known name. */
  predicate IsWord(n: Node) {
    HEADER_FIELD_1 <= n <= HEADER_FIELD_7 && n != HEADER_FIELD_2
  }

  predicate Letters(word: seq<byte>) {
    forall i :: 0 <= i < |word| ==> 97 <= word[i] <= 122 || word[i] == 45
  }

  lemma WordNodes(n: Node)
    requires IsWord(n)
    ensures ShapeOf(n).Match? && FoldOf(n) == ToLower && MissOf(n) == INVOKE_RESET_HEADER_STATE
  {
  }

  lemma WordLetters(n: Node)
    requires IsWord(n)
    ensures WordOf(n) != [] && Letters(WordOf(n))
  {
  }

  /** How many bytes of `w` go along with the word. */
  function Along(w: seq<byte>, word: seq<byte>): (k: nat)
    ensures k <= |w| && k <= |word|
    ensures forall i :: 0 <= i < k ==> Lower(w[i]) == word[i]
    ensures k < |w| && k < |word| ==> Lower(w[k]) != word[k]
  {
    if w == [] || word == [] || Lower(w[0]) != word[0] then 0 else 1 + Along(w[1..], word[1..])
  }

  /** A word that is there leads on. */
  lemma WordWhole(d: Policy, s: Core, x: seq<byte>, y: seq<byte>, rest: seq<byte>)
    requires IsWord(s.cur) && InName(s) && |x| == |WordOf(s.cur)| && BeginsWith(x, WordOf(s.cur))
    ensures Run(d, Config(s, Input(x + y, rest))) == Run(d, Config(Gain(s, x).(cur := NextOf(s.cur)), Input(y, rest)))
  {
    hide Run, ShapeOf, WordOf, FoldOf, NextOf, MissOf;
    WordNodes(s.cur);
    WordLetters(s.cur);
    assert Input(x + y, rest) == x + Input(y, rest);
    Spell(d, s, x, Input(y, rest));
  }

  /** A word that is not leads to the general names, at the byte where it broke off. */
  lemma WordBreaks(d: Policy, s: Core, x: seq<byte>, y: seq<byte>, rest: seq<byte>)
    requires IsWord(s.cur) && InName(s) && |x| < |WordOf(s.cur)| && COLON !in y
    requires forall i :: 0 <= i < |x| ==> Lower(x[i]) == WordOf(s.cur)[i]
    requires y != [] ==> Lower(y[0]) != WordOf(s.cur)[|x|]
    ensures NameEnds(d, Config(s, Input(x + y, rest)), s, x + y, rest, 0)
  {
    hide Run, ShapeOf, WordOf, FoldOf, NextOf, MissOf, IsNameByte, NameEnds;
    WordNodes(s.cur);
    WordLetters(s.cur);
    var t, u := Gain(s, x).(index := |x|), Gain(s, x).(cur := INVOKE_RESET_HEADER_STATE);
    var tail := Input(y, rest);
    assert Input(x + y, rest) == x + tail;
    Spell(d, s, x, tail);
    assert tail[0] == if y == [] then COLON else y[0];
    StepMiss(d, t, tail);
    GainShown(s, x);
    Reset(d, u, y, rest);
    LettersAreNameBytes(x, WordOf(s.cur));
    NameGoesOn(d, Config(s, Input(x + y, rest)), s, INVOKE_RESET_HEADER_STATE, s.m.headerState, x, y, rest, 0);
  }

  lemma StepMiss(d: Policy, t: Core, tail: seq<byte>)
    requires IsWord(t.cur) && t.error == 0 && t.index < |WordOf(t.cur)| && tail != []
    requires Lower(tail[0]) != WordOf(t.cur)[t.index]
    ensures Run(d, Config(t, tail)) == Run(d, Config(t.(index := 0, cur := INVOKE_RESET_HEADER_STATE), tail))
  {
    hide Run, ShapeOf, WordOf, FoldOf, MissOf;
    WordNodes(t.cur);
    MatchBreaks(d, t, tail);
  }

  /** The word at hand decides whether the name goes on or is a general one. */
  lemma Word(d: Policy, s: Core, w: seq<byte>, rest: seq<byte>)
    requires IsWord(s.cur) && InName(s) && COLON !in w
    ensures var word, k := WordOf(s.cur), Config(s, Input(w, rest));
      if BeginsWith(w, word) then
        Run(d, k) == Run(d, Config(Gain(s, w[..|word|]).(cur := NextOf(s.cur)), Input(w[|word|..], rest)))
      else NameEnds(d, k, s, w, rest, 0)
  {
    hide Run, WordOf, NextOf, NameEnds, InName, Input;
    var word := WordOf(s.cur);
    var n := Along(w, word);
    var x, y := w[..n], w[n..];
    assert w == x + y;
    if n == |word| {
      WordWhole(d, s, x, y, rest);
    } else {
      WordBreaks(d, s, x, y, rest);
    }
  }

  lemma LettersAreNameBytes(x: seq<byte>, word: seq<byte>)
    requires Letters(word) && |x| <= |word| && forall i :: 0 <= i < |x| ==> Lower(x[i]) == word[i]
    ensures AllNameBytes(x)
  {
  }

  /** A word, then a known name's end. */
  lemma LastWord(d: Policy, s: Core, w: seq<byte>, rest: seq<byte>, code: nat)
    requires IsWord(s.cur) && InName(s) && COLON !in w && code > 0
    requires ShapeOf(NextOf(s.cur)).Invoke?
    requires forall m ::
      Goto(NextOf(s.cur), m) == HEADER_FIELD_COLON && Update(NextOf(s.cur), m) == m.(headerState := code)
    ensures NameEnds(d, Config(s, Input(w, rest)), s, w, rest, if Names(w, WordOf(s.cur)) then code else 0)
  {
    hide Run, ShapeOf, WordOf, NextOf, Goto, Update, IsNameByte;
    var word := WordOf(s.cur);
    Word(d, s, w, rest);
    if BeginsWith(w, word) {
      var x, y := w[..|word|], w[|word|..];
      var t := Gain(s, x).(cur := NextOf(s.cur));
      var u := Gain(s, x).(cur := HEADER_FIELD_COLON, m := s.m.(headerState := code));
      StepInvoke(d, t, Input(y, rest));
      GainShown(s, x);
      Colon(d, u, y, rest);
      WordLetters(s.cur);
      LettersAreNameBytes(x, word);
      NameGoesOn(d, Config(s, Input(w, rest)), s, HEADER_FIELD_COLON, code, x, y, rest, if AllSpaces(y) then code else 0);
      assert x + y == w;
    }
  }

  /** A name made of two words. */
  lemma NamesPlus(w: seq<byte>, a: seq<byte>, b: seq<byte>)
    ensures Names(w, a + b) <==> BeginsWith(w, a) && Names(w[|a|..], b)
  {
    if BeginsWith(w, a) {
      var y := w[|a|..];
      if BeginsWith(y, b) {
        assert BeginsWith(w, a + b) by {
          forall i | 0 <= i < |a + b| ensures Lower(w[i]) == (a + b)[i] {
            if i >= |a| { assert Lower(y[i - |a|]) == b[i - |a|]; }
          }
        }
      }
      if BeginsWith(w, a + b) {
        forall i | 0 <= i < |b| ensures Lower(y[i]) == b[i] { assert Lower(w[|a| + i]) == (a + b)[|a| + i]; }
      }
      if |a + b| <= |w| { assert w[|a + b|..] == y[|b|..]; }
    } else if BeginsWith(w, a + b) {
      forall i | 0 <= i < |a| ensures Lower(w[i]) == a[i] { assert Lower(w[i]) == (a + b)[i]; }
    }
  }

  lemma NamesCons(w: seq<byte>, c: byte, b: seq<byte>)
    ensures Names(w, [c] + b) <==> w != [] && Lower(w[0]) == c && Names(w[1..], b)
  {
    NamesPlus(w, [c], b);
  }

  /** Where the first letter of a name leads, once in lower case. */
  function FirstTurn(l: byte): Turn {
    match l
    case 99 => Turn(HEADER_FIELD_1, true)
    case 112 => Turn(HEADER_FIELD_5, true)
    case 116 => Turn(HEADER_FIELD_6, true)
    case 117 => Turn(HEADER_FIELD_7, true)
    case _ => Turn(INVOKE_RESET_HEADER_STATE, false)
  }

  /** Where the letter behind "con" leads. */
  function FourthTurn(l: byte): Turn {
    match l
    case 110 => Turn(HEADER_FIELD_3, true)
    case 116 => Turn(HEADER_FIELD_4, true)
    case _ => Turn(INVOKE_RESET_HEADER_STATE, false)
  }

  lemma FieldNodes(n: Node, c: byte)
    ensures n == HEADER_FIELD || n == HEADER_FIELD_2 ==> ShapeOf(n).Switch?
    ensures n == HEADER_FIELD ==> Branch(n, c) == FirstTurn(Lower(c))
    ensures n == HEADER_FIELD_2 ==> Branch(n, c) == FourthTurn(Lower(c))
    ensures n == HEADER_FIELD_1 ==> NextOf(n) == HEADER_FIELD_2
  {
  }

  lemma WordStores(n: Node, m: Fields)
    requires IsWord(n) && n != HEADER_FIELD_1
    ensures ShapeOf(NextOf(n)).Invoke? && Goto(NextOf(n), m) == HEADER_FIELD_COLON
    ensures Update(NextOf(n), m) == m.(headerState :=
      match n { case HEADER_FIELD_4 => 2 case HEADER_FIELD_6 => 3 case HEADER_FIELD_7 => 4 case _ => 1 })
  {
  }

  /** One letter, then the last word of a known name. */
  lemma LetterAndWord(d: Policy, s: Core, n: Node, w: seq<byte>, rest: seq<byte>, code: nat)
    requires InName(s) && ShapeOf(s.cur).Switch? && w != [] && COLON !in w
    requires Branch(s.cur, w[0]) == Turn(n, true) && IsWord(n) && n != HEADER_FIELD_1 && 97 <= Lower(w[0]) <= 122
    requires code == match n { case HEADER_FIELD_4 => 2 case HEADER_FIELD_6 => 3 case HEADER_FIELD_7 => 4 case _ => 1 }
    ensures NameEnds(d, Config(s, Input(w, rest)), s, w, rest, if Names(w, [Lower(w[0])] + WordOf(n)) then code else 0)
  {
    hide Run, ShapeOf, Branch, WordOf, NextOf, Goto, Update, NameEnds, Names, EndsWithPiece;
    var x, y, t := [w[0]], w[1..], Gain(s, [w[0]]).(cur := n);
    assert x + y == w && Input(w, rest) == x + Input(y, rest);
    NamesCons(w, Lower(w[0]), WordOf(n));
    StepSwitch(d, s, w[0], Input(y, rest));
    GainShown(s, x);
    WordStores(n, s.m);
    forall m ensures Goto(NextOf(n), m) == HEADER_FIELD_COLON && Update(NextOf(n), m) == m.(headerState := code) {
      WordStores(n, m);
    }
    LastWord(d, t, y, rest, code);
    LettersAreNameBytes(x, [Lower(w[0])]);
    NameGoesOn(d, Config(s, Input(w, rest)), s, n, s.m.headerState, x, y, rest, if Names(y, WordOf(n)) then code else 0);
  }

  /** A letter that begins no known name. */
  lemma OtherLetter(d: Policy, s: Core, w: seq<byte>, rest: seq<byte>)
    requires InName(s) && ShapeOf(s.cur).Switch? && COLON !in w
    requires Branch(s.cur, if w == [] then COLON else w[0]) == Turn(INVOKE_RESET_HEADER_STATE, false)
    ensures NameEnds(d, Config(s, Input(w, rest)), s, w, rest, 0)
  {
    hide Run, ShapeOf, Branch, NameEnds;
    var c := if w == [] then COLON else w[0];
    var tail := Input(w, rest)[1..];
    assert Input(w, rest) == [c] + tail;
    StepSwitch(d, s, c, tail);
    Reset(d, s.(cur := INVOKE_RESET_HEADER_STATE), w, rest);
    GainNothing(s);
    NameGoesOn(d, Config(s, Input(w, rest)), s, INVOKE_RESET_HEADER_STATE, s.m.headerState, [], w, rest, 0);
    assert [] + w == w;
  }

  function ConCode(w: seq<byte>): nat {
    if Names(w, [110] + W_ECTION) then 1 else if Names(w, [116] + W_ENT_LENGTH) then 2 else 0
  }

  /** Behind "con". */
  lemma AfterCon(d: Policy, s: Core, w: seq<byte>, rest: seq<byte>)
    requires s.cur == HEADER_FIELD_2 && InName(s) && COLON !in w
    ensures NameEnds(d, Config(s, Input(w, rest)), s, w, rest, ConCode(w))
  {
    hide Run, ShapeOf, Branch, NameEnds, Names, InName, Input;
    NamesCons(w, 110, W_ECTION);
    NamesCons(w, 116, W_ENT_LENGTH);
    FieldNodes(HEADER_FIELD_2, if w == [] then COLON else w[0]);
    if w != [] && Lower(w[0]) == 110 {
      LetterAndWord(d, s, HEADER_FIELD_3, w, rest, 1);
    } else if w != [] && Lower(w[0]) == 116 {
      LetterAndWord(d, s, HEADER_FIELD_4, w, rest, 2);
    } else {
      OtherLetter(d, s, w, rest);
    }
  }

  function CCode(w: seq<byte>): nat {
    if Names(w, W_ON + ([110] + W_ECTION)) then 1 else if Names(w, W_ON + ([116] + W_ENT_LENGTH)) then 2 else 0
  }

  /** Behind "c". */
  lemma AfterC(d: Policy, s: Core, w: seq<byte>, rest: seq<byte>)
    requires s.cur == HEADER_FIELD_1 && InName(s) && COLON !in w
    ensures NameEnds(d, Config(s, Input(w, rest)), s, w, rest, CCode(w))
  {
    NamesPlus(w, W_ON, [110] + W_ECTION);
    NamesPlus(w, W_ON, [116] + W_ENT_LENGTH);
    assert WordOf(HEADER_FIELD_1) == W_ON;
    hide Run, ShapeOf, WordOf, NextOf, NameEnds, Names, Input;
    Word(d, s, w, rest);
    if BeginsWith(w, W_ON) {
      var x, y := w[..2], w[2..];
      FieldNodes(HEADER_FIELD_1, 0);
      GainShown(s, x);
      AfterCon(d, Gain(s, x).(cur := HEADER_FIELD_2), y, rest);
      LettersAreNameBytes(x, W_ON);
      NameGoesOn(d, Config(s, Input(w, rest)), s, HEADER_FIELD_2, s.m.headerState, x, y, rest, ConCode(y));
      assert x + y == w;
    }
  }

  lemma CodeByLetter(w: seq<byte>)
    ensures NameCode(w) ==
      if w == [] then 0
      else if Lower(w[0]) == 99 then CCode(w[1..])
      else if Lower(w[0]) == 112 then (if Names(w, PROXY_CONNECTION) then 1 else 0)
      else if Lower(w[0]) == 116 then (if Names(w, TRANSFER_ENCODING) then 3 else 0)
      else if Lower(w[0]) == 117 then (if Names(w, UPGRADE) then 4 else 0)
      else 0
  {
    hide Names;
    NamesCons(w, 99, W_ON + ([110] + W_ECTION));
    NamesCons(w, 99, W_ON + ([116] + W_ENT_LENGTH));
    NamesCons(w, 112, W_ROXY_CONNECTION);
    NamesCons(w, 116, W_RANSFER_ENCODING);
    NamesCons(w, 117, W_PGRADE);
    assert CONNECTION == [99] + (W_ON + ([110] + W_ECTION));
    assert CONTENT_LENGTH == [99] + (W_ON + ([116] + W_ENT_LENGTH));
  }

  /** The bytes of a name, from its first. */
  lemma Name(d: Policy, s: Core, w: seq<byte>, rest: seq<byte>)
    requires s.cur == HEADER_FIELD && InName(s) && COLON !in w
    ensures NameEnds(d, Config(s, Input(w, rest)), s, w, rest, NameCode(w))
  {
    hide Run, ShapeOf, Branch, NameEnds, Names, Input, NameCode, CCode;
    CodeByLetter(w);
    FieldNodes(HEADER_FIELD, if w == [] then COLON else w[0]);
    if w == [] {
      OtherLetter(d, s, w, rest);
    } else if Lower(w[0]) == 99 {
      LetterC(d, s, w, rest);
    } else if Lower(w[0]) == 112 {
      LetterAndWord(d, s, HEADER_FIELD_5, w, rest, 1);
    } else if Lower(w[0]) == 116 {
      LetterAndWord(d, s, HEADER_FIELD_6, w, rest, 3);
    } else if Lower(w[0]) == 117 {
      LetterAndWord(d, s, HEADER_FIELD_7, w, rest, 4);
    } else {
      OtherLetter(d, s, w, rest);
    }
  }

  lemma LetterC(d: Policy, s: Core, w: seq<byte>, rest: seq<byte>)
    requires s.cur == HEADER_FIELD && InName(s) && COLON !in w && w != [] && Lower(w[0]) == 99
    ensures NameEnds(d, Config(s, Input(w, rest)), s, w, rest, CCode(w[1..]))
  {
    hide Run, ShapeOf, Branch, NameEnds, Names, CCode;
    var x, y := [w[0]], w[1..];
    assert x + y == w && Input(w, rest) == x + Input(y, rest);
    FieldNodes(HEADER_FIELD, w[0]);
    StepSwitch(d, s, w[0], Input(y, rest));
    GainShown(s, x);
    AfterC(d, Gain(s, x).(cur := HEADER_FIELD_1), y, rest);
    LettersAreNameBytes(x, [99]);
    NameGoesOn(d, Config(s, Input(w, rest)), s, HEADER_FIELD_1, s.m.headerState, x, y, rest, CCode(y));
  }

  /** Where a header field is read up to its colon. */
  function Named(s: Core, name: seq<byte>): Core {
    var t := s.(cur := HEADER_VALUE_DISCARD_WS, trace := Add(s.trace, Piece(OnHeaderField, name)),
                m := s.m.(headerState := NameCode(name)));
    if NameCode(name) == 0 then t.(trace := t.trace + [HeaderFieldComplete]) else t
  }

  lemma NamedIsAfter(s: Core, name: seq<byte>)
    requires s.span == None
    ensures AfterName(Gain(s.(span := Some(OnHeaderField)), []).(cur := HEADER_FIELD), name, NameCode(name)) == Named(s, name)
  {
    hide NameCode, Add;
    AddPieces(s.trace, OnHeaderField, [], name);
    assert [] + name == name;
  }

  lemma StartNodes(c: byte)
    requires c != CR && c != LF
    ensures ShapeOf(HEADER_FIELD_START).Switch? && Branch(HEADER_FIELD_START, c) == Turn(SPAN_START_HEADER_FIELD, false)
    ensures var n := SPAN_START_HEADER_FIELD; ShapeOf(n).Open? && KindOf(n) == OnHeaderField && NextOf(n) == HEADER_FIELD
  {
  }

  /**
   A field name up to its first colon: it is accepted exactly when all its bytes are token
   characters or spaces, and then header_state tells which of the known headers it is, if any.
   */
  lemma FieldName(d: Policy, s: Core, name: seq<byte>, rest: seq<byte>)
    requires s.cur == HEADER_FIELD_START && s.error == 0 && s.span == None && s.index == 0
    requires COLON !in name && (name != [] ==> name[0] != CR && name[0] != LF)
    ensures var r := Run(d, Config(s, name + [COLON] + rest));
      if AllNameBytes(name) then r == Run(d, Config(Named(s, name), rest)) else r.s.error == HPE_INVALID_HEADER_TOKEN
  {
    hide Run, ShapeOf, Branch, KindOf, NextOf, NameCode, AllNameBytes, AfterName, Named;
    var c, input := if name == [] then COLON else name[0], name + [COLON] + rest;
    assert input == [c] + input[1..] == Input(name, rest);
    StartNodes(c);
    StepSwitch(d, s, c, input[1..]);
    StepOpen(d, s.(cur := SPAN_START_HEADER_FIELD), input);
    var t := Gain(s.(span := Some(OnHeaderField)), []).(cur := HEADER_FIELD);
    GainShown(s.(span := Some(OnHeaderField)), []);
    Name(d, t, name, rest);
    NamedIsAfter(s, name);
  }
}
