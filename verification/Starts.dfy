/** The first bytes of a message: what is stepped over, and which type a parser of both types takes them for. */
module Starts {
  import opened Bytes
  import opened Graph
  import opened Machine
  import opened Strides
  import opened Walk
  import StatusLine

  predicate IsLineEnd(c: byte) {
    c == CR || c == LF
  }

  lemma StartNodes(n: Node, m: Fields, c: byte)
    ensures n == START ==> ShapeOf(n).Switch?
    ensures n == START ==> Branch(n, c) == if IsLineEnd(c) then Turn(START, true) else Turn(INVOKE_UPDATE_FINISH, false)
    ensures n == INVOKE_UPDATE_FINISH ==> ShapeOf(n).Invoke? && Goto(n, m) == ON_MESSAGE_BEGIN && Update(n, m) == m.(finish := FINISH_UNSAFE)
    ensures n == ON_MESSAGE_BEGIN ==> ShapeOf(n).Call? && Route(n, 0) == INVOKE_LOAD_TYPE && EventOf(n, m) == MessageBegin
    ensures n == INVOKE_LOAD_TYPE ==> ShapeOf(n).Invoke? && Update(n, m) == m
    ensures n == INVOKE_LOAD_TYPE ==>
      Goto(n, m) == if m.typ == HTTP_REQUEST then START_REQ else if m.typ == HTTP_RESPONSE then START_RES else START_REQ_OR_RES
  {
    hide BodyDecision, OrHeaderFlag, UpgradeDecision;
  }

  /** Line ends in front of a message are stepped over, and nothing is reported. */
  lemma BlankLines(d: Policy, s: Core, w: seq<byte>, rest: seq<byte>)
    requires s.cur == START && s.error == 0 && s.span == None && forall i :: 0 <= i < |w| ==> IsLineEnd(w[i])
    ensures Run(d, Config(s, w + rest)) == Run(d, Config(s, rest))
  {
    hide Run, ShapeOf, Branch, IsLineEnd;
    StartNodes(START, s.m, CR);
    forall i | 0 <= i < |w| ensures Branch(START, w[i]) == Turn(START, true) { StartNodes(START, s.m, w[i]); }
    LoopAll(d, s, w, rest);
  }

  /** A message has begun, and its type is looked at. */
  function Begun(s: Core): Core {
    s.(trace := s.trace + [MessageBegin], m := s.m.(finish := FINISH_UNSAFE))
  }

  /** Any other byte begins a message. */
  lemma Begins(d: Policy, s: Core, c: byte, rest: seq<byte>)
    requires s.cur == START && s.error == 0 && s.span == None && !IsLineEnd(c) && Accepts(d)
    ensures Run(d, Config(s, [c] + rest)) == Run(d, Config(Begun(s).(cur :=
      if s.m.typ == HTTP_REQUEST then START_REQ else if s.m.typ == HTTP_RESPONSE then START_RES else START_REQ_OR_RES), [c] + rest))
  {
    hide Run, ShapeOf, Branch, Goto, Update, Route, EventOf;
    var t := Begun(s);
    StartNodes(START, t.m, c);
    StartNodes(INVOKE_UPDATE_FINISH, s.m, c);
    StartNodes(ON_MESSAGE_BEGIN, t.m, c);
    StartNodes(INVOKE_LOAD_TYPE, t.m, c);
    StepSwitch(d, s, c, rest);
    StepInvoke(d, s.(cur := INVOKE_UPDATE_FINISH), [c] + rest);
    StepCall(d, s.(cur := ON_MESSAGE_BEGIN, m := t.m), [c] + rest);
    StepInvoke(d, t.(cur := INVOKE_LOAD_TYPE), [c] + rest);
  }

  lemma Parked(d: Policy, k: Config)
    requires k.s.cur == START_REQ || k.s.cur == REQ_FIRST_SPACE_BEFORE_URL
    ensures Run(d, k) == k
  {
  }

  /** A parser of requests waits for the request line. */
  lemma RequestBegins(d: Policy, s: Core, c: byte, rest: seq<byte>)
    requires s.cur == START && s.error == 0 && s.span == None && s.m.typ == HTTP_REQUEST && !IsLineEnd(c) && Accepts(d)
    ensures Run(d, Config(s, [c] + rest)) == Config(Begun(s).(cur := START_REQ), [c] + rest)
  {
    hide Run, IsLineEnd;
    Begins(d, s, c, rest);
    Parked(d, Config(Begun(s).(cur := START_REQ), [c] + rest));
  }

  lemma GuessNodes(n: Node, m: Fields, c: byte)
    ensures n == START_REQ_OR_RES || n == REQ_OR_RES_METHOD || n == REQ_OR_RES_METHOD_1 ==> ShapeOf(n).Switch?
    ensures n == START_REQ_OR_RES ==> Branch(n, c) == if c == 72 then Turn(REQ_OR_RES_METHOD, false) else Turn(INVOKE_TYPE_REQUEST, false)
    ensures n == REQ_OR_RES_METHOD ==> Branch(n, c) == if c == 72 then Turn(REQ_OR_RES_METHOD_1, true) else Turn(FAIL_INVALID_CONSTANT, false)
    ensures n == REQ_OR_RES_METHOD_1 && c == 69 ==> Branch(n, c) == Turn(REQ_OR_RES_METHOD_2, true)
    ensures n == REQ_OR_RES_METHOD_1 && c == 84 ==> Branch(n, c) == Turn(REQ_OR_RES_METHOD_3, true)
    ensures n == REQ_OR_RES_METHOD_1 && c != 69 && c != 84 ==> Branch(n, c) == Turn(FAIL_INVALID_CONSTANT, false)
    ensures n == INVOKE_TYPE_REQUEST ==> ShapeOf(n).Invoke? && Goto(n, m) == START_REQ && Update(n, m) == m.(typ := HTTP_REQUEST)
    ensures n == INVOKE_STORE_HEAD ==>
      ShapeOf(n).Invoke? && Goto(n, m) == REQ_FIRST_SPACE_BEFORE_URL && Update(n, m) == m.(verb := HTTP_HEAD, typ := HTTP_REQUEST)
    ensures n == INVOKE_TYPE_RESPONSE ==> ShapeOf(n).Invoke? && Goto(n, m) == RES_HTTP_MAJOR && Update(n, m) == m.(typ := HTTP_RESPONSE)
    ensures n == FAIL_INVALID_CONSTANT ==> ShapeOf(n).Fail? && ErrorOf(n) == HPE_INVALID_CONSTANT
  {
    hide BodyDecision, OrHeaderFlag, UpgradeDecision;
  }

  lemma WordNodes(n: Node)
    ensures n == REQ_OR_RES_METHOD_2 ==> ShapeOf(n).Match? && WordOf(n) == W_AD && FoldOf(n) == Exact
    ensures n == REQ_OR_RES_METHOD_2 ==> NextOf(n) == INVOKE_STORE_HEAD && MissOf(n) == FAIL_INVALID_CONSTANT
    ensures n == REQ_OR_RES_METHOD_3 ==> ShapeOf(n).Match? && WordOf(n) == W_TP && FoldOf(n) == Exact
    ensures n == REQ_OR_RES_METHOD_3 ==> NextOf(n) == INVOKE_TYPE_RESPONSE && MissOf(n) == FAIL_INVALID_CONSTANT
  {
  }

  /** A parser of both types takes a message whose first byte is no H for a request. */
  lemma GuessesRequest(d: Policy, s: Core, c: byte, rest: seq<byte>)
    requires s.cur == START && s.error == 0 && s.span == None && s.m.typ == HTTP_BOTH && !IsLineEnd(c) && c != 72 && Accepts(d)
    ensures Run(d, Config(s, [c] + rest)) ==
      Config(Begun(s).(cur := START_REQ, m := s.m.(finish := FINISH_UNSAFE, typ := HTTP_REQUEST)), [c] + rest)
  {
    hide Run, ShapeOf, Branch, Goto, Update, IsLineEnd;
    var t := Begun(s);
    Begins(d, s, c, rest);
    GuessNodes(START_REQ_OR_RES, t.m, c);
    GuessNodes(INVOKE_TYPE_REQUEST, t.m, c);
    StepSwitch(d, t.(cur := START_REQ_OR_RES), c, rest);
    StepInvoke(d, t.(cur := INVOKE_TYPE_REQUEST), [c] + rest);
    Parked(d, Config(t.(cur := START_REQ, m := t.m.(typ := HTTP_REQUEST)), [c] + rest));
  }

  /** The two words that may begin with H. */
  const W_HEAD: seq<byte> := [72, 69] + W_AD

  /** From a word node: the word is whole, begun, or broken. */
  lemma WordGuessed(d: Policy, s: Core, x: seq<byte>)
    requires (s.cur == REQ_OR_RES_METHOD_2 || s.cur == REQ_OR_RES_METHOD_3) && s.error == 0 && s.span == None && s.index == 0
    ensures var word := WordOf(s.cur);
      if word <= x then Run(d, Config(s, x)) == Run(d, Config(s.(cur := NextOf(s.cur)), x[|word|..]))
      else if x <= word then Run(d, Config(s, x)) == Config(s.(index := |x|), [])
      else Run(d, Config(s, x)).s.error == HPE_INVALID_CONSTANT
  {
    hide Run, ShapeOf, WordOf, FoldOf, NextOf, MissOf, ErrorOf;
    WordNodes(s.cur);
    var word := WordOf(s.cur);
    var k := StatusLine.Common(x, word);
    var u, y := x[..k], x[k..];
    assert x == u + y;
    forall i | 0 <= i < |u| ensures u[i] == word[i] { assert word[..k][i] == word[i]; }
    Spell(d, s, u, y);
    if k == |word| {
      assert word == word[..k] && word <= x;
    } else if k == |x| {
      assert x == x[..k] && x <= word && !(word <= x) && y == [];
      Waiting(d, s.(index := k));
    } else {
      assert x[k] != word[k] && !(word <= x) && !(x <= word);
      assert y[0] == x[k];
      MatchBreaks(d, s.(index := k), y);
      GuessNodes(FAIL_INVALID_CONSTANT, s.m, 0);
      StepFail(d, s.(cur := FAIL_INVALID_CONSTANT), y);
    }
  }

  lemma Waiting(d: Policy, s: Core)
    requires (ShapeOf(s.cur).Match? || ShapeOf(s.cur).Switch?) && s.error == 0
    ensures Run(d, Config(s, [])) == Config(s, [])
  {
  }

  /** A byte behind the first H. */
  lemma SecondByte(d: Policy, s: Core, x: seq<byte>)
    requires s.cur == START_REQ_OR_RES && s.error == 0 && s.span == None
    ensures var r := Run(d, Config(s, [72] + x));
      if x == [] then r == Config(s.(cur := REQ_OR_RES_METHOD_1), [])
      else if x[0] == 69 then r == Run(d, Config(s.(cur := REQ_OR_RES_METHOD_2), x[1..]))
      else if x[0] == 84 then r == Run(d, Config(s.(cur := REQ_OR_RES_METHOD_3), x[1..]))
      else r.s.error == HPE_INVALID_CONSTANT
  {
    hide Run, ShapeOf, Branch, ErrorOf;
    GuessNodes(START_REQ_OR_RES, s.m, 72);
    GuessNodes(REQ_OR_RES_METHOD, s.m, 72);
    GuessNodes(REQ_OR_RES_METHOD_1, s.m, if x == [] then 0 else x[0]);
    GuessNodes(FAIL_INVALID_CONSTANT, s.m, 0);
    StepSwitch(d, s, 72, x);
    StepSwitch(d, s.(cur := REQ_OR_RES_METHOD), 72, x);
    if x == [] {
      Waiting(d, s.(cur := REQ_OR_RES_METHOD_1));
    } else {
      assert x == [x[0]] + x[1..];
      StepSwitch(d, s.(cur := REQ_OR_RES_METHOD_1), x[0], x[1..]);
      if x[0] != 69 && x[0] != 84 { StepFail(d, s.(cur := FAIL_INVALID_CONSTANT), x); }
    }
  }

  /**
   A parser of both types and a first byte H: HTTP/ makes it a parser of responses, behind these
   letters; HEAD makes it a parser of requests, with that method; the beginning of one of the two is
   waited for; and any other word is refused.
   */
  lemma GuessesWord(d: Policy, s: Core, w: seq<byte>)
    requires s.cur == START && s.error == 0 && s.span == None && s.index == 0 && s.m.typ == HTTP_BOTH && Accepts(d)
    requires w != [] && w[0] == 72
    ensures var r, t := Run(d, Config(s, w)), Begun(s);
      if W_HTTP <= w then r == Run(d, Config(t.(cur := RES_HTTP_MAJOR, m := t.m.(typ := HTTP_RESPONSE)), w[5..]))
      else if W_HEAD <= w then
        r == Config(t.(cur := REQ_FIRST_SPACE_BEFORE_URL, m := t.m.(typ := HTTP_REQUEST, verb := HTTP_HEAD)), w[4..])
      else if w <= W_HTTP || w <= W_HEAD then r.s.error == 0 && r.input == [] && r.s.trace == t.trace
      else r.s.error == HPE_INVALID_CONSTANT
  {
    hide Run, ShapeOf, WordOf, FoldOf, NextOf, MissOf, Goto, Update;
    var t, x := Begun(s), w[1..];
    assert w == [72] + x;
    Begins(d, s, 72, x);
    SecondByte(d, t.(cur := START_REQ_OR_RES), x);
    if x == [] {
      assert w == W_HTTP[..1] && !(W_HTTP <= w) && !(W_HEAD <= w);
      return;
    }
    var y := x[1..];
    assert w == [72, x[0]] + y && W_HTTP == [72, 84] + W_TP && W_HEAD == [72, 69] + W_AD;
    if x[0] == 69 {
      WordNodes(REQ_OR_RES_METHOD_2);
      WordGuessed(d, t.(cur := REQ_OR_RES_METHOD_2), y);
      PrefixBehind([72, 69], W_AD, y);
      assert w[1] != W_HTTP[1];
      if W_AD <= y {
        GuessNodes(INVOKE_STORE_HEAD, t.m, 0);
        StepInvoke(d, t.(cur := INVOKE_STORE_HEAD), y[2..]);
        assert y[2..] == w[4..];
        Parked(d, Config(t.(cur := REQ_FIRST_SPACE_BEFORE_URL, m := t.m.(typ := HTTP_REQUEST, verb := HTTP_HEAD)), w[4..]));
      }
    } else if x[0] == 84 {
      WordNodes(REQ_OR_RES_METHOD_3);
      WordGuessed(d, t.(cur := REQ_OR_RES_METHOD_3), y);
      PrefixBehind([72, 84], W_TP, y);
      assert w[1] != W_HEAD[1];
      if W_TP <= y {
        GuessNodes(INVOKE_TYPE_RESPONSE, t.m, 0);
        StepInvoke(d, t.(cur := INVOKE_TYPE_RESPONSE), y[3..]);
        assert y[3..] == w[5..];
      }
    } else {
      assert w[1] != W_HTTP[1] && w[1] != W_HEAD[1];
    }
  }

  lemma PrefixBehind(a: seq<byte>, word: seq<byte>, y: seq<byte>)
    ensures a + word <= a + y <==> word <= y
    ensures a + y <= a + word <==> y <= word
  {
    assert (a + word)[|a|..] == word && (a + y)[|a|..] == y;
    if a + word <= a + y {
      assert word == (a + y)[|a|..|a| + |word|];
    }
    if a + y <= a + word {
      assert y == (a + word)[|a|..|a| + |y|];
    }
  }

  /** HTTP/ leads a parser of both types where it leads a parser of responses. */
  lemma ReadsResponse(d: Policy, s: Core, rest: seq<byte>)
    requires s.cur == START && s.error == 0 && s.span == None && s.index == 0 && s.m.typ == HTTP_BOTH && Accepts(d)
    ensures Run(d, Config(s, W_HTTP + rest)) == Run(d, Config(s.(m := s.m.(typ := HTTP_RESPONSE)), W_HTTP + rest))
  {
    hide Run;
    var t := s.(m := s.m.(typ := HTTP_RESPONSE));
    GuessesWord(d, s, W_HTTP + rest);
    assert (W_HTTP + rest)[5..] == rest;
    assert W_HTTP + rest == [72] + (W_HTTP[1..] + rest);
    Begins(d, t, 72, W_HTTP[1..] + rest);
    StatusLine.Protocol(d, Begun(t).(cur := START_RES), W_HTTP, rest);
  }

  /** A first byte that is no H leads it where it leads a parser of requests. */
  lemma ReadsRequest(d: Policy, s: Core, c: byte, rest: seq<byte>)
    requires s.cur == START && s.error == 0 && s.span == None && s.m.typ == HTTP_BOTH && !IsLineEnd(c) && c != 72 && Accepts(d)
    ensures Run(d, Config(s, [c] + rest)) == Run(d, Config(s.(m := s.m.(typ := HTTP_REQUEST)), [c] + rest))
  {
    hide Run, IsLineEnd;
    GuessesRequest(d, s, c, rest);
    RequestBegins(d, s.(m := s.m.(typ := HTTP_REQUEST)), c, rest);
  }
}
