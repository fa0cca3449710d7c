/** A Transfer-Encoding line, section 3.3.1 of RFC 7230: when the last coding is chunked. */
module TransferEncoding {
  import opened Bytes
  import opened Graph
  import opened Machine
  import opened Strides
  import opened Walk
  import opened HeaderNames
  import opened HeaderValues

  /** One or more words "chunked", whatever the case, each with any number of spaces behind it. */
  predicate IsChunked(w: seq<byte>)
    decreases |w|
  {
    && BeginsWith(w, W_CHUNKED)
    && var r := w[|W_CHUNKED|..];
       var y := r[Spaces(r)..];
       y == [] || IsChunked(y)
  }

  /** The last element of the value, without the blanks in front of it. */
  function LastElement(w: seq<byte>): seq<byte> {
    var es := Elements(w);
    TrimLeft(es[|es| - 1])
  }

  /** The element at hand has no blanks in front: the ones there were have been stepped over. */
  predicate AtElement(w: seq<byte>) {
    w != [] ==> !IsBlank(w[0])
  }

  lemma ElementsAfterComma(w: seq<byte>, k: nat)
    requires k < |w| && w[k] == COMMA && COMMA !in w[..k]
    ensures LastElement(w) == LastElement(w[k + 1..])
  {
    CommaIsFirst(w, k);
  }

  lemma CommaIsFirst(w: seq<byte>, k: nat)
    requires k <= |w| && COMMA !in w[..k] && (k < |w| ==> w[k] == COMMA)
    ensures Comma(w) == k
  {
  }

  /** Without a comma there is one element. */
  lemma OneElement(w: seq<byte>)
    requires COMMA !in w && AtElement(w)
    ensures LastElement(w) == w
  {
    assert w[..|w|] == w;
    CommaIsFirst(w, |w|);
  }

  /** The elements behind a prefix without a comma: the last one is the same, if there is a comma at all. */
  lemma PrefixKeepsLast(x: seq<byte>, y: seq<byte>)
    requires COMMA !in x && COMMA in y
    ensures LastElement(x + y) == LastElement(y)
  {
    hide Elements, TrimLeft, LastElement, Blanks;
    var k := Comma(y);
    assert y[..|y|] == y;
    assert (x + y)[..|x| + k] == x + y[..k];
    ElementsAfterComma(x + y, |x| + k);
    ElementsAfterComma(y, k);
    assert (x + y)[|x| + k + 1..] == y[k + 1..];
  }

  /** Stepping over blanks behind a comma changes nothing. */
  lemma TrimKeepsLast(w: seq<byte>)
    ensures LastElement(w) == LastElement(TrimLeft(w))
  {
    var k := Blanks(w);
    var x, y := w[..k], TrimLeft(w);
    assert w == x + y && COMMA !in x;
    if COMMA in y {
      PrefixKeepsLast(x, y);
    } else {
      assert w[..|w|] == w && y[..|y|] == y;
      CommaIsFirst(w, |w|);
      CommaIsFirst(y, |y|);
      assert Blanks(y) == 0;
    }
  }

  /** The two ways of lower-casing agree on the letters of the word. */
  lemma Folds(c: byte, l: byte)
    requires 97 <= l <= 122
    ensures SetBit5(c) == l <==> Lower(c) == l
  {
  }

  lemma ChunkedNodes(n: Node, c: byte)
    ensures n == HEADER_VALUE_TE_CHUNKED ==> ShapeOf(n).Match? && WordOf(n) == W_CHUNKED && FoldOf(n) == ToLowerUnsafe
    ensures n == HEADER_VALUE_TE_CHUNKED ==> NextOf(n) == HEADER_VALUE_TE_CHUNKED_LAST && MissOf(n) == HEADER_VALUE_TE_TOKEN
    ensures n == HEADER_VALUE_TE_CHUNKED_LAST || n == HEADER_VALUE_TE_TOKEN || n == HEADER_VALUE_TE_TOKEN_OWS ==> ShapeOf(n).Switch?
    ensures n == HEADER_VALUE_TE_CHUNKED_LAST && c == SP ==> Branch(n, c) == Turn(n, true)
    ensures n == HEADER_VALUE_TE_CHUNKED_LAST && (c == CR || c == LF) ==> Branch(n, c) == Turn(INVOKE_STORE_CHUNKED, false)
    ensures n == HEADER_VALUE_TE_CHUNKED_LAST && c != SP && c != CR && c != LF ==>
      Branch(n, c) == Turn(HEADER_VALUE_TE_CHUNKED, false)
  {
  }

  lemma TokenNodes(n: Node, c: byte)
    ensures n == HEADER_VALUE_TE_TOKEN && c == COMMA ==> Branch(n, c) == Turn(HEADER_VALUE_TE_TOKEN_OWS, true)
    ensures n == HEADER_VALUE_TE_TOKEN && c != COMMA && IsValueByte(c) ==> Branch(n, c) == Turn(n, true)
    ensures n == HEADER_VALUE_TE_TOKEN && !IsValueByte(c) ==> Branch(n, c) == Turn(INVOKE_RESET_TRANSFER_ENCODING, false)
    ensures n == HEADER_VALUE_TE_TOKEN_OWS && IsBlank(c) ==> Branch(n, c) == Turn(n, true)
    ensures n == HEADER_VALUE_TE_TOKEN_OWS && !IsBlank(c) ==> Branch(n, c) == Turn(HEADER_VALUE_TE_CHUNKED, false)
  {
  }

  /** From `k` the value ends with `w`, and header_state tells whether it was chunked. */
  ghost predicate CodingEnds(d: Policy, k: Config, s: Core, w: seq<byte>, e: byte, rest: seq<byte>, chunked: bool) {
    Run(d, k) == Run(d, Config(Gain(s, w).(cur := HEADER_VALUE_OTHERWISE,
      m := s.m.(headerState := if chunked then 8 else 0)), [e] + rest))
  }

  /** After the first part of a value, the rest decides. */
  lemma CodingGoesOn(d: Policy, k: Config, s: Core, n: Node, x: seq<byte>, y: seq<byte>, e: byte, rest: seq<byte>, chunked: bool)
    requires var t := Gain(s, x).(cur := n);
      Run(d, k) == Run(d, Config(t, y + ([e] + rest))) && CodingEnds(d, Config(t, y + ([e] + rest)), t, y, e, rest, chunked)
    ensures CodingEnds(d, k, s, x + y, e, rest, chunked)
  {
    hide Run;
    GainMore(s, x, y);
  }

  /** The end of a value that is not chunked. */
  lemma NotChunked(d: Policy, s: Core, e: byte, rest: seq<byte>)
    requires s.cur == INVOKE_RESET_TRANSFER_ENCODING && InValue(s) && (e == CR || e == LF)
    ensures CodingEnds(d, Config(s, [e] + rest), s, [], e, rest, false)
  {
    hide Run;
    StepInvoke(d, s, [e] + rest);
    StepSwitch(d, s.(cur := HEADER_VALUE, m := s.m.(headerState := 0)), e, rest);
    GainNothing(s);
  }

  lemma StoreChunked(d: Policy, s: Core, e: byte, rest: seq<byte>)
    requires s.cur == INVOKE_STORE_CHUNKED && InValue(s)
    ensures CodingEnds(d, Config(s, [e] + rest), s, [], e, rest, true)
  {
    hide Run;
    StepInvoke(d, s, [e] + rest);
    GainNothing(s);
  }

  /** The rest of an element that is not the word goes by. */
  lemma TokenBytes(d: Policy, s: Core, x: seq<byte>, tail: seq<byte>)
    requires s.cur == HEADER_VALUE_TE_TOKEN && InValue(s) && AllValueBytes(x) && COMMA !in x
    ensures Run(d, Config(s, x + tail)) == Run(d, Config(Gain(s, x), tail))
  {
    hide Run, ShapeOf, Branch, IsValueByte;
    ChunkedNodes(HEADER_VALUE_TE_TOKEN, 0);
    forall i | 0 <= i < |x| ensures Branch(s.cur, (x + tail)[i]) == Turn(s.cur, true) {
      TokenNodes(HEADER_VALUE_TE_TOKEN, x[i]);
    }
    Loop(d, s, x + tail, |x|);
    assert (x + tail)[..|x|] == x && (x + tail)[|x|..] == tail;
  }

  /** An element that is not the word, at the end of the line. */
  lemma LastToken(d: Policy, s: Core, y: seq<byte>, e: byte, rest: seq<byte>)
    requires s.cur == HEADER_VALUE_TE_TOKEN && InValue(s) && AllValueBytes(y) && COMMA !in y && (e == CR || e == LF)
    ensures CodingEnds(d, Config(s, y + ([e] + rest)), s, y, e, rest, false)
  {
    hide Run, ShapeOf, Branch, IsValueByte, AllValueBytes;
    TokenBytes(d, s, y, [e] + rest);
    GainShown(s, y);
    EolIsNoValue(e);
    ChunkedNodes(HEADER_VALUE_TE_TOKEN, 0);
    TokenNodes(HEADER_VALUE_TE_TOKEN, e);
    StepSwitch(d, Gain(s, y), e, rest);
    NotChunked(d, Gain(s, y).(cur := INVOKE_RESET_TRANSFER_ENCODING), e, rest);
    assert [] + ([e] + rest) == [e] + rest;
    CodingGoesOn(d, Config(s, y + ([e] + rest)), s, INVOKE_RESET_TRANSFER_ENCODING, y, [], e, rest, false);
    assert y + [] == y;
  }

  /** An element that is not the word, and the next element behind its comma. */
  lemma MoreTokens(d: Policy, s: Core, x: seq<byte>, b: seq<byte>, e: byte, rest: seq<byte>)
    requires s.cur == HEADER_VALUE_TE_TOKEN && InValue(s) && AllValueBytes(x) && COMMA !in x && (e == CR || e == LF)
    ensures Run(d, Config(s, x + [COMMA] + b + ([e] + rest))) == Run(d, Config(
      Gain(s, x + ([COMMA] + b[..Blanks(b)])).(cur := HEADER_VALUE_TE_CHUNKED), TrimLeft(b) + ([e] + rest)))
  {
    hide Run, AllValueBytes, TrimLeft;
    var tail := b + ([e] + rest);
    assert x + [COMMA] + b + ([e] + rest) == x + ([COMMA] + tail);
    TokenBytes(d, s, x, [COMMA] + tail);
    GainShown(s, x);
    NextElement(d, Gain(s, x), b, e, rest);
    GainMore(s, x, [COMMA] + b[..Blanks(b)]);
  }

  /** The blanks in front of an element. */
  lemma ElementBegins(d: Policy, s: Core, x: seq<byte>, c: byte, tail: seq<byte>)
    requires s.cur == HEADER_VALUE_TE_TOKEN_OWS && s.error == 0 && SpanShown(s) && AllBlank(x) && !IsBlank(c)
    ensures Run(d, Config(s, x + ([c] + tail))) == Run(d, Config(Gain(s, x).(cur := HEADER_VALUE_TE_CHUNKED), [c] + tail))
  {
    hide Run, ShapeOf, Branch, IsBlank;
    ChunkedNodes(HEADER_VALUE_TE_TOKEN_OWS, 0);
    forall i | 0 <= i < |x| ensures Branch(s.cur, x[i]) == Turn(s.cur, true) { TokenNodes(HEADER_VALUE_TE_TOKEN_OWS, x[i]); }
    LoopAll(d, s, x, [c] + tail);
    TokenNodes(HEADER_VALUE_TE_TOKEN_OWS, c);
    StepSwitch(d, Gain(s, x), c, tail);
  }

  /** A comma and the blanks behind it. */
  lemma NextElement(d: Policy, t: Core, b: seq<byte>, e: byte, rest: seq<byte>)
    requires t.cur == HEADER_VALUE_TE_TOKEN && t.error == 0 && (e == CR || e == LF) && SpanShown(t)
    ensures Run(d, Config(t, [COMMA] + (b + ([e] + rest)))) ==
      Run(d, Config(Gain(t, [COMMA] + b[..Blanks(b)]).(cur := HEADER_VALUE_TE_CHUNKED), TrimLeft(b) + ([e] + rest)))
  {
    hide Run, ShapeOf, Branch, IsBlank;
    var j, input := Blanks(b), TrimLeft(b) + ([e] + rest);
    assert b + ([e] + rest) == b[..j] + input && input == [input[0]] + input[1..];
    ChunkedNodes(HEADER_VALUE_TE_TOKEN, 0);
    TokenNodes(HEADER_VALUE_TE_TOKEN, COMMA);
    StepSwitch(d, t, COMMA, b + ([e] + rest));
    GainShown(t, [COMMA]);
    EolIsNoValue(e);
    assert input[0] == if j == |b| then e else b[j];
    assert !IsBlank(input[0]) && AllBlank(b[..j]);
    ElementBegins(d, Gain(t, [COMMA]).(cur := HEADER_VALUE_TE_TOKEN_OWS), b[..j], input[0], input[1..]);
    GainMore(t, [COMMA], b[..j]);
  }

  lemma ChunkedAgrees(s: Core, x: seq<byte>)
    requires s.cur == HEADER_VALUE_TE_CHUNKED && s.index == 0 && |x| <= |W_CHUNKED|
    requires forall i :: 0 <= i < |x| ==> Lower(x[i]) == W_CHUNKED[i]
    ensures Agrees(s, x)
  {
    hide Lower, SetBit5;
    ChunkedNodes(s.cur, 0);
    forall i | 0 <= i < |x| ensures FoldByte(FoldOf(s.cur), x[i]) == WordOf(s.cur)[s.index + i] {
      Folds(x[i], W_CHUNKED[i]);
    }
  }

  /** The spaces behind a word, at the end of the line. */
  lemma WordEnds(d: Policy, s: Core, r: seq<byte>, e: byte, rest: seq<byte>)
    requires s.cur == HEADER_VALUE_TE_CHUNKED_LAST && InValue(s) && AllSpaces(r) && (e == CR || e == LF)
    ensures CodingEnds(d, Config(s, r + ([e] + rest)), s, r, e, rest, true)
  {
    hide Run, ShapeOf, Branch;
    ChunkedNodes(HEADER_VALUE_TE_CHUNKED_LAST, SP);
    ChunkedNodes(HEADER_VALUE_TE_CHUNKED_LAST, e);
    LoopAll(d, s, r, [e] + rest);
    StepSwitch(d, Gain(s, r), e, rest);
    GainShown(s, r);
    StoreChunked(d, Gain(s, r).(cur := INVOKE_STORE_CHUNKED), e, rest);
    assert [] + ([e] + rest) == [e] + rest && r + [] == r;
    CodingGoesOn(d, Config(s, r + ([e] + rest)), s, INVOKE_STORE_CHUNKED, r, [], e, rest, true);
  }

  /** The spaces behind a word, and something else: it may be the word again. */
  lemma WordAgain(d: Policy, s: Core, x: seq<byte>, c: byte, tail: seq<byte>)
    requires s.cur == HEADER_VALUE_TE_CHUNKED_LAST && InValue(s) && AllSpaces(x) && c != SP && c != CR && c != LF
    ensures Run(d, Config(s, x + ([c] + tail))) == Run(d, Config(Gain(s, x).(cur := HEADER_VALUE_TE_CHUNKED), [c] + tail))
  {
    hide Run, ShapeOf, Branch;
    ChunkedNodes(HEADER_VALUE_TE_CHUNKED_LAST, SP);
    ChunkedNodes(HEADER_VALUE_TE_CHUNKED_LAST, c);
    LoopAll(d, s, x, [c] + tail);
    StepSwitch(d, Gain(s, x), c, tail);
  }

  lemma AfterWord(d: Policy, s: Core, r: seq<byte>, e: byte, rest: seq<byte>)
    requires s.cur == HEADER_VALUE_TE_CHUNKED_LAST && InValue(s) && AllValueBytes(r) && (e == CR || e == LF)
    ensures var y, k := r[Spaces(r)..], Config(s, r + ([e] + rest));
      if y == [] then CodingEnds(d, k, s, r, e, rest, true)
      else Run(d, k) == Run(d, Config(Gain(s, r[..Spaces(r)]).(cur := HEADER_VALUE_TE_CHUNKED), y + ([e] + rest)))
  {
    hide Run, CodingEnds, InValue, IsValueByte, Gain;
    var j := Spaces(r);
    var x, y := r[..j], r[j..];
    if j == |r| {
      WordEnds(d, s, r, e, rest);
    } else {
      EolIsNoValue(y[0]);
      assert y == [y[0]] + y[1..];
      assert r + ([e] + rest) == x + ([y[0]] + (y[1..] + ([e] + rest)));
      assert y + ([e] + rest) == [y[0]] + (y[1..] + ([e] + rest));
      WordAgain(d, s, x, y[0], y[1..] + ([e] + rest));
    }
  }

  /** The word, and the spaces behind it. */
  lemma WholeWord(d: Policy, s: Core, x: seq<byte>, r: seq<byte>, e: byte, rest: seq<byte>)
    requires s.cur == HEADER_VALUE_TE_CHUNKED && InValue(s) && |x| == |W_CHUNKED| && BeginsWith(x, W_CHUNKED)
    requires AllValueBytes(r) && (e == CR || e == LF)
    ensures var y, k := r[Spaces(r)..], Config(s, x + r + ([e] + rest));
      if y == [] then CodingEnds(d, k, s, x + r, e, rest, true)
      else Run(d, k) == Run(d, Config(Gain(s, x + r[..Spaces(r)]).(cur := HEADER_VALUE_TE_CHUNKED), y + ([e] + rest)))
  {
    hide Run, ShapeOf, Branch, WordOf, FoldOf, NextOf, MissOf, AllValueBytes;
    assert x + r + ([e] + rest) == x + (r + ([e] + rest));
    ChunkedNodes(HEADER_VALUE_TE_CHUNKED, 0);
    ChunkedAgrees(s, x);
    Spell(d, s, x, r + ([e] + rest));
    GainShown(s, x);
    AfterWord(d, Gain(s, x).(cur := HEADER_VALUE_TE_CHUNKED_LAST), r, e, rest);
    GainMore(s, x, r);
    GainMore(s, x, r[..Spaces(r)]);
  }

  /** A word that breaks off. */
  lemma BrokenWord(d: Policy, s: Core, x: seq<byte>, y: seq<byte>, e: byte, rest: seq<byte>)
    requires s.cur == HEADER_VALUE_TE_CHUNKED && InValue(s) && |x| < |W_CHUNKED| && (e == CR || e == LF)
    requires forall i :: 0 <= i < |x| ==> Lower(x[i]) == W_CHUNKED[i]
    requires y != [] ==> Lower(y[0]) != W_CHUNKED[|x|]
    ensures Run(d, Config(s, x + y + ([e] + rest))) == Run(d, Config(Gain(s, x).(cur := HEADER_VALUE_TE_TOKEN), y + ([e] + rest)))
    ensures COMMA !in x
  {
    hide Run, ShapeOf, WordOf, FoldOf, NextOf, MissOf;
    var tail := y + ([e] + rest);
    assert x + y + ([e] + rest) == x + tail;
    ChunkedNodes(HEADER_VALUE_TE_CHUNKED, 0);
    ChunkedAgrees(s, x);
    Spell(d, s, x, tail);
    assert tail[0] == if y == [] then e else y[0];
    Folds(tail[0], W_CHUNKED[|x|]);
    MatchBreaks(d, Gain(s, x).(index := |x|), tail);
  }

  /** What the value comes to from here. */
  predicate Verdict(w: seq<byte>) {
    IsChunked(if COMMA in w then LastElement(w) else w)
  }

  lemma ChunkedOfWord(x: seq<byte>, r: seq<byte>)
    requires |x| == |W_CHUNKED| && BeginsWith(x, W_CHUNKED)
    ensures IsChunked(x + r) <==> r[Spaces(r)..] == [] || IsChunked(r[Spaces(r)..])
    ensures COMMA !in x + r[..Spaces(r)]
  {
    var w := x + r;
    assert w[|W_CHUNKED|..] == r;
    assert BeginsWith(w, W_CHUNKED);
    hide BeginsWith;
    forall i | 0 <= i < |x| ensures x[i] != COMMA { Letter(x, i); }
  }

  lemma Letter(x: seq<byte>, i: nat)
    requires |x| == |W_CHUNKED| && BeginsWith(x, W_CHUNKED) && i < |x|
    ensures x[i] != COMMA
  {
    assert Lower(x[i]) == W_CHUNKED[i];
  }

  /** The word and its spaces, and the value goes on. */
  lemma VerdictOfWord(x: seq<byte>, r: seq<byte>)
    requires |x| == |W_CHUNKED| && BeginsWith(x, W_CHUNKED)
    ensures Verdict(x + r) <==> r[Spaces(r)..] == [] || Verdict(r[Spaces(r)..])
  {
    hide BeginsWith, IsChunked, LastElement;
    var j := Spaces(r);
    var y := r[j..];
    assert r == r[..j] + y && x + r == (x + r[..j]) + y;
    ChunkedOfWord(x, r);
    if COMMA in y { PrefixKeepsLast(x + r[..j], y); }
  }

  /** An element that is not the word, and the value goes on behind a comma. */
  lemma VerdictOfToken(w: seq<byte>, k: nat)
    requires !BeginsWith(w, W_CHUNKED) && k <= |w| && COMMA !in w[..k] && (k < |w| ==> w[k] == COMMA)
    ensures Verdict(w) <==> k < |w| && Verdict(TrimLeft(w[k + 1..]))
  {
    if k < |w| {
      var z := TrimLeft(w[k + 1..]);
      ElementsAfterComma(w, k);
      TrimKeepsLast(w[k + 1..]);
      if COMMA !in z { OneElement(z); }
    } else {
      assert w[..k] == w;
    }
  }

  lemma TwoGains(s: Core, x: seq<byte>, y: seq<byte>, m: Node, n: Node)
    ensures Gain(Gain(s, x).(cur := m), y).(cur := n) == Gain(s, x + y).(cur := n)
  {
    GainMore(s, x, y);
  }

  lemma StillInValue(s: Core, x: seq<byte>, n: Node)
    requires InValue(s)
    ensures InValue(Gain(s, x).(cur := n))
  {
    GainShown(s, x);
  }

  /** From the start of an element the value ends, or comes to the start of another with the same verdict. */
  ghost predicate Proceeds(d: Policy, s: Core, w: seq<byte>, e: byte, rest: seq<byte>, done: bool, x: seq<byte>, y: seq<byte>) {
    var k := Config(s, w + ([e] + rest));
    if done then CodingEnds(d, k, s, w, e, rest, Verdict(w))
    else
      && x + y == w && |y| < |w| && Verdict(y) == Verdict(w)
      && Run(d, k) == Run(d, Config(Gain(s, x).(cur := HEADER_VALUE_TE_CHUNKED), y + ([e] + rest)))
  }

  lemma WordProceeds(d: Policy, s: Core, w: seq<byte>, x: seq<byte>, r: seq<byte>, e: byte, rest: seq<byte>)
    returns (done: bool, u: seq<byte>, y: seq<byte>)
    requires s.cur == HEADER_VALUE_TE_CHUNKED && InValue(s) && |x| == |W_CHUNKED| && BeginsWith(x, W_CHUNKED)
    requires w == x + r && AllValueBytes(r) && (e == CR || e == LF)
    ensures Proceeds(d, s, w, e, rest, done, u, y)
  {
    hide Run, Verdict, CodingEnds, BeginsWith, AllValueBytes, Gain, InValue, Spaces;
    WholeWord(d, s, x, r, e, rest);
    VerdictOfWord(x, r);
    var j := Spaces(r);
    done, u, y := r[j..] == [], x + r[..j], r[j..];
    assert u + y == w;
  }

  /** The pieces of an element that is not the word, and of what follows its comma. */
  lemma TokenParts(x: seq<byte>, r: seq<byte>, j: nat, z: seq<byte>)
    requires j < |r| && |z| < |r| - j && z == r[|r| - |z|..]
    ensures x + r[..|r| - |z|] + z == x + r && (x + r)[..|x| + j] == x + r[..j]
    ensures (x + r)[|x| + j + 1..] == r[j + 1..] && (x + r)[|x| + j] == r[j]
  {
  }

  lemma TrimmedTail(r: seq<byte>, j: nat)
    requires j < |r|
    ensures var z := TrimLeft(r[j + 1..]); |z| < |r| - j && z == r[|r| - |z|..]
  {
  }

  lemma TrimmedHead(r: seq<byte>, j: nat)
    requires j < |r| && r[j] == COMMA
    ensures var b := r[j + 1..]; r[..j] + ([COMMA] + b[..Blanks(b)]) == r[..|r| - |TrimLeft(b)|]
  {
  }

  lemma ValueBytesIn(r: seq<byte>, j: nat)
    requires AllValueBytes(r) && j <= |r|
    ensures AllValueBytes(r[..j])
  {
  }

  lemma NoCommaYet(w: seq<byte>, x: seq<byte>, r: seq<byte>)
    requires w == x + r && |x| < |W_CHUNKED| && forall i :: 0 <= i < |x| ==> Lower(x[i]) == W_CHUNKED[i]
    ensures COMMA !in w[..|x| + Comma(r)]
  {
    var k := |x| + Comma(r);
    forall i | 0 <= i < k ensures w[i] != COMMA {
      if i < |x| { assert Lower(x[i]) != COMMA; } else { assert w[i] == r[i - |x|]; }
    }
  }

  lemma LastTokenProceeds(d: Policy, s: Core, w: seq<byte>, x: seq<byte>, r: seq<byte>, e: byte, rest: seq<byte>)
    requires s.cur == HEADER_VALUE_TE_CHUNKED && InValue(s) && |x| < |W_CHUNKED|
    requires forall i :: 0 <= i < |x| ==> Lower(x[i]) == W_CHUNKED[i]
    requires (r != [] ==> Lower(r[0]) != W_CHUNKED[|x|]) && !BeginsWith(w, W_CHUNKED)
    requires w == x + r && AllValueBytes(r) && (e == CR || e == LF)
    requires Comma(r) == |r|
    ensures Proceeds(d, s, w, e, rest, true, [], [])
  {
    hide Run, Verdict, CodingEnds, BeginsWith, AllValueBytes, Gain, InValue, TrimLeft;
    BrokenWord(d, s, x, r, e, rest);
    StillInValue(s, x, HEADER_VALUE_TE_TOKEN);
    assert r[..|r|] == r && w[..|w|] == w;
    LastToken(d, Gain(s, x).(cur := HEADER_VALUE_TE_TOKEN), r, e, rest);
    VerdictOfToken(w, |w|);
    CodingGoesOn(d, Config(s, w + ([e] + rest)), s, HEADER_VALUE_TE_TOKEN, x, r, e, rest, false);
  }

  lemma NextTokenProceeds(d: Policy, s: Core, w: seq<byte>, x: seq<byte>, r: seq<byte>, e: byte, rest: seq<byte>)
    returns (u: seq<byte>, y: seq<byte>)
    requires s.cur == HEADER_VALUE_TE_CHUNKED && InValue(s) && |x| < |W_CHUNKED|
    requires forall i :: 0 <= i < |x| ==> Lower(x[i]) == W_CHUNKED[i]
    requires (r != [] ==> Lower(r[0]) != W_CHUNKED[|x|]) && !BeginsWith(w, W_CHUNKED)
    requires w == x + r && AllValueBytes(r) && (e == CR || e == LF)
    requires Comma(r) < |r|
    ensures Proceeds(d, s, w, e, rest, false, u, y)
  {
    hide Run, Verdict, CodingEnds, BeginsWith, AllValueBytes, Gain, InValue, TrimLeft, Comma, Blanks;
    var j := Comma(r);
    BrokenWord(d, s, x, r, e, rest);
    StillInValue(s, x, HEADER_VALUE_TE_TOKEN);
    var t := Gain(s, x).(cur := HEADER_VALUE_TE_TOKEN);
    var z := TrimLeft(r[j + 1..]);
    TrimmedTail(r, j);
    TokenParts(x, r, j, z);
    assert AllValueBytes(r[..j]) by { ValueBytesIn(r, j); }
    assert r == r[..j] + [COMMA] + r[j + 1..];
    MoreTokens(d, t, r[..j], r[j + 1..], e, rest);
    assert r[..j] + ([COMMA] + r[j + 1..][..Blanks(r[j + 1..])]) == r[..|r| - |z|] by { TrimmedHead(r, j); }
    NoCommaYet(w, x, r);
    VerdictOfToken(w, |x| + j);
    TwoGains(s, x, r[..|r| - |z|], HEADER_VALUE_TE_TOKEN, HEADER_VALUE_TE_CHUNKED);
    u, y := x + r[..|r| - |z|], z;
  }

  lemma TokenProceeds(d: Policy, s: Core, w: seq<byte>, x: seq<byte>, r: seq<byte>, e: byte, rest: seq<byte>)
    returns (done: bool, u: seq<byte>, y: seq<byte>)
    requires s.cur == HEADER_VALUE_TE_CHUNKED && InValue(s) && |x| < |W_CHUNKED|
    requires forall i :: 0 <= i < |x| ==> Lower(x[i]) == W_CHUNKED[i]
    requires (r != [] ==> Lower(r[0]) != W_CHUNKED[|x|]) && !BeginsWith(w, W_CHUNKED)
    requires w == x + r && AllValueBytes(r) && (e == CR || e == LF)
    ensures Proceeds(d, s, w, e, rest, done, u, y)
  {
    hide Run, Verdict, CodingEnds, BeginsWith, AllValueBytes, InValue, Proceeds, Comma;
    if Comma(r) == |r| {
      LastTokenProceeds(d, s, w, x, r, e, rest);
      done, u, y := true, [], [];
    } else {
      done := false;
      u, y := NextTokenProceeds(d, s, w, x, r, e, rest);
    }
  }

  lemma SomethingProceeds(d: Policy, s: Core, w: seq<byte>, e: byte, rest: seq<byte>)
    returns (done: bool, x: seq<byte>, y: seq<byte>)
    requires s.cur == HEADER_VALUE_TE_CHUNKED && InValue(s) && AllValueBytes(w) && (e == CR || e == LF)
    ensures Proceeds(d, s, w, e, rest, done, x, y)
  {
    hide Run, Proceeds, InValue;
    var n := Along(w, W_CHUNKED);
    var u, r := w[..n], w[n..];
    assert w == u + r;
    if n == |W_CHUNKED| {
      done, x, y := WordProceeds(d, s, w, u, r, e, rest);
    } else {
      done, x, y := TokenProceeds(d, s, w, u, r, e, rest);
    }
  }

  /** The value of a line, element by element. */
  lemma {:induction false} Coding(d: Policy, s: Core, w: seq<byte>, e: byte, rest: seq<byte>)
    requires s.cur == HEADER_VALUE_TE_CHUNKED && InValue(s) && AllValueBytes(w) && (e == CR || e == LF)
    ensures CodingEnds(d, Config(s, w + ([e] + rest)), s, w, e, rest, Verdict(w))
    decreases |w|
  {
    hide Run, Verdict, CodingEnds, Gain, InValue;
    var done, x, y := SomethingProceeds(d, s, w, e, rest);
    if !done {
      assert AllValueBytes(y) by { forall i | 0 <= i < |y| ensures IsValueByte(y[i]) { assert y[i] == w[|x| + i]; } }
      StillInValue(s, x, HEADER_VALUE_TE_CHUNKED);
      Coding(d, Gain(s, x).(cur := HEADER_VALUE_TE_CHUNKED), y, e, rest);
      CodingGoesOn(d, Config(s, w + ([e] + rest)), s, HEADER_VALUE_TE_CHUNKED, x, y, e, rest, Verdict(y));
    }
  }

  lemma LoadCoding(d: Policy, s: Core, input: seq<byte>)
    requires s.cur == INVOKE_LOAD_HEADER_STATE_2 && s.error == 0 && s.m.headerState == 3
    ensures Run(d, Config(s, input)) == Run(d, Config(s.(cur := HEADER_VALUE_TE_CHUNKED,
      m := s.m.(flags := s.m.flags.(transferEncoding := true))), input))
  {
    hide Run;
    StepInvoke(d, s, input);
  }

  lemma VerdictOfLine(w: seq<byte>)
    requires w != [] && !IsBlank(w[0])
    ensures Verdict(w) == IsChunked(LastElement(w))
  {
    hide IsChunked, LastElement;
    if COMMA !in w { OneElement(w); }
  }

  /** The value of a line, once the line has begun. */
  lemma CodingValue(d: Policy, s: Core, w: seq<byte>, e: byte, rest: seq<byte>)
    requires s.cur == INVOKE_LOAD_HEADER_STATE_2 && InValue(s) && s.m.headerState == 3
    requires w != [] && !IsBlank(w[0]) && AllValueBytes(w) && (e == CR || e == LF)
    ensures Run(d, Config(s, w + ([e] + rest))) == Run(d, Config(Gain(s, w).(cur := HEADER_VALUE_OTHERWISE,
      m := s.m.(headerState := if IsChunked(LastElement(w)) then 8 else 0,
                flags := s.m.flags.(transferEncoding := true))), [e] + rest))
  {
    hide Run, IsChunked, LastElement, Verdict, IsBlank, IsValueByte;
    VerdictOfLine(w);
    LoadCoding(d, s, w + ([e] + rest));
    Coding(d, s.(cur := HEADER_VALUE_TE_CHUNKED, m := s.m.(flags := s.m.flags.(transferEncoding := true))), w, e, rest);
  }

  lemma CodingFlag(m: Fields)
    requires m.headerState == 0 || m.headerState == 8
    ensures OrHeaderFlag(m) == m.(flags := m.flags.(chunked := m.flags.chunked || m.headerState == 8))
  {
  }

  /** A line with a value. */
  lemma SomeCoding(d: Policy, s: Core, blanks: seq<byte>, w: seq<byte>, eol: seq<byte>, c: byte, rest: seq<byte>)
    requires s.cur == HEADER_VALUE_DISCARD_WS && s.error == 0 && s.span == None && s.index == 0 && s.m.headerState == 3
    requires AllBlank(blanks) && w != [] && !IsBlank(w[0]) && AllValueBytes(w) && IsEol(eol) && !IsBlank(c)
    ensures var chunked := IsChunked(LastElement(w));
      Run(d, Config(s, blanks + w + eol + ([c] + rest))) == Run(d, Config(s.(cur := HEADER_FIELD_START,
        trace := Add(s.trace, Piece(OnHeaderValue, w)) + [HeaderValueComplete],
        m := s.m.(headerState := if chunked then 8 else 0,
                  flags := s.m.flags.(transferEncoding := true, chunked := s.m.flags.chunked || chunked))), [c] + rest))
  {
    hide Run, IsChunked, LastElement, Verdict, IsBlank, OrHeaderFlag, CodingEnds;
    var tail, chunked := eol + ([c] + rest), IsChunked(LastElement(w));
    assert IsValueByte(w[0]) && w[0] != CR && w[0] != LF;
    VerdictOfLine(w);
    assert tail == [eol[0]] + tail[1..];
    assert blanks + w + eol + ([c] + rest) == blanks + ([w[0]] + (w[1..] + tail));
    ValueBegins(d, s, blanks, w[0], w[1..] + tail);
    assert [w[0]] + (w[1..] + tail) == w + tail;
    GainShown(s.(span := Some(OnHeaderValue)), []);
    assert InValue(Begun(s));
    assert w + tail == w + ([eol[0]] + tail[1..]);
    CodingValue(d, Begun(s), w, eol[0], tail[1..]);
    AddPieces(s.trace, OnHeaderValue, [], w);
    assert [] + w == w;
    var m := s.m.(headerState := if chunked then 8 else 0, flags := s.m.flags.(transferEncoding := true));
    CodingFlag(m);
    ValueEnds(d, Gain(Begun(s), w).(cur := HEADER_VALUE_OTHERWISE, m := m), eol, c, rest);
  }

  /** What a line leaves in the fields: F_TRANSFER_ENCODING, unless there is no value, and F_CHUNKED for a last element that is chunked. */
  function WithCoding(m: Fields, w: seq<byte>): Fields {
    var chunked := IsChunked(LastElement(w));
    if w == [] then m
    else m.(headerState := if chunked then 8 else 0, flags := m.flags.(transferEncoding := true, chunked := m.flags.chunked || chunked))
  }

  /**
   A whole line: F_TRANSFER_ENCODING is set unless there is no value, and F_CHUNKED exactly when the
   last element is made of words "chunked" and spaces.
   */
  lemma CodingLine(d: Policy, s: Core, blanks: seq<byte>, w: seq<byte>, eol: seq<byte>, c: byte, rest: seq<byte>)
    requires s.cur == HEADER_VALUE_DISCARD_WS && s.error == 0 && s.span == None && s.index == 0 && s.m.headerState == 3
    requires AllBlank(blanks) && (w != [] ==> !IsBlank(w[0])) && AllValueBytes(w) && IsEol(eol) && !IsBlank(c)
    ensures Run(d, Config(s, blanks + w + eol + ([c] + rest))) == Run(d, Config(s.(cur := HEADER_FIELD_START,
      trace := ValueShown(s.trace, w), m := WithCoding(s.m, w)), [c] + rest))
  {
    hide Run, IsChunked, LastElement, IsBlank;
    if w == [] {
      assert blanks + w + eol == blanks + eol;
      BlankLine(d, s, blanks, eol, c, rest);
      NoOption(s.m);
      assert ValueShown(s.trace, w) == Add(s.trace, Piece(OnHeaderValue, []));
    } else {
      SomeCoding(d, s, blanks, w, eol, c, rest);
    }
  }
}
