/** The values of Connection, Transfer-Encoding, and of names without a meaning: a byte that no value may hold is refused. */
module OddValues {
  import opened Bytes
  import opened Graph
  import opened Machine
  import opened HeaderValues
  import L = Likeness

  /** The nodes between the bytes of such a value. */
  predicate InsideValue(n: Node) {
    || n == INVOKE_TEST_LENIENT_HEADERS || HEADER_VALUE_OTHERWISE <= n <= HEADER_VALUE_CONNECTION
    || INVOKE_RESET_TRANSFER_ENCODING <= n <= HEADER_VALUE_TE_CHUNKED
    || HEADER_VALUE_CONNECTION_1 <= n <= INVOKE_LOAD_HEADER_STATE_4
    || n == HEADER_VALUE_TE_CHUNKED_LAST || n == HEADER_VALUE_TE_TOKEN_OWS
  }

  lemma ShapesInside(n: Node)
    requires InsideValue(n)
    ensures ShapeOf(n).Switch? || ShapeOf(n).Match? || ShapeOf(n).Invoke?
  {
  }

  lemma BranchInside(n: Node, c: byte)
    requires InsideValue(n) && ShapeOf(n).Switch? && c != CR && c != LF
    ensures InsideValue(Branch(n, c).next) && (Branch(n, c).over ==> IsValueByte(c))
  {
  }

  lemma MatchInside(n: Node)
    requires InsideValue(n) && ShapeOf(n).Match?
    ensures InsideValue(NextOf(n)) && InsideValue(MissOf(n))
  {
  }

  /** The words hold letters and hyphens only. */
  lemma WordBytes(n: Node, i: nat, c: byte)
    requires InsideValue(n) && i < |WordOf(n)| && FoldByte(FoldOf(n), c) == WordOf(n)[i]
    ensures IsValueByte(c)
  {
  }

  lemma InvokeInside(n: Node, m: Fields)
    requires InsideValue(n) && ShapeOf(n).Invoke? && !m.lenientHeaders
    ensures if n == INVOKE_TEST_LENIENT_HEADERS then Goto(n, m) == FAIL_INVALID_HEADER_TOKEN else InsideValue(Goto(n, m))
  {
  }

  lemma FailInside(d: Policy, k: Config)
    requires k.s.cur == FAIL_INVALID_HEADER_TOKEN && k.s.error == 0
    ensures Run(d, k).s.error == HPE_INVALID_HEADER_TOKEN
  {
  }

  /** One block inside such a value: it steps over bytes that a value may hold, and over no other. */
  lemma TickInside(d: Policy, s: Core, input: seq<byte>)
    requires InsideValue(s.cur) && s.error == 0 && !s.m.lenientHeaders && input != [] && input[0] != CR && input[0] != LF
    ensures !Halted(Config(s, input))
    ensures var t := Tick(d, Config(s, input));
      && t.s.error == 0 && !t.s.m.lenientHeaders
      && (t.input == input || (t.input == input[1..] && IsValueByte(input[0])))
      && (InsideValue(t.s.cur) || (t.s.cur == FAIL_INVALID_HEADER_TOKEN && t.input == input))
  {
    var n, c := s.cur, input[0];
    ShapesInside(n);
    if ShapeOf(n).Switch? {
      BranchInside(n, c);
    } else if ShapeOf(n).Match? {
      MatchInside(n);
      if Matches(s, c) { WordBytes(n, s.index, c); }
    } else {
      InvokeInside(n, s.m);
      L.UpdateLenient(n, s.m);
    }
    hide ShapeOf, Branch, Goto, Update, NextOf, MissOf, WordOf, FoldOf, InsideValue, IsValueByte, Add;
  }

  /** Without lenience a value that holds such a byte is refused. */
  lemma {:induction false} OddValueFails(d: Policy, s: Core, w: seq<byte>, rest: seq<byte>)
    requires InsideValue(s.cur) && s.error == 0 && !s.m.lenientHeaders
    requires CR !in w && LF !in w && !AllValueBytes(w)
    ensures Run(d, Config(s, w + rest)).s.error == HPE_INVALID_HEADER_TOKEN
    decreases |w|, s.cur
  {
    hide InsideValue, Tick, IsValueByte, Halted;
    assert w != [] && (w + rest)[0] == w[0];
    var k := Config(s, w + rest);
    TickInside(d, s, w + rest);
    TickDescends(d, k);
    var t := Tick(d, k);
    if t.s.cur == FAIL_INVALID_HEADER_TOKEN {
      FailInside(d, t);
    } else if t.input == w + rest {
      OddValueFails(d, t.s, w, rest);
    } else {
      assert (w + rest)[1..] == w[1..] + rest;
      var i :| 0 <= i < |w| && !IsValueByte(w[i]);
      assert w[1..][i - 1] == w[i];
      OddValueFails(d, t.s, w[1..], rest);
    }
  }
}
