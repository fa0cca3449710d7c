/** Digit strings: each number is stored exactly when it fits, and the first digit too many is an error. */
module Numbers {
  import opened Bytes
  import opened Graph
  import opened Machine
  import opened Strides
  import opened Walk

  /** The number that the digits `ds` make of `x` in front of them. */
  function Value(base: nat, x: nat, ds: seq<nat>): nat {
    if ds == [] then x else base * Value(base, x, ds[..|ds| - 1]) + ds[|ds| - 1]
  }

  lemma ValueNothing(base: nat, x: nat)
    ensures Value(base, x, []) == x
  {
  }

  lemma {:induction false} ValueFront(base: nat, x: nat, ds: seq<nat>)
    requires ds != []
    ensures Value(base, x, ds) == Value(base, base * x + ds[0], ds[1..])
    decreases |ds|
  {
    if |ds| > 1 {
      var front := ds[..|ds| - 1];
      ValueFront(base, x, front);
      assert front[1..] == ds[1..][..|ds| - 2];
    }
  }

  lemma {:induction false} ValueGrows(base: nat, x: nat, ds: seq<nat>)
    requires base >= 1
    ensures Value(base, x, ds) >= x
  {
    if ds != [] {
      var v := Value(base, x, ds[..|ds| - 1]);
      ValueGrows(base, x, ds[..|ds| - 1]);
      assert base * v >= v by { assert (base - 1) * v >= 0; }
    }
  }

  /** The number of digits up to the first whose prefix is more than `max`, or of all digits. */
  function Fitting(base: nat, max: nat, x: nat, ds: seq<nat>): (k: nat)
    ensures k <= |ds|
    decreases |ds|
  {
    if ds == [] || base * x + ds[0] > max then 0 else 1 + Fitting(base, max, base * x + ds[0], ds[1..])
  }

  /** All digits fit exactly when the number does; otherwise the next prefix is the first that does not. */
  lemma {:induction false} FittingIsLongest(base: nat, max: nat, x: nat, ds: seq<nat>)
    requires base >= 1 && x <= max
    ensures var k := Fitting(base, max, x, ds);
      && (k == |ds| <==> Value(base, x, ds) <= max)
      && Value(base, x, ds[..k]) <= max
      && (k < |ds| ==> Value(base, x, ds[..k + 1]) > max)
    decreases |ds|
  {
    if ds != [] {
      var y := base * x + ds[0];
      ValueFront(base, x, ds);
      if y > max {
        ValueGrows(base, y, ds[1..]);
        assert ds[..1] == [ds[0]] && ds[..1][..0] == [];
        assert Value(base, x, ds[..1]) == base * Value(base, x, ds[..1][..0]) + ds[0];
      } else {
        var k := Fitting(base, max, y, ds[1..]);
        FittingIsLongest(base, max, y, ds[1..]);
        ValueFront(base, x, ds[..k + 1]);
        assert ds[..k + 1][1..] == ds[1..][..k];
        if k < |ds| - 1 {
          ValueFront(base, x, ds[..k + 2]);
          assert ds[..k + 2][1..] == ds[1..][..k + 1];
        }
      }
    }
  }

  /** The overflow checks of the decimal mul_add blocks are exact. */
  lemma MulAdd10Exact(x: nat, d: nat, max: nat)
    requires d <= 9 && max >= 9
    ensures MulAdd10(x, d, max).1 <==> 10 * x + d <= max
    ensures MulAdd10(x, d, max).1 ==> MulAdd10(x, d, max).0 == 10 * x + d
  {
  }

  /** And so are those of the hexadecimal one. */
  lemma MulAdd16Exact(x: nat, d: nat)
    requires d <= 15
    ensures MulAdd16(x, d).1 <==> 16 * x + d <= MAX_UINT64
    ensures MulAdd16(x, d).1 ==> MulAdd16(x, d).0 == 16 * x + d
  {
  }

  predicate AllHex(w: seq<byte>) {
    forall i :: 0 <= i < |w| ==> IsHex(w[i])
  }

  predicate AllDigits(w: seq<byte>) {
    forall i :: 0 <= i < |w| ==> IsDigit(w[i])
  }

  function HexDigits(w: seq<byte>): (ds: seq<nat>)
    requires AllHex(w)
    ensures |ds| == |w|
  {
    seq(|w|, i requires 0 <= i < |w| => HexValue(w[i]))
  }

  function DecimalDigits(w: seq<byte>): (ds: seq<nat>)
    requires AllDigits(w)
    ensures |ds| == |w|
  {
    seq(|w|, i requires 0 <= i < |w| => w[i] - 48)
  }

  lemma HexNode(n: Node, m: Fields, c: byte)
    requires (n == CHUNK_SIZE || n == CHUNK_SIZE_DIGIT) && IsHex(c)
    ensures ShapeOf(n).Number? && IsDigitOf(n, c)
    ensures AfterDigit(n, m, c) == if MulAdd16(m.length, HexValue(c)).1 then CHUNK_SIZE else FAIL_INVALID_CHUNK_SIZE
    ensures TakeDigit(n, m, c) == m.(length := MulAdd16(m.length, HexValue(c)).0)
  {
    hide MulAdd16;
  }

  /** One more digit of a chunk size. */
  lemma HexStep(d: Policy, s: Core, c: byte, rest: seq<byte>)
    requires (s.cur == CHUNK_SIZE || s.cur == CHUNK_SIZE_DIGIT) && s.error == 0 && s.span == None && IsHex(c)
    ensures var x := 16 * s.m.length + HexValue(c);
      if x <= MAX_UINT64 then
        Run(d, Config(s, [c] + rest)) == Run(d, Config(s.(cur := CHUNK_SIZE, m := s.m.(length := x)), rest))
      else
        Run(d, Config(s, [c] + rest)).s.error == HPE_INVALID_CHUNK_SIZE && Run(d, Config(s, [c] + rest)).input == rest
  {
    HexNode(s.cur, s.m, c);
    MulAdd16Exact(s.m.length, HexValue(c));
    assert ShapeOf(FAIL_INVALID_CHUNK_SIZE).Fail? && ErrorOf(FAIL_INVALID_CHUNK_SIZE) == HPE_INVALID_CHUNK_SIZE;
    hide Run, MulAdd16, ShapeOf, AfterDigit, TakeDigit, IsDigitOf, ErrorOf, MissOf;
    StepNumber(d, s, c, rest);
    if 16 * s.m.length + HexValue(c) > MAX_UINT64 {
      StepFail(d, s.(cur := FAIL_INVALID_CHUNK_SIZE, m := TakeDigit(s.cur, s.m, c)), rest);
    }
  }

  /** A chunk size, from its first digit or from a number begun before. */
  lemma {:induction false} HexRun(d: Policy, s: Core, w: seq<byte>, rest: seq<byte>)
    requires (s.cur == CHUNK_SIZE || s.cur == CHUNK_SIZE_DIGIT) && s.error == 0 && s.span == None
    requires AllHex(w) && w != []
    ensures var k := Fitting(16, MAX_UINT64, s.m.length, HexDigits(w));
      if k == |w| then
        Run(d, Config(s, w + rest)) ==
          Run(d, Config(s.(cur := CHUNK_SIZE, m := s.m.(length := Value(16, s.m.length, HexDigits(w)))), rest))
      else
        Run(d, Config(s, w + rest)).s.error == HPE_INVALID_CHUNK_SIZE && Run(d, Config(s, w + rest)).input == w[k + 1..] + rest
    decreases |w|
  {
    hide Run, Value;
    var n, ds := s.m.length, HexDigits(w);
    var x := 16 * n + ds[0];
    assert w + rest == [w[0]] + (w[1..] + rest);
    assert ds[1..] == HexDigits(w[1..]);
    HexStep(d, s, w[0], w[1..] + rest);
    ValueFront(16, n, ds);
    if |w| == 1 {
      ValueNothing(16, x);
      assert w[1..] + rest == rest;
    } else if x <= MAX_UINT64 {
      HexRun(d, s.(cur := CHUNK_SIZE, m := s.m.(length := x)), w[1..], rest);
      var k := Fitting(16, MAX_UINT64, x, ds[1..]);
      if k < |w| - 1 { assert w[1..][k + 1..] == w[k + 2..]; }
    }
  }

  lemma LengthNode(m: Fields, c: byte)
    requires IsDigit(c)
    ensures var n := HEADER_VALUE_CONTENT_LENGTH;
      && ShapeOf(n).Number? && IsDigitOf(n, c)
      && AfterDigit(n, m, c) == (if MulAdd10(m.length, c - 48, MAX_UINT64).1 then n else SPAN_END_HEADER_VALUE_4)
      && TakeDigit(n, m, c) == m.(length := MulAdd10(m.length, c - 48, MAX_UINT64).0)
  {
    hide MulAdd10;
  }

  /** A Content-Length that overflows is reported up to the digit that is too many, and is an error. */
  lemma LengthFails(d: Policy, s: Core, input: seq<byte>)
    requires s.error == 0 && (s.cur == SPAN_END_HEADER_VALUE_4 || s.cur == SPAN_END_HEADER_VALUE_5)
    ensures Run(d, Config(s, input)).s.error == HPE_INVALID_CONTENT_LENGTH && Run(d, Config(s, input)).input == input
  {
    StepClose(d, s, input);
    StepFail(d, s.(span := None, cur := FAIL_INVALID_CONTENT_LENGTH), input);
    hide Run;
  }

  /** One more digit of a Content-Length. */
  lemma LengthStep(d: Policy, s: Core, c: byte, rest: seq<byte>)
    requires s.cur == HEADER_VALUE_CONTENT_LENGTH && s.error == 0 && IsDigit(c)
    ensures var x := 10 * s.m.length + (c - 48);
      if x <= MAX_UINT64 then
        Run(d, Config(s, [c] + rest)) == Run(d, Config(Gain(s, [c]).(m := s.m.(length := x)), rest))
      else
        Run(d, Config(s, [c] + rest)).s.error == HPE_INVALID_CONTENT_LENGTH && Run(d, Config(s, [c] + rest)).input == rest
  {
    LengthNode(s.m, c);
    MulAdd10Exact(s.m.length, c - 48, MAX_UINT64);
    hide Run, MulAdd10, ShapeOf, AfterDigit, TakeDigit, IsDigitOf, MissOf;
    StepNumber(d, s, c, rest);
    if 10 * s.m.length + (c - 48) > MAX_UINT64 {
      LengthFails(d, Gain(s, [c]).(cur := SPAN_END_HEADER_VALUE_4, m := TakeDigit(s.cur, s.m, c)), rest);
    }
  }

  /** The digits of a Content-Length, added to a number begun before. */
  lemma {:induction false} LengthRun(d: Policy, s: Core, w: seq<byte>, rest: seq<byte>)
    requires s.cur == HEADER_VALUE_CONTENT_LENGTH && s.error == 0 && SpanShown(s) && AllDigits(w) && s.m.length <= MAX_UINT64
    ensures var k := Fitting(10, MAX_UINT64, s.m.length, DecimalDigits(w));
      if k == |w| then
        Run(d, Config(s, w + rest)) ==
          Run(d, Config(Gain(s, w).(m := s.m.(length := Value(10, s.m.length, DecimalDigits(w)))), rest))
      else
        Run(d, Config(s, w + rest)).s.error == HPE_INVALID_CONTENT_LENGTH && Run(d, Config(s, w + rest)).input == w[k + 1..] + rest
    decreases |w|
  {
    hide Run, Value;
    var n, ds := s.m.length, DecimalDigits(w);
    if w == [] {
      ValueNothing(10, n);
      assert w + rest == rest;
      GainNothing(s);
    } else {
      var x := 10 * n + ds[0];
      assert w + rest == [w[0]] + (w[1..] + rest);
      assert ds[1..] == DecimalDigits(w[1..]);
      LengthStep(d, s, w[0], w[1..] + rest);
      ValueFront(10, n, ds);
      if x <= MAX_UINT64 {
        var t := Gain(s, [w[0]]).(m := s.m.(length := x));
        GainShown(s, [w[0]]);
        LengthRun(d, t, w[1..], rest);
        GainMore(s, [w[0]], w[1..]);
        assert [w[0]] + w[1..] == w;
        var k := Fitting(10, MAX_UINT64, x, ds[1..]);
        if k < |w| - 1 { assert w[1..][k + 1..] == w[k + 2..]; }
      }
    }
  }

  lemma StatusNode(m: Fields, c: byte)
    requires IsDigit(c)
    ensures var n := RES_STATUS_CODE;
      && ShapeOf(n).Number? && IsDigitOf(n, c)
      && AfterDigit(n, m, c) == (if MulAdd10(m.status, c - 48, 0xffff).1 && MulAdd10(m.status, c - 48, 0xffff).0 <= 999
                                 then n else FAIL_INVALID_STATUS)
      && TakeDigit(n, m, c) == m.(status := MulAdd10(m.status, c - 48, 0xffff).0)
  {
    hide MulAdd10;
  }

  /** One more digit of a status code. */
  lemma StatusStep(d: Policy, s: Core, c: byte, rest: seq<byte>)
    requires s.cur == RES_STATUS_CODE && s.error == 0 && s.span == None && IsDigit(c)
    ensures var x := 10 * s.m.status + (c - 48);
      if x <= 999 then
        Run(d, Config(s, [c] + rest)) == Run(d, Config(s.(m := s.m.(status := x)), rest))
      else
        Run(d, Config(s, [c] + rest)).s.error == HPE_INVALID_STATUS && Run(d, Config(s, [c] + rest)).input == rest
  {
    StatusNode(s.m, c);
    MulAdd10Exact(s.m.status, c - 48, 0xffff);
    assert ShapeOf(FAIL_INVALID_STATUS).Fail? && ErrorOf(FAIL_INVALID_STATUS) == HPE_INVALID_STATUS;
    hide Run, MulAdd10, ShapeOf, AfterDigit, TakeDigit, IsDigitOf, ErrorOf, MissOf;
    StepNumber(d, s, c, rest);
    if 10 * s.m.status + (c - 48) > 999 {
      StepFail(d, s.(cur := FAIL_INVALID_STATUS, m := TakeDigit(s.cur, s.m, c)), rest);
    }
  }

  /** The digits of a status code. */
  lemma {:induction false} StatusRun(d: Policy, s: Core, w: seq<byte>, rest: seq<byte>)
    requires s.cur == RES_STATUS_CODE && s.error == 0 && s.span == None && AllDigits(w) && s.m.status <= 999
    ensures var k := Fitting(10, 999, s.m.status, DecimalDigits(w));
      if k == |w| then
        Run(d, Config(s, w + rest)) == Run(d, Config(s.(m := s.m.(status := Value(10, s.m.status, DecimalDigits(w)))), rest))
      else
        Run(d, Config(s, w + rest)).s.error == HPE_INVALID_STATUS && Run(d, Config(s, w + rest)).input == w[k + 1..] + rest
    decreases |w|
  {
    hide Run, Value;
    var n, ds := s.m.status, DecimalDigits(w);
    if w == [] {
      ValueNothing(10, n);
      assert w + rest == rest;
    } else {
      var x := 10 * n + ds[0];
      assert w + rest == [w[0]] + (w[1..] + rest);
      assert ds[1..] == DecimalDigits(w[1..]);
      StatusStep(d, s, w[0], w[1..] + rest);
      ValueFront(10, n, ds);
      if x <= 999 {
        StatusRun(d, s.(m := s.m.(status := x)), w[1..], rest);
        var k := Fitting(10, 999, x, ds[1..]);
        if k < |w| - 1 { assert w[1..][k + 1..] == w[k + 2..]; }
      }
    }
  }
}
