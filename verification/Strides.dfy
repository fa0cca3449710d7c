/** Runs of many bytes through one node. */
module Strides {
  import opened Bytes
  import opened Graph
  import opened Machine

  /** The bytes `w` go by. */
  function Gain(s: Core, w: seq<byte>): Core {
    match s.span
    case None => s
    case Some(k) => s.(trace := Add(s.trace, Piece(k, w)))
  }

  lemma GainNothing(s: Core)
    requires SpanShown(s)
    ensures Gain(s, []) == s
  {
    if s.span.Some? { AddNothing(s.trace, s.span.value); }
  }

  lemma GainMore(s: Core, x: seq<byte>, y: seq<byte>)
    ensures Gain(Gain(s, x), y) == Gain(s, x + y)
  {
    if s.span.Some? { AddPieces(s.trace, s.span.value, x, y); }
  }

  lemma GainShown(s: Core, w: seq<byte>)
    ensures SpanShown(Gain(s, w))
  {
  }

  lemma SwitchStep(d: Policy, s: Core, input: seq<byte>)
    requires ShapeOf(s.cur).Switch? && s.error == 0 && input != [] && Branch(s.cur, input[0]) == Turn(s.cur, true)
    ensures Reaches(d, Config(s, input), Config(Gain(s, [input[0]]), input[1..]))
  {
    hide Branch, Reaches;
    ReachesTick(d, Config(s, input));
  }

  lemma ConsumeStep(d: Policy, s: Core, input: seq<byte>)
    requires ShapeOf(s.cur).Consume? && s.error == 0 && input != [] && s.m.length > 0
    ensures Reaches(d, Config(s, input), Config(Gain(s, [input[0]]).(m := s.m.(length := s.m.length - 1)), input[1..]))
  {
    hide Reaches;
    ReachesTick(d, Config(s, input));
  }

  /** A node that steps over each of the next `n` bytes and comes back to itself. */
  lemma {:induction false} LoopReaches(d: Policy, s: Core, input: seq<byte>, n: nat)
    requires ShapeOf(s.cur).Switch? && s.error == 0 && SpanShown(s)
    requires n <= |input| && forall i :: 0 <= i < n ==> Branch(s.cur, input[i]) == Turn(s.cur, true)
    ensures Reaches(d, Config(s, input), Config(Gain(s, input[..n]), input[n..]))
    decreases n
  {
    hide ShapeOf, Branch, Reaches;
    if n == 0 {
      GainNothing(s);
      assert input[..0] == [] && input[0..] == input;
      ReachesSelf(d, Config(s, input));
    } else {
      var c, rest := input[0], input[1..];
      SwitchStep(d, s, input);
      GainShown(s, [c]);
      LoopReaches(d, Gain(s, [c]), rest, n - 1);
      GainMore(s, [c], rest[..n - 1]);
      assert [c] + rest[..n - 1] == input[..n] && rest[n - 1..] == input[n..];
      ReachesOn(d, Config(s, input), Config(Gain(s, [c]), rest), Config(Gain(s, input[..n]), input[n..]));
    }
  }

  lemma Loop(d: Policy, s: Core, input: seq<byte>, n: nat)
    requires ShapeOf(s.cur).Switch? && s.error == 0 && SpanShown(s)
    requires n <= |input| && forall i :: 0 <= i < n ==> Branch(s.cur, input[i]) == Turn(s.cur, true)
    ensures Run(d, Config(s, input)) == Run(d, Config(Gain(s, input[..n]), input[n..]))
  {
    hide ShapeOf, Branch, Reaches, Run;
    LoopReaches(d, s, input, n);
    ReachesRun(d, Config(s, input), Config(Gain(s, input[..n]), input[n..]));
  }

  lemma LoopAll(d: Policy, s: Core, x: seq<byte>, tail: seq<byte>)
    requires ShapeOf(s.cur).Switch? && s.error == 0 && SpanShown(s)
    requires forall i :: 0 <= i < |x| ==> Branch(s.cur, x[i]) == Turn(s.cur, true)
    ensures Run(d, Config(s, x + tail)) == Run(d, Config(Gain(s, x), tail))
  {
    hide ShapeOf, Branch, Run;
    Loop(d, s, x + tail, |x|);
    assert (x + tail)[..|x|] == x && (x + tail)[|x|..] == tail;
  }

  /** The bytes of a body are taken one by one, whatever part of them is at hand. */
  lemma {:induction false} BulkReaches(d: Policy, s: Core, input: seq<byte>, n: nat)
    requires ShapeOf(s.cur).Consume? && s.error == 0 && SpanShown(s)
    requires n <= |input| && n <= s.m.length
    ensures Reaches(d, Config(s, input), Config(Gain(s, input[..n]).(m := s.m.(length := s.m.length - n)), input[n..]))
    decreases n
  {
    hide ShapeOf, Branch, Reaches;
    if n == 0 {
      GainNothing(s);
      assert input[..0] == [] && input[0..] == input;
      ReachesSelf(d, Config(s, input));
    } else {
      var c, rest := input[0], input[1..];
      var t := Gain(s, [c]).(m := s.m.(length := s.m.length - 1));
      ConsumeStep(d, s, input);
      GainShown(s, [c]);
      BulkReaches(d, t, rest, n - 1);
      GainMore(s, [c], rest[..n - 1]);
      assert [c] + rest[..n - 1] == input[..n] && rest[n - 1..] == input[n..];
      assert Gain(t, rest[..n - 1]) == Gain(s, input[..n]).(m := t.m);
      ReachesOn(d, Config(s, input), Config(t, rest),
        Config(Gain(s, input[..n]).(m := s.m.(length := s.m.length - n)), input[n..]));
    }
  }

  lemma Bulk(d: Policy, s: Core, input: seq<byte>, n: nat)
    requires ShapeOf(s.cur).Consume? && s.error == 0 && SpanShown(s)
    requires n <= |input| && n <= s.m.length
    ensures Run(d, Config(s, input))
         == Run(d, Config(Gain(s, input[..n]).(m := s.m.(length := s.m.length - n)), input[n..]))
  {
    hide ShapeOf, Reaches, Run;
    BulkReaches(d, s, input, n);
    ReachesRun(d, Config(s, input), Config(Gain(s, input[..n]).(m := s.m.(length := s.m.length - n)), input[n..]));
  }

  lemma MatchTick(d: Policy, k: Config)
    requires !Halted(k) && ShapeOf(k.s.cur).Match? && Matches(k.s, k.input[0])
    ensures var t := Take(k.s, k.input[0]);
      Tick(d, k) == Config(
        if k.s.index + 1 == |WordOf(k.s.cur)| then t.(index := 0, cur := NextOf(k.s.cur)) else t.(index := k.s.index + 1), k.input[1..])
  {
    hide Take, Matches, NextOf, WordOf;
  }

  lemma MatchStep(d: Policy, s: Core, input: seq<byte>)
    requires ShapeOf(s.cur).Match? && s.error == 0 && input != [] && Matches(s, input[0])
    ensures var t := Gain(s, [input[0]]);
      Reaches(d, Config(s, input), Config(
        if s.index + 1 == |WordOf(s.cur)| then t.(index := 0, cur := NextOf(s.cur)) else t.(index := s.index + 1), input[1..]))
  {
    MatchTick(d, Config(s, input));
    hide Tick, Matches, NextOf, WordOf, Reaches;
    ReachesTick(d, Config(s, input));
  }

  lemma ConsumeEndReaches(d: Policy, s: Core, input: seq<byte>)
    requires ShapeOf(s.cur).Consume? && s.error == 0 && s.m.length == 0
    ensures Reaches(d, Config(s, input), Config(s.(cur := NextOf(s.cur)), input))
  {
    hide Reaches;
    ReachesTick(d, Config(s, input));
  }

  lemma ConsumeEnds(d: Policy, s: Core, input: seq<byte>)
    requires ShapeOf(s.cur).Consume? && s.error == 0 && s.m.length == 0
    ensures Run(d, Config(s, input)) == Run(d, Config(s.(cur := NextOf(s.cur)), input))
  {
    hide ShapeOf, Reaches, Run;
    ConsumeEndReaches(d, s, input);
    ReachesRun(d, Config(s, input), Config(s.(cur := NextOf(s.cur)), input));
  }

  lemma MatchBreakReaches(d: Policy, s: Core, input: seq<byte>)
    requires ShapeOf(s.cur).Match? && s.error == 0 && input != [] && !Matches(s, input[0])
    ensures Reaches(d, Config(s, input), Config(s.(index := 0, cur := MissOf(s.cur)), input))
  {
    hide Reaches;
    ReachesTick(d, Config(s, input));
  }

  lemma MatchBreaks(d: Policy, s: Core, input: seq<byte>)
    requires ShapeOf(s.cur).Match? && s.error == 0 && input != [] && !Matches(s, input[0])
    ensures Run(d, Config(s, input)) == Run(d, Config(s.(index := 0, cur := MissOf(s.cur)), input))
  {
    hide ShapeOf, Reaches, Run, Matches;
    MatchBreakReaches(d, s, input);
    ReachesRun(d, Config(s, input), Config(s.(index := 0, cur := MissOf(s.cur)), input));
  }

  /** The bytes `w` go on with the word of the node, from the place reached so far. */
  predicate Agrees(s: Core, w: seq<byte>) {
    && s.index + |w| <= |WordOf(s.cur)|
    && forall i :: 0 <= i < |w| ==> FoldByte(FoldOf(s.cur), w[i]) == WordOf(s.cur)[s.index + i]
  }

  lemma AgreesRest(s: Core, w: seq<byte>)
    requires w != [] && Agrees(s, w)
    ensures Matches(s, w[0])
    ensures forall t: Core :: t.cur == s.cur && t.index == s.index + 1 ==> Agrees(t, w[1..])
  {
    assert FoldByte(FoldOf(s.cur), w[0]) == WordOf(s.cur)[s.index + 0];
    forall t: Core | t.cur == s.cur && t.index == s.index + 1 ensures Agrees(t, w[1..]) {
      forall i | 0 <= i < |w[1..]| ensures FoldByte(FoldOf(t.cur), w[1..][i]) == WordOf(t.cur)[t.index + i] {
        assert w[1..][i] == w[i + 1];
        assert FoldByte(FoldOf(s.cur), w[i + 1]) == WordOf(s.cur)[s.index + (i + 1)];
      }
    }
  }

  /** The place in the word, or behind it, that the bytes `w` lead to. */
  function Spelled(s: Core, w: seq<byte>): Core {
    var t := Gain(s, w);
    if s.index + |w| == |WordOf(s.cur)| then t.(index := 0, cur := NextOf(s.cur)) else t.(index := s.index + |w|)
  }

  /** A word is matched byte by byte, and leads on when it is whole. */
  lemma {:induction false} SpellReaches(d: Policy, s: Core, w: seq<byte>, rest: seq<byte>)
    requires ShapeOf(s.cur).Match? && s.error == 0 && SpanShown(s)
    requires Agrees(s, w) && s.index < |WordOf(s.cur)|
    ensures Reaches(d, Config(s, w + rest), Config(Spelled(s, w), rest))
    decreases |w|
  {
    hide ShapeOf, WordOf, NextOf, FoldOf, Reaches;
    if w == [] {
      GainNothing(s);
      assert w + rest == rest;
      ReachesSelf(d, Config(s, rest));
    } else {
      AgreesRest(s, w);
      assert (w + rest)[0] == w[0] && (w + rest)[1..] == w[1..] + rest;
      MatchStep(d, s, w + rest);
      if |w| > 1 {
        var t := Gain(s, [w[0]]).(index := s.index + 1);
        GainShown(s, [w[0]]);
        SpellReaches(d, t, w[1..], rest);
        GainMore(s, [w[0]], w[1..]);
        assert [w[0]] + w[1..] == w;
        ReachesOn(d, Config(s, w + rest), Config(t, w[1..] + rest), Config(Spelled(s, w), rest));
      } else {
        assert w == [w[0]] && w[1..] + rest == rest;
      }
    }
  }

  lemma Spell(d: Policy, s: Core, w: seq<byte>, rest: seq<byte>)
    requires ShapeOf(s.cur).Match? && s.error == 0 && SpanShown(s)
    requires Agrees(s, w) && s.index < |WordOf(s.cur)|
    ensures var t := Gain(s, w);
      Run(d, Config(s, w + rest)) == Run(d, Config(
        if s.index + |w| == |WordOf(s.cur)| then t.(index := 0, cur := NextOf(s.cur)) else t.(index := s.index + |w|), rest))
  {
    hide ShapeOf, WordOf, NextOf, FoldOf, Reaches, Run, Agrees;
    SpellReaches(d, s, w, rest);
    ReachesRun(d, Config(s, w + rest), Config(Spelled(s, w), rest));
  }
}
