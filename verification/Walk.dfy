/** One block of the machine, as an equation between runs. */
module Walk {
  import opened Bytes
  import opened Graph
  import opened Machine
  import opened Strides

  lemma StepSwitch(d: Policy, s: Core, c: byte, rest: seq<byte>)
    requires ShapeOf(s.cur).Switch? && s.error == 0
    ensures var t := Branch(s.cur, c);
      Run(d, Config(s, [c] + rest)) == Run(d,
        if t.over then Config(Gain(s, [c]).(cur := t.next), rest) else Config(s.(cur := t.next), [c] + rest))
  {
    hide Branch;
    assert ([c] + rest)[1..] == rest;
  }

  lemma StepNumber(d: Policy, s: Core, c: byte, rest: seq<byte>)
    requires ShapeOf(s.cur).Number? && s.error == 0
    ensures Run(d, Config(s, [c] + rest)) == Run(d,
      if !IsDigitOf(s.cur, c) then Config(s.(cur := MissOf(s.cur)), [c] + rest)
      else Config(Gain(s, [c]).(cur := AfterDigit(s.cur, s.m, c), m := TakeDigit(s.cur, s.m, c)), rest))
  {
    hide MissOf, AfterDigit, TakeDigit;
    assert ([c] + rest)[1..] == rest;
  }

  lemma StepOpen(d: Policy, s: Core, input: seq<byte>)
    requires ShapeOf(s.cur).Open? && s.error == 0 && input != []
    ensures Run(d, Config(s, input)) ==
      Run(d, Config(Gain(s.(span := Some(KindOf(s.cur))), []).(cur := NextOf(s.cur)), input))
  {
    hide KindOf, NextOf;
  }

  lemma StepClose(d: Policy, s: Core, input: seq<byte>)
    requires ShapeOf(s.cur).Close? && s.error == 0 && (Skips(s.cur) ==> input != [])
    ensures Run(d, Config(s, input)) ==
      Run(d, Config(s.(span := None, cur := NextOf(s.cur)), if Skips(s.cur) then input[1..] else input))
  {
    hide NextOf;
  }

  lemma StepCall(d: Policy, s: Core, input: seq<byte>)
    requires ShapeOf(s.cur).Call? && s.error == 0
    ensures var t := Add(s.trace, EventOf(s.cur, s.m));
      Run(d, Config(s, input)) == Run(d, Config(s.(trace := t, cur := Route(s.cur, d(t))), input))
  {
    hide EventOf, Route;
  }

  lemma StepInvoke(d: Policy, s: Core, input: seq<byte>)
    requires ShapeOf(s.cur).Invoke? && s.error == 0
    ensures Run(d, Config(s, input)) == Run(d, Config(s.(cur := Goto(s.cur, s.m), m := Update(s.cur, s.m)), input))
  {
    hide Goto, Update;
  }

  lemma StepFail(d: Policy, s: Core, input: seq<byte>)
    requires ShapeOf(s.cur).Fail? && s.error == 0 && ErrorOf(s.cur) != 0
    ensures Run(d, Config(s, input)) == Config(s.(error := ErrorOf(s.cur), cur := DEAD), input)
  {
  }

  lemma StepStop(d: Policy, s: Core, input: seq<byte>)
    requires ShapeOf(s.cur).Stop? && s.error == 0
    ensures Run(d, Config(s, input)) == Config(s.(error := HPE_PAUSED_UPGRADE, cur := INVOKE_AFTER_MESSAGE_COMPLETE), input)
  {
    hide ShapeOf, Branch, Goto, Update, Route, EventOf, NextOf, MissOf, AfterDigit, TakeDigit, ErrorOf;
  }

  /** The user never refuses. */
  ghost predicate Accepts(d: Policy) {
    forall t: seq<Event> :: d(t) == 0
  }
}
