/** What each kind of block comes to, on as many bytes as it takes at once. */
module Effects {
  import opened Bytes
  import opened Graph
  import opened Machine
  import opened Soundness
  import opened Strides

  /** From `k` the machine comes to `t`, which is sound and further on, and the run is the same. */
  ghost predicate Leads(d: Policy, k: Config, t: Config) {
    && Sound(t)
    && Reaches(d, k, t) && Run(d, t) == Run(d, k)
    && (|t.input| < |k.input| || t.s.cur < k.s.cur)
  }

  lemma TickLeads(d: Policy, k: Config)
    requires Sound(k) && !Halted(k)
    ensures Leads(d, k, Tick(d, k))
  {
    hide Tick, Sound, Reaches, Halted;
    TickSound(d, k);
    TickDescends(d, k);
    ReachesTick(d, k);
  }

  lemma ReachesLeads(d: Policy, k: Config, t: Config)
    requires Reaches(d, k, t) && Sound(t) && (|t.input| < |k.input| || t.s.cur < k.s.cur)
    ensures Leads(d, k, t)
  {
    hide Run, Sound, Reaches;
    ReachesRun(d, k, t);
  }

  lemma SwitchLeads(d: Policy, s: Core, input: seq<byte>)
    requires Sound(Config(s, input)) && s.error == 0 && ShapeOf(s.cur).Switch? && input != []
    ensures var t := Branch(s.cur, input[0]);
      Leads(d, Config(s, input),
        if t.over then Config(Gain(s, [input[0]]).(cur := t.next), input[1..]) else Config(s.(cur := t.next), input))
  {
    TickLeads(d, Config(s, input));
    hide Leads, Branch;
  }

  lemma NumberLeads(d: Policy, s: Core, input: seq<byte>)
    requires Sound(Config(s, input)) && s.error == 0 && ShapeOf(s.cur).Number? && input != []
    ensures var c := input[0];
      Leads(d, Config(s, input),
        if !IsDigitOf(s.cur, c) then Config(s.(cur := MissOf(s.cur)), input)
        else Config(Gain(s, [c]).(cur := AfterDigit(s.cur, s.m, c), m := TakeDigit(s.cur, s.m, c)), input[1..]))
  {
    TickLeads(d, Config(s, input));
    hide Leads, AfterDigit, TakeDigit;
  }

  lemma OpenLeads(d: Policy, s: Core, input: seq<byte>)
    requires Sound(Config(s, input)) && s.error == 0 && ShapeOf(s.cur).Open? && input != []
    ensures s.span == None
    ensures Leads(d, Config(s, input), Config(Gain(s.(span := Some(KindOf(s.cur))), []).(cur := NextOf(s.cur)), input))
  {
    TickLeads(d, Config(s, input));
    SpanEdgeKeeps(s.cur);
    hide Leads, KindOf, NextOf;
  }

  lemma CloseLeads(d: Policy, s: Core, input: seq<byte>)
    requires Sound(Config(s, input)) && s.error == 0 && ShapeOf(s.cur).Close?
    ensures s.span.Some? && (Skips(s.cur) ==> input != [])
    ensures Leads(d, Config(s, input),
              Config(s.(span := None, cur := NextOf(s.cur)), if Skips(s.cur) then input[1..] else input))
  {
    TickLeads(d, Config(s, input));
    SpanEdgeKeeps(s.cur);
    hide Leads, NextOf;
  }

  lemma CallLeads(d: Policy, s: Core, input: seq<byte>)
    requires Sound(Config(s, input)) && s.error == 0 && ShapeOf(s.cur).Call?
    ensures s.span == None
    ensures var t := Add(s.trace, EventOf(s.cur, s.m));
      Leads(d, Config(s, input), Config(s.(trace := t, cur := Route(s.cur, d(t))), input))
  {
    TickLeads(d, Config(s, input));
    CallKeeps(s.cur, 0);
    hide Leads, EventOf, Route;
  }

  lemma InvokeLeads(d: Policy, s: Core, input: seq<byte>)
    requires Sound(Config(s, input)) && s.error == 0 && ShapeOf(s.cur).Invoke?
    ensures Leads(d, Config(s, input), Config(s.(cur := Goto(s.cur, s.m), m := Update(s.cur, s.m)), input))
  {
    TickLeads(d, Config(s, input));
    hide Leads, Goto, Update;
  }

  lemma FailStops(d: Policy, s: Core, input: seq<byte>)
    requires Sound(Config(s, input)) && s.error == 0 && ShapeOf(s.cur).Fail?
    ensures var t := Config(s.(error := ErrorOf(s.cur), cur := DEAD), input);
      0 < ErrorOf(s.cur) < HPE_PAUSED && Sound(t) && Run(d, Config(s, input)) == t
  {
    TickSound(d, Config(s, input));
  }

  lemma StopStops(d: Policy, s: Core, input: seq<byte>)
    requires Sound(Config(s, input)) && s.error == 0 && ShapeOf(s.cur).Stop?
    ensures var t := Config(s.(error := HPE_PAUSED_UPGRADE, cur := INVOKE_AFTER_MESSAGE_COMPLETE), input);
      Sound(t) && Sound(Config(t.s, [])) && Rests(t.s.cur) && s.span == None && Run(d, Config(s, input)) == t
  {
    TickSound(d, Config(s, input));
  }

  /** Bytes that go by leave a sound state sound. */
  lemma GainSound(s: Core, w: seq<byte>, before: seq<byte>, after: seq<byte>)
    requires Sound(Config(s, before)) && s.error == 0 && !Skips(s.cur)
    ensures Sound(Config(Gain(s, w), after)) && SpanShown(s)
  {
    hide ShapeOf, WordOf, Skips;
  }

  /** A scan over bytes that a switch steps over and stays at. */
  lemma LoopLeads(d: Policy, s: Core, input: seq<byte>, n: nat)
    requires Sound(Config(s, input)) && s.error == 0 && ShapeOf(s.cur).Switch?
    requires 0 < n <= |input| && forall i :: 0 <= i < n ==> Branch(s.cur, input[i]) == Turn(s.cur, true)
    ensures Leads(d, Config(s, input), Config(Gain(s, input[..n]), input[n..]))
  {
    assert !Skips(s.cur);
    hide ShapeOf, Branch, Skips, Sound, Run, Reaches;
    GainSound(s, input[..n], input, input[n..]);
    LoopReaches(d, s, input, n);
    ReachesLeads(d, Config(s, input), Config(Gain(s, input[..n]), input[n..]));
  }

  lemma MatchPlaces(s: Core, input: seq<byte>, i: nat)
    requires Sound(Config(s, input)) && ShapeOf(s.cur).Match?
    ensures !Skips(s.cur) && s.index < |WordOf(s.cur)|
    ensures i < |WordOf(s.cur)| ==> Sound(Config(s.(index := i), input))
    ensures Sound(Config(s.(index := 0, cur := NextOf(s.cur)), input))
    ensures Sound(Config(s.(index := 0, cur := MissOf(s.cur)), input))
    ensures MissOf(s.cur) < s.cur
  {
    WholePlain(s.cur);
    BrokenPlain(s.cur);
    WholeKeeps(s.cur);
    BrokenKeeps(s.cur);
    EdgeDescends(s.cur, 0);
  }

  /** What the match of `w` comes to when it agrees with the word: the whole word, a place in it, or a break at the next byte. */
  lemma MatchLeads(d: Policy, s: Core, w: seq<byte>, rest: seq<byte>)
    requires Sound(Config(s, w + rest)) && s.error == 0 && ShapeOf(s.cur).Match? && w + rest != []
    requires Agrees(s, w)
    ensures var t, i := Gain(s, w), s.index + |w|;
      && (i == |WordOf(s.cur)| ==>
            Leads(d, Config(s, w + rest), Config(t.(index := 0, cur := NextOf(s.cur)), rest)))
      && (i < |WordOf(s.cur)| && w != [] ==>
            Leads(d, Config(s, w + rest), Config(t.(index := i), rest)))
      && (i < |WordOf(s.cur)| && rest != [] && FoldByte(FoldOf(s.cur), rest[0]) != WordOf(s.cur)[i] ==>
            Leads(d, Config(s, w + rest), Config(t.(index := 0, cur := MissOf(s.cur)), rest)))
  {
    hide ShapeOf, WordOf, FoldOf, NextOf, MissOf, Skips, Sound, Run, Reaches, Leads;
    var t, i, k := Gain(s, w), s.index + |w|, Config(s, w + rest);
    MatchPlaces(s, w + rest, 0);
    GainSound(s, w, w + rest, rest);
    MatchPlaces(t, rest, i);
    SpellReaches(d, s, w, rest);
    if i == |WordOf(s.cur)| || w != [] { ReachesLeads(d, k, Config(Spelled(s, w), rest)); }
    if i < |WordOf(s.cur)| && rest != [] && FoldByte(FoldOf(s.cur), rest[0]) != WordOf(s.cur)[i] {
      var u := Config(t.(index := 0, cur := MissOf(s.cur)), rest);
      MatchBreakReaches(d, t.(index := i), rest);
      ReachesOn(d, k, Config(t.(index := i), rest), u);
      ReachesLeads(d, k, u);
    }
  }

  lemma ConsumeEdge(n: Node)
    requires ShapeOf(n).Consume?
    ensures !Skips(n) && !NeedsLength(n) && !ShapeOf(NextOf(n)).Match? && n != DEAD
    ensures Keeps(n, NextOf(n)) && Plain(NextOf(n)) && NextOf(n) < n
  {
    EdgePlain(n);
    EdgeKeeps(n);
    EdgeDescends(n, 0);
  }

  lemma ConsumePlaces(s: Core, input: seq<byte>, n: nat)
    requires Sound(Config(s, input)) && ShapeOf(s.cur).Consume? && n <= MAX_UINT64
    ensures !Skips(s.cur) && s.m.length <= MAX_UINT64
    ensures Sound(Config(s.(m := s.m.(length := n)), input))
    ensures Sound(Config(s.(m := s.m.(length := n), cur := NextOf(s.cur)), input))
    ensures NextOf(s.cur) < s.cur
  {
    ConsumeEdge(s.cur);
    hide ShapeOf, NextOf, Skips, WordOf, SpanOf, FinishOf;
  }

  /** What consuming `n` bytes comes to: the rest of the body is still owed, or there is none. */
  lemma ConsumeLeads(d: Policy, s: Core, input: seq<byte>, n: nat)
    requires Sound(Config(s, input)) && s.error == 0 && ShapeOf(s.cur).Consume?
    requires n <= |input| && n <= s.m.length
    ensures var t := Gain(s, input[..n]);
      && (n == s.m.length ==>
            Leads(d, Config(s, input), Config(t.(m := s.m.(length := 0), cur := NextOf(s.cur)), input[n..])))
      && (0 < n ==> Leads(d, Config(s, input), Config(t.(m := s.m.(length := s.m.length - n)), input[n..])))
  {
    hide ShapeOf, NextOf, Skips, Sound, Run, Reaches, Leads;
    var t, k := Gain(s, input[..n]), Config(s, input);
    var u := Config(t.(m := s.m.(length := s.m.length - n)), input[n..]);
    ConsumePlaces(s, input, 0);
    GainSound(s, input[..n], input, input[n..]);
    ConsumePlaces(t, input[n..], s.m.length - n);
    ConsumePlaces(t, input[n..], 0);
    BulkReaches(d, s, input, n);
    if 0 < n { ReachesLeads(d, k, u); }
    if n == s.m.length {
      ConsumeEndReaches(d, u.s, input[n..]);
      ReachesOn(d, k, u, Config(u.s.(cur := NextOf(s.cur)), input[n..]));
      ReachesLeads(d, k, Config(u.s.(cur := NextOf(s.cur)), input[n..]));
    }
  }
}
