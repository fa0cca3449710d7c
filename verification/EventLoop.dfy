/**
 The queue of functors of an event loop, as a machine whose steps are the atomic reads and writes of the
 loop thread and of any number of other threads. Thread 0 is the loop thread; the others post
 functors and ask the loop to quit. A functor is known by a number.
 */
module EventLoop {

  type Functor = nat

  /** Where the loop thread is in `loop`, between two of its steps. */
  datatype Place =
    | Before                          // not in loop() yet
    | Testing                         // about to read quit_
    | Polling                         // about to call poll
    | Handling(wakeup: bool)          // running handlers; `wakeup`: handleRead is still to run
    | Locking                         // about to lock the mutex of doPendingFunctors
    | Swapping                        // inside that lock, about to swap
    | Unlocking                       // inside that lock, after the swap
    | Starting                        // about to set callingPendingFunctors_
    | Calling                         // running the functors of the batch
    | Left                            // loop() has returned

  /** Where a thread is in `queueInLoop` or `quit`. */
  datatype Stage =
    | Out
    | Locked(f: Functor)              // holds the mutex, about to push
    | Pushed                          // holds the mutex, about to write to the eventfd
    | Leaving                         // holds the mutex, about to release it
    | Quitting                        // has set quit_, about to write to the eventfd

  datatype State = State(
    place: Place,
    quit: bool,
    calling: bool,
    pending: seq<Functor>,            // pendingFunctors_
    batch: seq<Functor>,              // the functors swapped out and not yet run
    counter: nat,                     // of the eventfd
    mutexFree: bool,
    threads: seq<Stage>,
    // history
    executed: seq<Functor>,
    pushed: seq<Functor>,
    limit: nat,                       // how many functors had been pushed at the last swap
    early: bool,                      // the loop thread has queued before loop(), and that is still pending
    polls: nat,                       // how often poll was entered
    quitDone: bool)                   // some quit() of another thread has returned

  datatype Action =
    | Enter | Test | Poll | Read | Handled | Lock | Swap | Unlock | Start | Call | Finish
    | Queue(t: nat, f: Functor) | Push(t: nat) | Wake(t: nat) | Release(t: nat)
    | SetQuit(t: nat) | WakeQuit(t: nat)

  function Init(n: nat): State
    requires n > 0
  {
    State(Before, false, false, [], [], 0, true, seq(n, _ => Out), [], [], 0, false, 0, false)
  }

  /** The loop thread runs code of the user: before loop(), in handlers, and in functors. */
  predicate InUserCode(s: State) {
    s.place.Before? || s.place.Handling? || s.place.Calling?
  }

  predicate Enabled(s: State, a: Action) {
    && |s.threads| > 0
    && match a
       case Queue(t, _) => t < |s.threads| && s.threads[t].Out? && s.mutexFree && (t == 0 ==> InUserCode(s))
       case Push(t) => t < |s.threads| && s.threads[t].Locked?
       case Wake(t) => t < |s.threads| && s.threads[t].Pushed?
       case Release(t) => t < |s.threads| && s.threads[t].Leaving?
       case SetQuit(t) => t < |s.threads| && s.threads[t].Out? && (t == 0 ==> InUserCode(s))
       case WakeQuit(t) => t < |s.threads| && s.threads[t].Quitting?
       case _ => s.threads[0].Out? && LoopEnabled(s, a)
  }

  /** The steps of the loop thread outside of user code. Poll returns at any time: for other events, or by its timeout. */
  predicate LoopEnabled(s: State, a: Action) {
    match a
    case Enter => s.place.Before?
    case Test => s.place.Testing?
    case Poll => s.place.Polling?
    case Read => s.place == Handling(true)
    case Handled => s.place == Handling(false)
    case Lock => s.place.Locking? && s.mutexFree
    case Swap => s.place.Swapping?
    case Unlock => s.place.Unlocking?
    case Start => s.place.Starting?
    case Call => s.place.Calling? && s.batch != []
    case Finish => s.place.Calling? && s.batch == []
    case _ => false
  }

  function Next(s: State, a: Action): State
    requires Enabled(s, a)
  {
    match a
    case Enter => s.(place := Testing)
    case Test => if s.quit then s.(place := Left) else s.(place := Polling, polls := s.polls + 1)
    case Poll => s.(place := Handling(s.counter > 0))
    case Read => s.(place := Handling(false), counter := 0)
    case Handled => s.(place := Locking)
    case Lock => s.(place := Swapping, mutexFree := false)
    case Swap => s.(place := Unlocking, batch := s.pending, pending := [], limit := |s.pushed|, early := false)
    case Unlock => s.(place := Starting, mutexFree := true)
    case Start => s.(place := Calling, calling := true)
    case Call => s.(executed := s.executed + [s.batch[0]], batch := s.batch[1..])
    case Finish => s.(place := Testing, calling := false)
    case Queue(t, f) => s.(threads := s.threads[t := Locked(f)], mutexFree := false)
    case Push(t) =>
      var f := s.threads[t].f;
      s.(pending := s.pending + [f], pushed := s.pushed + [f],
         threads := s.threads[t := if t != 0 || s.calling then Pushed else Leaving],
         early := s.early || (t == 0 && s.place.Before?))
    case Wake(t) => s.(counter := s.counter + 1, threads := s.threads[t := Leaving])
    case Release(t) => s.(mutexFree := true, threads := s.threads[t := Out])
    case SetQuit(t) => s.(quit := true, threads := if t == 0 then s.threads else s.threads[t := Quitting])
    case WakeQuit(t) => s.(counter := s.counter + 1, threads := s.threads[t := Out], quitDone := true)
  }

  predicate Possible(s: State, actions: seq<Action>)
    decreases |actions|
  {
    actions == [] || (Enabled(s, actions[0]) && Possible(Next(s, actions[0]), actions[1..]))
  }

  function After(s: State, actions: seq<Action>): State
    requires Possible(s, actions)
    decreases |actions|
  {
    if actions == [] then s else After(Next(s, actions[0]), actions[1..])
  }

  predicate InSection(g: Stage) {
    g.Locked? || g.Pushed? || g.Leaving?
  }

  /** The mutex excludes: one thread at most is inside, and it is the one that took it. */
  ghost predicate Exclusion(s: State) {
    && (s.mutexFree ==> !s.place.Swapping? && !s.place.Unlocking?)
    && (forall t :: 0 <= t < |s.threads| && InSection(s.threads[t]) ==>
          !s.mutexFree && !s.place.Swapping? && !s.place.Unlocking?)
    && (forall t, u :: 0 <= t < u < |s.threads| && InSection(s.threads[t]) ==> !InSection(s.threads[u]))
  }

  /** Where the loop thread is, its own stage and the flag agree. */
  ghost predicate Placed(s: State) {
    && |s.threads| > 0 && !s.threads[0].Quitting?
    && (s.calling <==> s.place.Calling?)
    && (!InUserCode(s) ==> s.threads[0].Out?)
  }

  /** First in, first out, each once: what ran, what is left of the batch, and what is pending are all that was pushed. */
  ghost predicate Fifo(s: State) {
    && s.executed + s.batch + s.pending == s.pushed
    && (s.batch != [] ==> s.place.Unlocking? || s.place.Starting? || s.place.Calling?)
    && (s.place.Unlocking? || s.place.Starting? || s.place.Calling? ==> |s.executed| + |s.batch| == s.limit)
    && s.limit <= |s.pushed|
  }

  /** Between the swap of one iteration and the wakeup read of the next, nothing may be pending unnoticed. */
  predicate Watched(p: Place) {
    !p.Locking? && !p.Swapping? && !p.Left? && p != Handling(false)
  }

  ghost predicate SomeoneWakes(s: State) {
    exists t :: 0 <= t < |s.threads| && s.threads[t].Pushed?
  }

  /** No lost wakeup. */
  ghost predicate Noticed(s: State) {
    && (Watched(s.place) && s.pending != [] ==> s.counter > 0 || SomeoneWakes(s) || s.early)
    && (s.place == Handling(true) ==> s.counter > 0)
    && (s.early ==> !s.place.Unlocking? && !s.place.Starting? && !s.place.Calling?)
  }

  /** A quit() of another thread that has returned is not slept through. */
  ghost predicate QuitSeen(s: State) {
    && (s.quitDone ==> s.quit)
    && (forall t :: 0 <= t < |s.threads| && s.threads[t].Quitting? ==> s.quit)
    && (s.quitDone && s.place.Polling? ==> s.counter > 0)
  }

  ghost predicate Inv(s: State) {
    Exclusion(s) && Placed(s) && Fifo(s) && Noticed(s) && QuitSeen(s)
  }

  lemma NextExclusion(s: State, a: Action)
    requires Inv(s) && Enabled(s, a)
    ensures Exclusion(Next(s, a)) && Placed(Next(s, a))
  {
  }

  lemma NextFifo(s: State, a: Action)
    requires Inv(s) && Enabled(s, a)
    ensures Fifo(Next(s, a))
  {
  }

  lemma NextNoticed(s: State, a: Action)
    requires Inv(s) && Enabled(s, a)
    ensures Noticed(Next(s, a))
  {
    var n := Next(s, a);
    if SomeoneWakes(s) {
      var t :| 0 <= t < |s.threads| && s.threads[t].Pushed?;
      assert a == Wake(t) || n.threads[t].Pushed?;
    }
    if a.Push? { assert n.threads[a.t] == if a.t != 0 || s.calling then Pushed else Leaving; }
  }

  lemma NextQuitSeen(s: State, a: Action)
    requires Inv(s) && Enabled(s, a)
    ensures QuitSeen(Next(s, a))
  {
  }

  lemma InitInv(n: nat)
    requires n > 0
    ensures Inv(Init(n))
  {
  }

  /** Every interleaving keeps the invariant. */
  lemma {:induction false} Reachable(s: State, actions: seq<Action>)
    requires Inv(s) && Possible(s, actions)
    ensures Inv(After(s, actions))
    decreases |actions|
  {
    if actions != [] {
      hide Inv, Enabled, Next;
      NextKeeps(s, actions[0]);
      Reachable(Next(s, actions[0]), actions[1..]);
    }
  }

  lemma NextKeeps(s: State, a: Action)
    requires Inv(s) && Enabled(s, a)
    ensures Inv(Next(s, a))
  {
    hide Exclusion, Placed, Fifo, Noticed, QuitSeen, Enabled, Next;
    NextExclusion(s, a);
    NextFifo(s, a);
    NextNoticed(s, a);
    NextQuitSeen(s, a);
  }

  /** The loop thread would sleep in poll. */
  predicate Blocks(s: State) {
    s.place.Polling? && s.counter == 0
  }

  /** Nobody is between a push and its wakeup. */
  ghost predicate Settled(s: State) {
    forall t :: 0 <= t < |s.threads| ==> !s.threads[t].Pushed?
  }

  /**
   No lost wakeup, in every interleaving: when the loop thread would sleep with functors pending, then
   the thread that pushed is about to write to the eventfd, or the loop thread itself had queued
   before it entered the loop.
   */
  lemma NoLostWakeup(n: nat, actions: seq<Action>)
    requires n > 0 && Possible(Init(n), actions)
    ensures var s := After(Init(n), actions);
      Blocks(s) && s.pending != [] ==> s.early || !Settled(s)
  {
    hide Exclusion, Fifo, Placed, QuitSeen;
    InitInv(n);
    Reachable(Init(n), actions);
    var s := After(Init(n), actions);
    if SomeoneWakes(s) {
      var t :| 0 <= t < |s.threads| && s.threads[t].Pushed?;
      assert !Settled(s);
    }
  }

  /** And that thread can take its step whatever the others do, after which poll does not sleep. */
  lemma WakerWakes(s: State, t: nat)
    requires Inv(s) && Blocks(s) && t < |s.threads| && s.threads[t].Pushed?
    ensures Enabled(s, Wake(t)) && !Blocks(Next(s, Wake(t)))
  {
  }

  /** Functors run in the order in which they were pushed, each at most once. */
  lemma FirstInFirstOut(n: nat, actions: seq<Action>)
    requires n > 0 && Possible(Init(n), actions)
    ensures var s := After(Init(n), actions);
      s.executed + s.batch + s.pending == s.pushed
  {
    hide Exclusion, Noticed, Placed, QuitSeen;
    InitInv(n);
    Reachable(Init(n), actions);
  }

  /** Until the next swap no functor joins the batch, and what was pushed keeps its place. */
  lemma {:induction false} BatchIsFixed(s: State, actions: seq<Action>)
    requires Possible(s, actions) && Swap !in actions
    ensures var r := After(s, actions);
      |r.executed| + |r.batch| == |s.executed| + |s.batch| && s.pushed <= r.pushed
    decreases |actions|
  {
    if actions != [] {
      NextKeepsBatch(s, actions[0]);
      hide Enabled, Next;
      BatchIsFixed(Next(s, actions[0]), actions[1..]);
    }
  }

  lemma NextKeepsBatch(s: State, a: Action)
    requires Enabled(s, a) && a != Swap
    ensures |Next(s, a).executed| + |Next(s, a).batch| == |s.executed| + |s.batch| && s.pushed <= Next(s, a).pushed
  {
    match a
    case Call =>
    case Push(t) =>
    case _ => OthersKeepBatch(s, a);
  }

  lemma OthersKeepBatch(s: State, a: Action)
    requires Enabled(s, a) && a != Swap && a != Call && !a.Push?
    ensures Next(s, a).executed == s.executed && Next(s, a).batch == s.batch && Next(s, a).pushed == s.pushed
  {
    match a
    case Queue(_, _) =>
    case Wake(_) =>
    case Release(_) =>
    case SetQuit(_) =>
    case WakeQuit(_) =>
    case Test =>
    case _ =>
  }

  /**
   A functor that is pushed while a batch runs is not in that batch: whatever the threads do until
   the next swap, all functors that have run were pushed before it.
   */
  lemma NotInThisBatch(n: nat, actions: seq<Action>, t: nat, more: seq<Action>)
    requires n > 0 && Possible(Init(n), actions) && Enabled(After(Init(n), actions), Push(t))
    requires After(Init(n), actions).place.Calling?
    requires Possible(Next(After(Init(n), actions), Push(t)), more) && Swap !in more
    ensures var s := After(Init(n), actions);
      var r := After(Next(s, Push(t)), more);
      |r.executed| <= |s.pushed| < |r.pushed| && r.pushed[|s.pushed|] == s.threads[t].f
  {
    hide Exclusion, Noticed, Placed, QuitSeen;
    InitInv(n);
    Reachable(Init(n), actions);
    var s := After(Init(n), actions);
    BatchIsFixed(Next(s, Push(t)), more);
  }

  /** Once a quit() of another thread has returned, poll does not sleep again. */
  lemma QuitDoesNotSleep(n: nat, actions: seq<Action>)
    requires n > 0 && Possible(Init(n), actions)
    ensures After(Init(n), actions).quitDone ==> !Blocks(After(Init(n), actions))
  {
    hide Exclusion, Noticed, Placed, Fifo;
    InitInv(n);
    Reachable(Init(n), actions);
  }

  /** Once quit_ is set, poll is not entered again: the iteration at hand is the last. */
  lemma {:induction false} LastIteration(s: State, actions: seq<Action>)
    requires s.quit && Possible(s, actions)
    ensures After(s, actions).quit && After(s, actions).polls == s.polls
    decreases |actions|
  {
    if actions != [] {
      QuitStays(s, actions[0]);
      hide Enabled, Next;
      LastIteration(Next(s, actions[0]), actions[1..]);
    }
  }

  lemma QuitStays(s: State, a: Action)
    requires s.quit && Enabled(s, a)
    ensures Next(s, a).quit && Next(s, a).polls == s.polls
  {
  }

  /** Nobody else holds the mutex, and the loop thread is not inside queueInLoop. */
  predicate Alone(s: State) {
    |s.threads| > 0 && s.threads[0].Out? && (s.mutexFree || s.place.Swapping? || s.place.Unlocking?)
  }

  /** The step of the loop thread outside of user code. */
  function Step(s: State): Action {
    match s.place
    case Before => Enter
    case Testing => Test
    case Polling => Poll
    case Handling(wakeup) => if wakeup then Read else Handled
    case Locking => Lock
    case Swapping => Swap
    case Unlocking => Unlock
    case Starting => Start
    case _ => if s.batch == [] then Finish else Call
  }

  /** The thread that takes a step. */
  function Actor(a: Action): nat {
    match a
    case Queue(t, _) => t
    case Push(t) => t
    case Wake(t) => t
    case Release(t) => t
    case SetQuit(t) => t
    case WakeQuit(t) => t
    case _ => 0
  }

  /** The step of a thread inside queueInLoop or quit. */
  function StageStep(g: Stage, t: nat): Action
    requires !g.Out?
  {
    match g
    case Locked(_) => Push(t)
    case Pushed => Wake(t)
    case Leaving => Release(t)
    case Quitting => WakeQuit(t)
  }

  /** A thread inside queueInLoop or quit goes on with it, and can; user code apart, the loop thread has no choice. */
  lemma OnlyStep(s: State, a: Action)
    requires Inv(s) && Enabled(s, a)
    ensures var t := Actor(a);
      && t < |s.threads| && (!s.threads[t].Out? ==> a == StageStep(s.threads[t], t))
      && (t == 0 && s.threads[0].Out? ==> a == Step(s) || (InUserCode(s) && (a.Queue? || a.SetQuit?)))
  {
  }

  lemma GoesOn(s: State, t: nat)
    requires t < |s.threads| && !s.threads[t].Out?
    ensures Enabled(s, StageStep(s.threads[t], t))
  {
  }

  /** No deadlock: until the loop thread has left, it can go on, or the thread that holds the mutex can. */
  lemma NeverStuck(n: nat, actions: seq<Action>)
    requires n > 0 && Possible(Init(n), actions)
    ensures var s := After(Init(n), actions);
      s.place.Left? || exists a :: Enabled(s, a) && (Actor(a) == 0 || InSection(s.threads[Actor(a)]))
  {
    InitInv(n);
    Reachable(Init(n), actions);
    InitHeld(n);
    HeldReachable(Init(n), actions);
    if !After(Init(n), actions).place.Left? { StuckNowhere(After(Init(n), actions)); }
  }

  /** A taken mutex is held by somebody. */
  ghost predicate Held(s: State) {
    s.mutexFree || s.place.Swapping? || s.place.Unlocking? || exists t :: 0 <= t < |s.threads| && InSection(s.threads[t])
  }

  lemma InitHeld(n: nat)
    requires n > 0
    ensures Held(Init(n))
  {
  }

  lemma NextHeld(s: State, a: Action)
    requires Inv(s) && Held(s) && Enabled(s, a)
    ensures Held(Next(s, a))
  {
    var n := Next(s, a);
    if Actor(a) < |s.threads| && InSection(n.threads[Actor(a)]) {
      assert Held(n);
    } else if t :| 0 <= t < |s.threads| && InSection(s.threads[t]) {
      assert t != Actor(a) ==> n.threads[t] == s.threads[t];
    }
  }

  lemma {:induction false} HeldReachable(s: State, actions: seq<Action>)
    requires Inv(s) && Held(s) && Possible(s, actions)
    ensures Held(After(s, actions))
    decreases |actions|
  {
    if actions != [] {
      hide Inv, Held, Enabled, Next;
      NextKeeps(s, actions[0]);
      NextHeld(s, actions[0]);
      HeldReachable(Next(s, actions[0]), actions[1..]);
    }
  }

  lemma StuckNowhere(s: State)
    requires Inv(s) && Held(s) && !s.place.Left?
    ensures exists a :: Enabled(s, a) && (Actor(a) == 0 || InSection(s.threads[Actor(a)]))
  {
    if !s.threads[0].Out? {
      GoesOn(s, 0);
      assert Actor(StageStep(s.threads[0], 0)) == 0;
    } else if s.place.Locking? && !s.mutexFree {
      var t :| 0 <= t < |s.threads| && InSection(s.threads[t]);
      GoesOn(s, t);
      assert Actor(StageStep(s.threads[t], t)) == t;
    } else {
      assert Enabled(s, Step(s)) && Actor(Step(s)) == 0;
    }
  }

  function Distance(p: Place): nat {
    match p
    case Left => 0
    case Testing => 1
    case Before => 2
    case Calling => 2
    case Starting => 3
    case Unlocking => 4
    case Swapping => 5
    case Locking => 6
    case Handling(wakeup) => if wakeup then 8 else 7
    case Polling => 9
  }

  lemma StepsOn(s: State)
    requires Alone(s) && s.quit && !s.place.Left?
    ensures Enabled(s, Step(s))
    ensures var n := Next(s, Step(s));
      && Alone(n) && n.quit && n.polls == s.polls && n.pushed == s.pushed
      && (Distance(n.place) < Distance(s.place) || (n.place == s.place && |n.batch| < |s.batch|))
  {
    match s.place
    case Swapping =>
    case Handling(wakeup) =>
    case Calling => if s.batch == [] { assert Step(s) == Finish; }
    case _ =>
  }

  /** The way out of the loop. */
  function WayOut(s: State): seq<Action>
    requires Alone(s) && s.quit
    decreases Distance(s.place), |s.batch|
  {
    if s.place.Left? then [] else StepsOn(s); [Step(s)] + WayOut(Next(s, Step(s)))
  }

  /**
   Left alone once quit_ is set, the loop thread leaves: from wherever it is, without poll being
   entered again. What it had taken out of the queue has run by then, and what it had not is pending.
   */
  lemma {:induction false} QuitLeaves(s: State)
    requires Inv(s) && Alone(s) && s.quit
    ensures Possible(s, WayOut(s))
    ensures var r := After(s, WayOut(s));
      r.place.Left? && r.polls == s.polls && r.pushed == s.pushed && r.executed + r.pending == s.pushed
    decreases Distance(s.place), |s.batch|
  {
    if s.place.Left? {
      assert s.executed + s.batch + s.pending == s.executed + s.pending;
    } else {
      StepsOn(s);
      NextKeeps(s, Step(s));
      hide Inv, Next, Enabled, Alone, Step, Distance;
      QuitLeaves(Next(s, Step(s)));
      Unroll(s, Step(s), WayOut(Next(s, Step(s))));
    }
  }

  /** quit() of any thread, the loop thread in a handler or a functor included: poll is not entered again, whatever the threads do. */
  lemma QuitEndsPolling(s: State, t: nat, actions: seq<Action>)
    requires Enabled(s, SetQuit(t)) && Possible(Next(s, SetQuit(t)), actions)
    ensures var r := After(Next(s, SetQuit(t)), actions); r.quit && r.polls == s.polls
  {
    hide Possible, After;
    LastIteration(Next(s, SetQuit(t)), actions);
  }

  /** And left alone the loop thread leaves. */
  lemma QuitIsHeard(s: State, t: nat)
    requires Inv(s) && Alone(s) && t < |s.threads| && s.threads[t].Out? && (t == 0 ==> InUserCode(s))
    ensures Enabled(s, SetQuit(t))
    ensures var n := Next(s, SetQuit(t));
      Alone(n) && n.quit && Possible(n, WayOut(n)) && After(n, WayOut(n)).place.Left? && After(n, WayOut(n)).polls == s.polls
  {
    hide Possible, After, Inv, WayOut;
    NextKeeps(s, SetQuit(t));
    QuitLeaves(Next(s, SetQuit(t)));
  }

  /** quit() of another thread: it can write to the eventfd, and returns; poll does not sleep after that. The loop thread writes nothing. */
  lemma QuitWakes(s: State, t: nat)
    requires Inv(s) && Enabled(s, SetQuit(t))
    ensures var n := Next(s, SetQuit(t));
      if t == 0 then n == s.(quit := true)
      else Enabled(n, WakeQuit(t)) && var r := Next(n, WakeQuit(t)); r.quitDone && !Blocks(r) && r.threads == s.threads
  {
  }

  /** An iteration without functors, from doPendingFunctors to poll. */
  lemma NothingPending(s: State)
    requires |s.threads| > 0 && s.threads[0].Out? && s.place.Locking? && s.mutexFree && s.pending == [] && s.batch == [] && !s.quit
    ensures var actions := [Lock] + ([Swap] + ([Unlock] + ([Start] + ([Finish] + [Test]))));
      Possible(s, actions) && After(s, actions).place.Polling? && After(s, actions).counter == s.counter
  {
    var s1 := Next(s, Lock);
    var s2 := Next(s1, Swap);
    var s3 := Next(s2, Unlock);
    var s4 := Next(s3, Start);
    var s5 := Next(s4, Finish);
    assert Next(s5, Test).place.Polling?;
    Unroll(s5, Test, []);
    assert [Test] + [] == [Test];
    hide Next, Possible, After;
    Unroll(s4, Finish, [Test]);
    Unroll(s3, Start, [Finish] + [Test]);
    Unroll(s2, Unlock, [Start] + ([Finish] + [Test]));
    Unroll(s1, Swap, [Unlock] + ([Start] + ([Finish] + [Test])));
    Unroll(s, Lock, [Swap] + ([Unlock] + ([Start] + ([Finish] + [Test]))));
  }

  /** A wakeup that was read is over: left alone with nothing pending, the loop thread sleeps in poll again. */
  lemma ReadForgets(s: State)
    requires Enabled(s, Read) && s.pending == [] && s.batch == [] && s.mutexFree && !s.quit
    ensures var actions := [Read] + ([Handled] + ([Lock] + ([Swap] + ([Unlock] + ([Start] + ([Finish] + [Test]))))));
      Possible(s, actions) && Blocks(After(s, actions))
  {
    var tail := [Lock] + ([Swap] + ([Unlock] + ([Start] + ([Finish] + [Test]))));
    var s1 := Next(s, Read);
    var s2 := Next(s1, Handled);
    NothingPending(s2);
    assert Enabled(s1, Handled);
    hide Next, Possible, After;
    Unroll(s1, Handled, tail);
    Unroll(s, Read, [Handled] + tail);
  }

  /** A loop thread that enters the loop while nothing has been signalled. */
  lemma EntersAndSleeps(s: State)
    requires s.place.Before? && !s.quit && s.counter == 0 && |s.threads| > 0 && s.threads[0].Out?
    ensures Possible(s, [Enter] + [Test])
    ensures After(s, [Enter] + [Test]) == s.(place := Polling, polls := s.polls + 1)
  {
    Unroll(Next(s, Enter), Test, []);
    Unroll(s, Enter, [Test]);
    assert [Test] + [] == [Test];
  }

  /** The exception is real: a functor that the loop thread queues before loop() is slept on. */
  lemma EarlyFunctorSleeps(f: Functor)
    ensures var actions := [Queue(0, f)] + ([Push(0)] + ([Release(0)] + ([Enter] + [Test])));
      Possible(Init(1), actions) &&
      var s := After(Init(1), actions);
      Blocks(s) && s.pending == [f] && Settled(s)
  {
    var s0 := Init(1);
    var s1 := Next(s0, Queue(0, f));
    var s2 := Next(s1, Push(0));
    var s3 := Next(s2, Release(0));
    assert Settled(s3.(place := Polling, polls := 1));
    EntersAndSleeps(s3);
    hide Next, Possible, After;
    Unroll(s2, Release(0), [Enter] + [Test]);
    Unroll(s1, Push(0), [Release(0)] + ([Enter] + [Test]));
    Unroll(s0, Queue(0, f), [Push(0)] + ([Release(0)] + ([Enter] + [Test])));
  }

  /** And so is the other: between a push and its wakeup the loop thread may fall asleep, until the write comes. */
  lemma PushedNotWritten(f: Functor)
    ensures var actions := [Enter] + ([Test] + ([Queue(1, f)] + [Push(1)]));
      Possible(Init(2), actions) &&
      var s := After(Init(2), actions);
      Blocks(s) && s.pending == [f] && !s.early && !Settled(s)
  {
    var s0 := Init(2);
    var s1 := Next(s0, Enter);
    var s2 := Next(s1, Test);
    var s3 := Next(s2, Queue(1, f));
    var s4 := Next(s3, Push(1));
    assert s4.threads[1].Pushed?;
    Unroll(s3, Push(1), []);
    assert [Push(1)] + [] == [Push(1)];
    hide Next;
    Unroll(s2, Queue(1, f), [Push(1)]);
    Unroll(s1, Test, [Queue(1, f)] + [Push(1)]);
    Unroll(s0, Enter, [Test] + ([Queue(1, f)] + [Push(1)]));
  }

  lemma Unroll(s: State, a: Action, rest: seq<Action>)
    requires Enabled(s, a)
    ensures Possible(s, [a] + rest) <==> Possible(Next(s, a), rest)
    ensures Possible(Next(s, a), rest) ==> After(s, [a] + rest) == After(Next(s, a), rest)
  {
    assert ([a] + rest)[0] == a && ([a] + rest)[1..] == rest;
  }

  function Calls(n: nat): seq<Action> {
    if n == 0 then [] else [Call] + Calls(n - 1)
  }

  lemma {:induction false} CallsRun(s: State)
    requires |s.threads| > 0 && s.threads[0].Out? && s.place.Calling?
    ensures Possible(s, Calls(|s.batch|))
    ensures After(s, Calls(|s.batch|)) == s.(executed := s.executed + s.batch, batch := [])
    decreases |s.batch|
  {
    if s.batch == [] {
      assert s.executed + s.batch == s.executed;
    } else {
      var n := Next(s, Call);
      CallsRun(n);
      Unroll(s, Call, Calls(|n.batch|));
      assert n.executed + n.batch == s.executed + s.batch;
    }
  }

  /** doPendingFunctors, undisturbed. */
  lemma Dispatches(s: State)
    requires |s.threads| > 0 && s.threads[0].Out? && s.place.Locking? && s.mutexFree && s.batch == []
    ensures var actions := [Lock] + ([Swap] + ([Unlock] + ([Start] + Calls(|s.pending|))));
      Possible(s, actions) && After(s, actions).executed == s.executed + s.pending && After(s, actions).counter == s.counter
  {
    var k := Calls(|s.pending|);
    var s4 := Next(s, Lock);
    var s5 := Next(s4, Swap);
    var s6 := Next(s5, Unlock);
    var s7 := Next(s6, Start);
    CallsRun(s7);
    assert Enabled(s4, Swap) && Enabled(s5, Unlock) && Enabled(s6, Start);
    hide Next, Enabled, Possible, After;
    Unroll(s6, Start, k);
    Unroll(s5, Unlock, [Start] + k);
    Unroll(s4, Swap, [Unlock] + ([Start] + k));
    Unroll(s, Lock, [Swap] + ([Unlock] + ([Start] + k)));
  }

  /** A handler queues without a wakeup, and the functor runs in the same iteration. */
  lemma HandlerQueues(s: State, f: Functor)
    requires Inv(s) && s.place == Handling(false) && s.threads[0].Out? && s.mutexFree
    ensures var actions := [Queue(0, f)] + ([Push(0)] + ([Release(0)] + ([Handled] + ([Lock] + ([Swap] + ([Unlock] + ([Start] + Calls(|s.pending| + 1))))))));
      Possible(s, actions) && After(s, actions).executed == s.pushed + [f] && After(s, actions).counter == s.counter
  {
    var tail := [Lock] + ([Swap] + ([Unlock] + ([Start] + Calls(|s.pending| + 1))));
    var s1 := Next(s, Queue(0, f));
    var s2 := Next(s1, Push(0));
    var s3 := Next(s2, Release(0));
    var s4 := Next(s3, Handled);
    assert s3.pending == s.pending + [f];
    Dispatches(s4);
    assert s.executed + s.pending == s.pushed;
    assert s4.executed + s4.pending == s.pushed + [f];
    assert Enabled(s1, Push(0)) && Enabled(s2, Release(0)) && Enabled(s3, Handled) && Enabled(s, Queue(0, f));
    hide Next, Enabled, Possible, After;
    Unroll(s3, Handled, tail);
    Unroll(s2, Release(0), [Handled] + tail);
    Unroll(s1, Push(0), [Release(0)] + ([Handled] + tail));
    Unroll(s, Queue(0, f), [Push(0)] + ([Release(0)] + ([Handled] + tail)));
  }

  /** A functor queues behind all that is pending, and writes to the eventfd: the next poll does not sleep on it. */
  lemma FunctorQueues(s: State, f: Functor)
    requires Inv(s) && s.place.Calling? && s.threads[0].Out? && s.mutexFree
    ensures var actions := [Queue(0, f)] + ([Push(0)] + ([Wake(0)] + [Release(0)]));
      Possible(s, actions) &&
      var r := After(s, actions);
      r.pending == s.pending + [f] && r.batch == s.batch && r.executed == s.executed && r.counter == s.counter + 1
  {
    var s1 := Next(s, Queue(0, f));
    var s2 := Next(s1, Push(0));
    var s3 := Next(s2, Wake(0));
    var s4 := Next(s3, Release(0));
    assert Enabled(s1, Push(0)) && Enabled(s2, Wake(0)) && Enabled(s3, Release(0)) && Enabled(s, Queue(0, f));
    assert s4.pending == s.pending + [f] && s4.counter == s.counter + 1;
    Unroll(s3, Release(0), []);
    assert [Release(0)] + [] == [Release(0)];
    hide Next, Enabled, Possible, After;
    Unroll(s2, Wake(0), [Release(0)]);
    Unroll(s1, Push(0), [Wake(0)] + [Release(0)]);
    Unroll(s, Queue(0, f), [Push(0)] + ([Wake(0)] + [Release(0)]));
  }

  /** Left alone, the loop thread runs everything that was pushed: from poll, with the wakeup noticed. */
  lemma Drains(s: State)
    requires Inv(s) && s.place.Polling? && s.counter > 0 && s.mutexFree
    ensures var actions := [Poll] + ([Read] + ([Handled] + ([Lock] + ([Swap] + ([Unlock] + ([Start] + Calls(|s.pending|)))))));
      Possible(s, actions) && After(s, actions).executed == s.pushed
  {
    var tail := [Lock] + ([Swap] + ([Unlock] + ([Start] + Calls(|s.pending|))));
    var s1 := Next(s, Poll);
    var s2 := Next(s1, Read);
    var s3 := Next(s2, Handled);
    Dispatches(s3);
    assert s.executed + s.pending == s.pushed;
    assert Enabled(s1, Read) && Enabled(s2, Handled);
    hide Next, Enabled, Possible, After;
    Unroll(s2, Handled, tail);
    Unroll(s1, Read, [Handled] + tail);
    Unroll(s, Poll, [Read] + ([Handled] + tail));
  }
}
