/** A terminal moving between windows: hold, held marker, serialise, attach, and the way back
    when the move fails.

    One session, the output events on their way to the window showing it, one attach reply, and
    that window's terminal. A flush decides under the lock whether to hold or to emit, and emits
    after letting the lock go, so those are two steps. Events arrive in the order they were
    emitted; the attach reply arrives on its own, whenever it does. An event on its way when the
    tab changes windows goes to the window it left; one emitted later goes to the new one. A
    screen serialised in one window and written in the next shows the same. */
module Handover {
  import opened Bytes
  import opened SessionOutput

  datatype Event = Output(bytes: seq<byte>) | Marker

  /** Where a move stands. */
  datatype Phase =
    | Live
    /** `ssh_hold` asked; its marker not heard yet. */
    | Asked
    /** Heard, or waited for long enough. */
    | Ready
    /** The screen is taken and the other window is being opened. */
    | Moving(screen: seq<byte>)
    /** The other window's terminal shows the screen and listens, but has not attached. */
    | Binding
    | BindingAsked
    /** The other window could not be opened. */
    | Failing
    | FailingAsked

  datatype State = State(
    back: Held,
    /** Decided to be emitted, not emitted yet. */
    emitting: seq<byte>,
    events: seq<Event>,
    reply: seq<byte>,
    /** What the terminal shows, and the live output it keeps back until it has replayed. */
    shown: seq<byte>,
    queued: seq<byte>,
    phase: Phase,
    /** Everything the session has printed. */
    output: seq<byte>)

  datatype Step =
    | Produce(bytes: seq<byte>)
    | Emit
    | Hold
    | Deliver
    | TimeOut
    | Serialise
    | Open
    | Fail
    | AskAttach
    | Answer

  const START := State(Held(true, []), [], [], [], [], [], Live, [])

  predicate Enabled(s: State, step: Step) {
    match step
    case Produce(b) => b != [] && s.emitting == []
    case Emit => s.emitting != []
    case Hold => s.phase == Live
    case Deliver => s.events != []
    case TimeOut => s.phase == Asked
    case Serialise => s.phase == Ready
    case Open => s.phase.Moving?
    case Fail => s.phase.Moving?
    case AskAttach => s.phase == Binding || s.phase == Failing
    case Answer => s.phase == BindingAsked || s.phase == FailingAsked
  }

  function Next(s: State, step: Step): State
    requires Enabled(s, step)
  {
    match step
    case Produce(b) =>
      var t := s.(back := Done(s.back, Keep(b)), output := s.output + b);
      if s.back.attached then t.(emitting := b) else t
    case Emit => s.(events := s.events + [Output(s.emitting)], emitting := [])
    case Hold => s.(back := Done(s.back, LetGo), events := s.events + [Marker], phase := Asked)
    case Deliver =>
      var t := s.(events := s.events[1..]);
      match s.events[0] {
        case Marker => if s.phase == Asked then t.(phase := Ready) else t
        case Output(b) =>
          if s.phase == Binding || s.phase == BindingAsked then t.(queued := s.queued + b)
          else t.(shown := s.shown + b)
      }
    case TimeOut => s.(phase := Ready)
    case Serialise => s.(phase := Moving(s.shown))
    case Open => s.(phase := Binding, shown := s.phase.screen, events := [])
    case Fail => s.(phase := Failing)
    case AskAttach =>
      s.(back := Done(s.back, Collect), reply := s.back.pending,
         phase := if s.phase == Binding then BindingAsked else FailingAsked)
    case Answer =>
      if s.phase == BindingAsked then
        s.(shown := s.shown + s.reply + s.queued, reply := [], queued := [], phase := Live)
      else s.(shown := s.shown + s.reply, reply := [], phase := Live)
  }

  function Outputs(events: seq<Event>): seq<byte> {
    if events == [] then []
    else (if events[0].Output? then events[0].bytes else []) + Outputs(events[1..])
  }

  lemma {:induction false} OutputsSnoc(events: seq<Event>, e: Event)
    ensures Outputs(events + [e]) == Outputs(events) + (if e.Output? then e.bytes else [])
  {
    hide Outputs;
    FirstOutput(events + [e]);
    NoOutput();
    if events == [] {
      assert [] + [e] == [e] && [e][1..] == [];
      assert e.Output? ==> e.bytes + [] == [] + e.bytes;
    } else {
      FirstOutput(events);
      OutputsSnoc(events[1..], e);
      assert (events + [e])[1..] == events[1..] + [e];
      if events[0].Output? {
        Regroup(events[0].bytes, Outputs(events[1..]), if e.Output? then e.bytes else []);
      }
    }
  }

  lemma NoOutput()
    ensures Outputs([]) == []
  {
  }

  /** What the terminal has shown and will, in the order it will. */
  function View(s: State): seq<byte> {
    var live := Outputs(s.events) + s.emitting;
    match s.phase
    case Binding => s.shown + s.back.pending + s.queued + live
    case BindingAsked => s.shown + s.reply + s.queued + live + s.back.pending
    case FailingAsked => s.shown + s.reply + live + s.back.pending
    case _ => s.shown + live + s.back.pending
  }

  /** Nothing lost, nothing twice, nothing out of order. */
  predicate Whole(s: State) {
    View(s) == s.output
  }

  predicate Takes(phase: Phase) {
    phase == Live || phase == BindingAsked || phase == FailingAsked
  }

  predicate Valid(s: State) {
    && (s.back.attached <==> Takes(s.phase))
    && (s.back.attached ==> s.back.pending == [])
    && |s.back.pending| <= MAX_PENDING
    && (s.reply != [] ==> s.phase == BindingAsked || s.phase == FailingAsked)
    && (s.queued != [] ==> s.phase == Binding || s.phase == BindingAsked)
    && (s.phase.Moving? ==> s.phase.screen <= s.shown)
  }

  lemma ValidStep(s: State, step: Step)
    requires Valid(s) && Enabled(s, step)
    ensures Valid(Next(s, step))
  {
  }

  /** What a step must find for nothing to go missing or out of order in it. */
  predicate Careful(s: State, step: Step)
    requires Enabled(s, step)
  {
    var live := Outputs(s.events) + s.emitting;
    match step
    case Produce(b) =>
      s.back.attached
      || (|s.back.pending| + |b| <= MAX_PENDING
        && (s.phase == Binding ==> b + (s.queued + live) == s.queued + live + b))
    case Open =>
      && s.phase.screen == s.shown && Outputs(s.events) == []
      && s.emitting + s.back.pending == s.back.pending + s.emitting
    case AskAttach => s.phase == Failing ==> live + s.back.pending == s.back.pending + live
    case Deliver =>
      s.phase == FailingAsked && s.events[0].Output? ==> s.events[0].bytes + s.reply == s.reply + s.events[0].bytes
    case _ => true
  }

  lemma Cancel(a: seq<byte>, x: seq<byte>, y: seq<byte>, b: seq<byte>)
    ensures a + x + b == a + y + b <==> x == y
  {
    if a + x + b == a + y + b {
      assert |x| == |y|;
      assert forall i | 0 <= i < |x| :: x[i] == (a + x + b)[|a| + i] && y[i] == (a + y + b)[|a| + i];
    }
  }

  lemma ProduceExact(s: State, b: seq<byte>)
    requires Valid(s) && Whole(s) && Enabled(s, Produce(b))
    ensures Whole(Next(s, Produce(b))) <==> Careful(s, Produce(b))
  {
    hide Outputs;
    var t := Next(s, Produce(b));
    assert Outputs(s.events) + [] == Outputs(s.events);
    if s.back.attached {
      ProduceAttached(s, b);
    } else if |s.back.pending| + |b| <= MAX_PENDING {
      if s.phase == Binding {
        ProduceBinding(s, b);
      } else {
        Regroup(s.shown + (Outputs(s.events) + s.emitting), s.back.pending, b);
      }
    } else {
      assert |View(t)| < |View(s)| + |b|;
    }
  }

  lemma ProduceAttached(s: State, b: seq<byte>)
    requires Valid(s) && Enabled(s, Produce(b)) && s.back.attached
    ensures View(Next(s, Produce(b))) == View(s) + b
  {
    hide Outputs;
    var out := Outputs(s.events);
    assert out + [] == out;
    Regroup(s.shown, out, b);
    Regroup(s.shown + s.reply, out, b);
    Regroup(s.shown + s.reply + s.queued, out, b);
    assert s.back.pending == [];
    assert View(s) + [] == View(s);
  }

  lemma ProduceBinding(s: State, b: seq<byte>)
    requires Valid(s) && Enabled(s, Produce(b)) && s.phase == Binding && |s.back.pending| + |b| <= MAX_PENDING
    ensures View(Next(s, Produce(b))) == View(s) + b
       <==> b + (s.queued + Outputs(s.events)) == s.queued + Outputs(s.events) + b
  {
    hide Outputs;
    var a, out := s.shown + s.back.pending, Outputs(s.events);
    var t := Next(s, Produce(b));
    assert out + [] == out;
    Parts(a, [], b, s.queued, out);
    assert View(t) == s.shown + (s.back.pending + b) + s.queued + out;
    assert View(t) == a + (b + (s.queued + out)) + [];
    assert View(s) + b == a + (s.queued + out + b) + [];
    Cancel(a, b + (s.queued + out), s.queued + out + b, []);
  }

  lemma DeliverExact(s: State)
    requires Valid(s) && Whole(s) && Enabled(s, Deliver)
    ensures Whole(Next(s, Deliver)) <==> Careful(s, Deliver)
  {
    hide Outputs;
    FirstOutput(s.events);
    if s.events[0].Output? {
      if s.phase == FailingAsked {
        DeliverOvertaking(s);
      } else {
        DeliverInOrder(s);
      }
    }
  }

  /** An output event delivered is shown, or queued, where the view already had it. */
  lemma DeliverInOrder(s: State)
    requires Enabled(s, Deliver) && s.events[0].Output? && s.phase != FailingAsked
    ensures View(Next(s, Deliver)) == View(s)
  {
    hide Outputs;
    var e := s.events[0];
    var rest := Outputs(s.events[1..]) + s.emitting;
    FirstOutput(s.events);
    Regroup(e.bytes, Outputs(s.events[1..]), s.emitting);
    if s.phase == Binding {
      Regroup(s.shown + s.back.pending + s.queued, e.bytes, rest);
      Regroup(s.shown + s.back.pending, s.queued, e.bytes);
    } else if s.phase == BindingAsked {
      Regroup(s.shown + s.reply + s.queued, e.bytes, rest);
      Regroup(s.shown + s.reply, s.queued, e.bytes);
    } else {
      Regroup(s.shown, e.bytes, rest);
    }
  }

  /** After a failed move it is shown ahead of the reply. */
  lemma DeliverOvertaking(s: State)
    requires Enabled(s, Deliver) && s.events[0].Output? && s.phase == FailingAsked
    ensures View(Next(s, Deliver)) == View(s) <==> s.events[0].bytes + s.reply == s.reply + s.events[0].bytes
  {
    hide Outputs;
    var e := s.events[0];
    var rest := Outputs(s.events[1..]) + s.emitting;
    FirstOutput(s.events);
    Regroup(e.bytes, Outputs(s.events[1..]), s.emitting);
    Parts(s.shown, s.reply, e.bytes, rest, s.back.pending);
    Parts(s.shown, e.bytes, s.reply, rest, s.back.pending);
    Cancel(s.shown, s.reply + e.bytes, e.bytes + s.reply, rest + s.back.pending);
  }

  lemma Parts(a: seq<byte>, x: seq<byte>, b: seq<byte>, r: seq<byte>, p: seq<byte>)
    ensures a + x + (b + r) + p == a + (x + b) + (r + p)
    ensures a + x + b + r + p == a + (x + b) + (r + p)
  {
    Regroup(a + x, b, r);
    Regroup(a, x, b);
    Regroup(a + (x + b), r, p);
  }

  lemma FirstOutput(events: seq<Event>)
    requires events != []
    ensures Outputs(events)
      == if events[0].Output? then events[0].bytes + Outputs(events[1..]) else Outputs(events[1..])
  {
  }

  lemma OpenExact(s: State)
    requires Valid(s) && Whole(s) && Enabled(s, Open)
    ensures Whole(Next(s, Open)) <==> Careful(s, Open)
  {
    var t := Next(s, Open);
    assert Outputs([]) == [] && View(t) == s.phase.screen + s.back.pending + s.emitting;
    assert View(s) == s.shown + Outputs(s.events) + s.emitting + s.back.pending;
    if s.phase.screen == s.shown && Outputs(s.events) == [] {
      assert View(t) == s.shown + (s.back.pending + s.emitting) + [];
      assert View(s) == s.shown + (s.emitting + s.back.pending) + [];
      Cancel(s.shown, s.back.pending + s.emitting, s.emitting + s.back.pending, []);
    } else {
      assert |s.phase.screen| < |s.shown| + |Outputs(s.events)|;
    }
  }

  lemma AttachExact(s: State)
    requires Valid(s) && Whole(s) && Enabled(s, AskAttach)
    ensures Whole(Next(s, AskAttach)) <==> Careful(s, AskAttach)
  {
    var t := Next(s, AskAttach);
    var live := Outputs(s.events) + s.emitting;
    if s.phase == Failing {
      assert View(s) == s.shown + (live + s.back.pending) + [];
      assert View(t) == s.shown + (s.back.pending + live) + [];
      Cancel(s.shown, live + s.back.pending, s.back.pending + live, []);
    } else {
      assert View(t) == View(s) + [];
    }
  }

  /** A step keeps the view whole exactly when it is careful. */
  lemma StepExact(s: State, step: Step)
    requires Valid(s) && Whole(s) && Enabled(s, step)
    ensures Whole(Next(s, step)) <==> Careful(s, step)
  {
    var t := Next(s, step);
    match step
    case Produce(b) => ProduceExact(s, b);
    case Deliver => DeliverExact(s);
    case Open => OpenExact(s);
    case AskAttach => AttachExact(s);
    case Emit => OutputsSnoc(s.events, Output(s.emitting));
      assert Outputs(t.events) + t.emitting == Outputs(s.events) + s.emitting;
    case Hold => OutputsSnoc(s.events, Marker);
      assert Outputs(t.events) == Outputs(s.events);
    case Answer => AnswerKeeps(s);
    case TimeOut =>
    case Serialise =>
    case Fail =>
  }

  lemma AnswerKeeps(s: State)
    requires Valid(s) && Enabled(s, Answer)
    ensures View(Next(s, Answer)) == View(s)
  {
  }

  // ---- Runs --------------------------------------------------------------------------------------

  ghost predicate IsRun(states: seq<State>, steps: seq<Step>) {
    && |states| == |steps| + 1 && states[0] == START
    && forall i | 0 <= i < |steps| :: Enabled(states[i], steps[i]) && states[i + 1] == Next(states[i], steps[i])
  }

  ghost predicate WholeTo(states: seq<State>, n: nat) {
    n < |states| && forall i | 0 <= i <= n :: Whole(states[i])
  }

  ghost predicate CarefulTo(states: seq<State>, steps: seq<Step>, n: nat)
    requires IsRun(states, steps) && n <= |steps|
  {
    forall i | 0 <= i < n :: Careful(states[i], steps[i])
  }

  lemma {:induction false} ValidRun(states: seq<State>, steps: seq<Step>, n: nat)
    requires IsRun(states, steps) && n <= |steps|
    ensures Valid(states[n])
  {
    if n > 0 {
      ValidRun(states, steps, n - 1);
      ValidStep(states[n - 1], steps[n - 1]);
    }
  }

  /** A run never loses, repeats or reorders anything, up to any point of it, exactly when every
      step that far is careful. */
  lemma {:induction false} WholeExactly(states: seq<State>, steps: seq<Step>, n: nat)
    requires IsRun(states, steps) && n <= |steps|
    ensures WholeTo(states, n) <==> CarefulTo(states, steps, n)
  {
    hide Careful, Whole, Next, Enabled, Valid;
    if n > 0 {
      WholeExactly(states, steps, n - 1);
      var i := n - 1;
      assert states[i + 1] == Next(states[i], steps[i]) && Enabled(states[i], steps[i]);
      assert WholeTo(states, n) <==> WholeTo(states, n - 1) && Whole(states[n]);
      if WholeTo(states, n - 1) {
        ValidRun(states, steps, n - 1);
        StepExact(states[n - 1], steps[n - 1]);
        assert CarefulTo(states, steps, n) <==> CarefulTo(states, steps, n - 1) && Careful(states[n - 1], steps[n - 1]);
      } else {
        assert !CarefulTo(states, steps, n - 1);
      }
    } else {
      StartIsWhole();
    }
  }

  lemma StartIsWhole()
    ensures Whole(START) && Valid(START)
  {
  }

  /** Once nothing is on its way and nothing waits, the terminal shows what the session printed. */
  lemma SettledShowsAll(s: State)
    requires Valid(s) && Whole(s) && s.phase == Live && s.events == [] && s.emitting == []
    ensures s.shown == s.output
  {
    assert View(s) == s.shown;
  }

  // ---- The protocol's own assumptions make every step careful ------------------------------------

  /** Deciding to emit and emitting are one step as far as a hold can tell; the marker is waited
      for; what is held fits; and when a move has failed, the reply is there before any output that
      came after it. */
  predicate Assumed(s: State, step: Step)
    requires Enabled(s, step)
  {
    match step
    case Produce(b) => s.back.attached || |s.back.pending| + |b| <= MAX_PENDING
    case Hold => s.emitting == []
    case TimeOut => false
    case Deliver => s.phase != FailingAsked
    case _ => true
  }

  predicate NoMarker(events: seq<Event>) {
    forall i | 0 <= i < |events| :: events[i].Output?
  }

  predicate Orderly(s: State) {
    match s.phase
    case Asked =>
      && s.emitting == [] && s.events != []
      && s.events[|s.events| - 1] == Marker && NoMarker(s.events[..|s.events| - 1])
    case Ready => s.events == [] && s.emitting == []
    case Moving(screen) => s.events == [] && s.emitting == [] && screen == s.shown
    case Binding => s.events == [] && s.emitting == [] && s.queued == []
    case Failing => s.events == [] && s.emitting == []
    case _ => NoMarker(s.events)
  }

  lemma OrderlyStep(s: State, step: Step)
    requires Valid(s) && Orderly(s) && Enabled(s, step) && Assumed(s, step)
    ensures Orderly(Next(s, step)) && Careful(s, step)
  {
    hide Outputs, Done;
    var t := Next(s, step);
    match step
    case Deliver => OrderlyDeliver(s);
    case Open => NothingComing(s);
    case Produce(b) =>
      if s.phase == Binding {
        NothingComing(s);
        assert s.queued + [] == [];
        assert b + [] == [] + b;
      }
    case Hold => assert t.events[..|t.events| - 1] == s.events;
    case AskAttach =>
      if s.phase == Failing {
        NothingComing(s);
        assert [] + s.back.pending == s.back.pending + [];
      }
    case _ =>
  }

  lemma OrderlyDeliver(s: State)
    requires Valid(s) && Orderly(s) && Enabled(s, Deliver) && Assumed(s, Deliver)
    ensures Orderly(Next(s, Deliver)) && Careful(s, Deliver)
  {
    hide Outputs, LastOf;
    var t := Next(s, Deliver);
    if s.phase == Asked && |s.events| > 1 {
      assert s.events[0] == s.events[..|s.events| - 1][0];
      assert t.events[..|t.events| - 1] == s.events[..|s.events| - 1][1..];
    }
  }

  lemma NothingComing(s: State)
    requires s.events == [] && s.emitting == []
    ensures Outputs(s.events) == [] && Outputs(s.events) + s.emitting == []
    ensures s.emitting + s.back.pending == s.back.pending + s.emitting
  {
  }

  /** Every interleaving of output, hold, a move, a failed move and attach under those assumptions:
      bytes shown, then in flight, then held are the session's output in order, at every point. */
  lemma {:induction false} HandoverIsWhole(states: seq<State>, steps: seq<Step>, n: nat)
    requires IsRun(states, steps) && n <= |steps|
    requires forall i | 0 <= i < |steps| :: Assumed(states[i], steps[i])
    ensures Whole(states[n]) && Orderly(states[n]) && Valid(states[n])
  {
    if n == 0 {
      assert Whole(START);
    } else {
      HandoverIsWhole(states, steps, n - 1);
      ValidStep(states[n - 1], steps[n - 1]);
      OrderlyStep(states[n - 1], steps[n - 1]);
      StepExact(states[n - 1], steps[n - 1]);
    }
  }

  // ---- And none of them can be dropped --------------------------------------------------------------

  function Run(s: State, steps: seq<Step>): State
    requires Runs(s, steps)
    decreases |steps|
  {
    if steps == [] then s else Run(Next(s, steps[0]), steps[1..])
  }

  predicate Runs(s: State, steps: seq<Step>)
    decreases |steps|
  {
    steps == [] || (Enabled(s, steps[0]) && Runs(Next(s, steps[0]), steps[1..]))
  }

  lemma RunsThen(s: State, step: Step, rest: seq<Step>)
    requires Enabled(s, step) && Runs(Next(s, step), rest)
    ensures Runs(s, [step] + rest) && Run(s, [step] + rest) == Run(Next(s, step), rest)
  {
    assert ([step] + rest)[1..] == rest;
  }

  lemma NothingIsRun(s: State)
    ensures Runs(s, []) && Run(s, []) == s
  {
  }

  /** One step after another, from anywhere. */
  ghost predicate Follows(states: seq<State>, steps: seq<Step>) {
    && |states| == |steps| + 1
    && forall i | 0 <= i < |steps| :: Enabled(states[i], steps[i]) && states[i + 1] == Next(states[i], steps[i])
  }

  lemma {:induction false} RunFollows(s: State, steps: seq<Step>) returns (states: seq<State>)
    requires Runs(s, steps)
    ensures Follows(states, steps) && states[0] == s && states[|steps|] == Run(s, steps)
    decreases |steps|
  {
    hide Enabled, Next;
    if steps == [] {
      states := [s];
    } else {
      var rest := RunFollows(Next(s, steps[0]), steps[1..]);
      states := [s] + rest;
      forall i | 0 <= i < |steps| ensures Enabled(states[i], steps[i]) && states[i + 1] == Next(states[i], steps[i]) {
        if i > 0 {
          assert states[i] == rest[i - 1] && states[i + 1] == rest[i - 1 + 1] && steps[i] == steps[1..][i - 1];
        }
      }
    }
  }

  lemma {:induction false} WhatFollowsRuns(states: seq<State>, steps: seq<Step>)
    requires Follows(states, steps)
    ensures Runs(states[0], steps) && Run(states[0], steps) == states[|steps|]
    decreases |steps|
  {
    hide Enabled, Next;
    if steps != [] {
      assert states[0 + 1] == Next(states[0], steps[0]);
      forall i | 0 <= i < |steps[1..]|
        ensures Enabled(states[1..][i], steps[1..][i]) && states[1..][i + 1] == Next(states[1..][i], steps[1..][i])
      {
        assert states[i + 1 + 1] == Next(states[i + 1], steps[i + 1]);
      }
      WhatFollowsRuns(states[1..], steps[1..]);
    }
  }

  /** The same runs, with and without the states on the way. */
  lemma RunsAreRuns(steps: seq<Step>)
    ensures Runs(START, steps) <==> exists states: seq<State> :: IsRun(states, steps)
    ensures forall states: seq<State> | IsRun(states, steps) :: states[|steps|] == Run(START, steps)
  {
    hide Runs, Run, Enabled, Next;
    if Runs(START, steps) {
      var states := RunFollows(START, steps);
      assert IsRun(states, steps);
    }
    forall states: seq<State> | IsRun(states, steps)
      ensures Runs(START, steps) && states[|steps|] == Run(START, steps)
    {
      WhatFollowsRuns(states, steps);
    }
  }

  /** So a run that ends with output lost or out of order has a step in it that was not careful. */
  lemma StraysSomewhere(steps: seq<Step>) returns (states: seq<State>)
    requires Runs(START, steps) && !Whole(Run(START, steps))
    ensures IsRun(states, steps) && !CarefulTo(states, steps, |steps|)
  {
    hide Runs, Run, Enabled, Next, Whole, Careful;
    states := RunFollows(START, steps);
    WholeExactly(states, steps, |steps|);
  }

  lemma NothingInView(s: State)
    requires s.phase == Binding && s.shown == [] && s.back.pending == [] && s.queued == []
    requires s.events == [] && s.emitting == []
    ensures View(s) == []
  {
  }

  lemma FailingView(s: State)
    requires s.phase == Failing && s.events == [] && s.emitting == []
    ensures View(s) == s.shown + s.back.pending
  {
  }

  /** A hold that lands after a flush has decided to emit and before it has: the marker overtakes
      the output, and the terminal serialises without it. */
  lemma HoldInTheGap() returns (s: State)
    ensures exists steps: seq<Step> :: TimeOut !in steps && Runs(START, steps) && Run(START, steps) == s
    ensures s.phase == Binding && s.output == [65] && s.shown == [] && !Whole(s)
  {
    hide Runs, Run, View, LastOf, Outputs;
    var s1 := Next(START, Produce([65]));
    var s2 := Next(s1, Hold);
    var s3 := Next(s2, Emit);
    assert s3.events == [Marker, Output([65])] && s3.phase == Asked;
    s := TooLateForTheScreen(s3);
    var rest: seq<Step> :| TimeOut !in rest && Runs(s3, rest) && Run(s3, rest) == s;
    RunsThen(s2, Emit, rest);
    RunsThen(s1, Hold, [Emit] + rest);
    RunsThen(START, Produce([65]), [Hold] + ([Emit] + rest));
  }

  /** Behind the marker: the screen is taken before the output is there, and the window moved after. */
  lemma TooLateForTheScreen(s3: State) returns (s: State)
    requires s3.phase == Asked && s3.events == [Marker, Output([65])] && s3.emitting == []
    requires s3.shown == [] && s3.queued == [] && s3.back.pending == [] && s3.output == [65]
    ensures exists steps: seq<Step> :: TimeOut !in steps && Runs(s3, steps) && Run(s3, steps) == s
    ensures s.phase == Binding && s.output == [65] && s.shown == [] && !Whole(s)
  {
    hide Runs, Run, View, LastOf, Outputs;
    var s4 := Next(s3, Deliver);
    assert s4.events == [Output([65])];
    var s5 := Next(s4, Serialise);
    var s6 := Next(s5, Deliver);
    s := Next(s6, Open);
    NothingInView(s);
    NothingIsRun(s);
    RunsThen(s6, Open, []);
    assert [Open] + [] == [Open];
    RunsThen(s5, Deliver, [Open]);
    RunsThen(s4, Serialise, [Deliver] + [Open]);
    RunsThen(s3, Deliver, [Serialise] + ([Deliver] + [Open]));
  }

  /** A wait that runs out with output still on its way. */
  lemma MarkerAstray() returns (s: State)
    ensures exists steps: seq<Step> :: Runs(START, steps) && Run(START, steps) == s
    ensures s.phase == Binding && s.output == [65] && s.shown == [] && !Whole(s)
  {
    hide Runs, Run, View, LastOf, Outputs;
    var s1 := Next(START, Produce([65]));
    var s2 := Next(s1, Emit);
    var s3 := Next(s2, Hold);
    var s4 := Next(s3, TimeOut);
    var s5 := Next(s4, Serialise);
    s := Next(s5, Open);
    NothingInView(s);
    NothingIsRun(s);
    RunsThen(s5, Open, []);
    assert [Open] + [] == [Open];
    RunsThen(s4, Serialise, [Open]);
    RunsThen(s3, TimeOut, [Serialise] + [Open]);
    RunsThen(s2, Hold, [TimeOut] + ([Serialise] + [Open]));
    RunsThen(s1, Emit, [Hold] + ([TimeOut] + ([Serialise] + [Open])));
    RunsThen(START, Produce([65]), [Emit] + ([Hold] + ([TimeOut] + ([Serialise] + [Open]))));
  }

  /** A move that failed with output held meanwhile, as it goes: hold, marker, screen, output, failure. */
  lemma FailedMove() returns (s: State)
    ensures exists steps: seq<Step> :: TimeOut !in steps && Runs(START, steps) && Run(START, steps) == s
    ensures Valid(s) && Whole(s) && s.phase == Failing && s.events == [] && s.emitting == [] && s.back.pending == [65]
  {
    hide Runs, Run, View, Outputs, LastOf;
    var s1 := Next(START, Hold);
    assert s1.events == [Marker];
    var s2 := Next(s1, Deliver);
    assert s2.events == [];
    var s3 := Next(s2, Serialise);
    s := FailsLater(s3);
    var rest: seq<Step> :| TimeOut !in rest && Runs(s3, rest) && Run(s3, rest) == s;
    RunsThen(s2, Serialise, rest);
    RunsThen(s1, Deliver, [Serialise] + rest);
    RunsThen(START, Hold, [Deliver] + ([Serialise] + rest));
  }

  lemma HoldsOne()
    ensures Done(Held(false, []), Keep([65])) == Held(false, [65]) && [] + [65] == [65]
  {
  }

  lemma FailsLater(s3: State) returns (s: State)
    requires s3 == State(Held(false, []), [], [], [], [], [], Moving([]), [])
    ensures exists steps: seq<Step> :: TimeOut !in steps && Runs(s3, steps) && Run(s3, steps) == s
    ensures Valid(s) && Whole(s) && s.phase == Failing && s.events == [] && s.emitting == [] && s.back.pending == [65]
  {
    hide Runs, Run, View, Outputs, Done;
    HoldsOne();
    var s4 := Next(s3, Produce([65]));
    s := Next(s4, Fail);
    FailingView(s);
    NothingIsRun(s);
    RunsThen(s4, Fail, []);
    assert [Fail] + [] == [Fail];
    RunsThen(s3, Produce([65]), [Fail]);
  }

  /** A move that failed, with output arriving before the reply it came after: unlike a terminal
      that is binding, the one already here does not keep live output back. */
  lemma ReplyOvertaken(s: State) returns (t: State)
    requires Valid(s) && Whole(s) && s.phase == Failing && s.events == [] && s.emitting == [] && s.back.pending == [65]
    ensures Runs(s, [AskAttach, Produce([66]), Emit, Deliver, Answer])
    ensures t == Run(s, [AskAttach, Produce([66]), Emit, Deliver, Answer])
    ensures t.phase == Live && t.output == s.shown + [65, 66] && t.shown == s.shown + [66, 65]
  {
    hide Runs, Run, View, LastOf, Outputs;
    FailingView(s);
    var s1 := Next(s, AskAttach);
    var s2 := Next(s1, Produce([66]));
    var s3 := Next(s2, Emit);
    var s4 := Next(s3, Deliver);
    t := Next(s4, Answer);
    NothingIsRun(t);
    RunsThen(s4, Answer, []);
    assert [Answer] + [] == [Answer];
    RunsThen(s3, Deliver, [Answer]);
    RunsThen(s2, Emit, [Deliver] + [Answer]);
    RunsThen(s1, Produce([66]), [Emit] + ([Deliver] + [Answer]));
    RunsThen(s, AskAttach, [Produce([66])] + ([Emit] + ([Deliver] + [Answer])));
    assert [AskAttach] + ([Produce([66])] + ([Emit] + ([Deliver] + [Answer])))
      == [AskAttach, Produce([66]), Emit, Deliver, Answer];
    assert t.shown == s.shown + [66] + [65];
  }
}
