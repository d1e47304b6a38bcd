// Every run is made of small steps. A property that each step keeps holds at the end of every run; Walks has the
// moments in between.
module Steps {
  import opened Types
  import opened Federation
  import Bridge

  datatype Step =
    | DoAct(action: Action)
    | DoBegin
    | DoPerform(call: Call)
    | DoSchedule(time: nat, call: Call)
    | DoLaunch
    | DoMarkStarted
    | DoSetGrant(time: nat)
    | DoStartGrant
    | DoAnswer
    | DoSubmitOne
    | DoSkipZero
    | DoAck
    | DoClose
    | DoFinish
    | DoExit(why: Reason)
    | DoDiverge

  // The calls the bridge defers, and those it makes at once before the start.
  predicate Deferrable(c: Call) {
    !c.CreateRadioNode? && !c.CreateNodeB?
  }

  predicate AtStart(c: Call) {
    c.CreateRadioNode? || c.CreateWiredNode? || c.CreateNodeB? || c.ConfigureCellRadio?
  }

  // When a step can happen. `timely` adds the assumption that nobody schedules in the past.
  predicate Enabled(w: World, s: Step, timely: bool) {
    match s
    case DoAct(a) => w.status.Running? && (timely ==> CausalAction(a))
    case DoBegin => Go(w) && w.b.started
    case DoPerform(c) => Listening(w) && !w.b.started && AtStart(c)
    case DoSchedule(t, c) => Listening(w) && Deferrable(c) && (timely ==> w.k.currentTs <= t)
    case DoLaunch => Listening(w) && !w.b.started && w.b.grant > 0
    case DoMarkStarted => true
    case DoSetGrant(t) => Listening(w)
    case DoStartGrant => true
    case DoAnswer => !Go(w) && !(w.b.closed)
    case DoSubmitOne => Listening(w) && w.b.grant == 0
    case DoSkipZero => Listening(w) && w.b.grant == 0
    case DoExit(why) => why == LateNodeB || why == UnsupportedRadio
    case _ => true
  }

  ghost function Take(w: World, s: Step): World {
    match s
    case DoAct(a) => Act(w, a)
    case DoBegin => if w.k.events != [] then Begin(w) else w
    case DoPerform(c) => Perform(w, c)
    case DoSchedule(t, c) => Schedule(w, t - w.k.currentTs, Deferred(c))
    case DoLaunch => Launch(w)
    case DoMarkStarted => MarkStarted(w)
    case DoSetGrant(t) => SetGrant(w, t)
    case DoStartGrant => StartGrant(w)
    case DoAnswer => Answer(w)
    case DoSubmitOne => SubmitOne(w)
    case DoSkipZero => SkipZero(w)
    case DoAck => Ack(w)
    case DoClose => Close(w)
    case DoFinish => Finishing(w)
    case DoExit(why) => Exit(w, why)
    case DoDiverge => w.(status := Diverged)
  }

  ghost predicate Kept(I: World -> bool, timely: bool) {
    forall w, s :: I(w) && Enabled(w, s, timely) ==> I(Take(w, s))
  }

  // The steps inside the reaction to one command.
  predicate Inner(s: Step) {
    s.DoAct? || s.DoBegin? || s.DoDiverge?
  }

  ghost predicate KeptInside(I: World -> bool, timely: bool) {
    forall w, s :: I(w) && Inner(s) && Enabled(w, s, timely) ==> I(Take(w, s))
  }

  // ---------- the principle, following the structure of a run ----------

  lemma {:induction false} ActsKeep(w: World, actions: seq<Action>, I: World -> bool, timely: bool)
    requires KeptInside(I, timely) && I(w)
    requires timely ==> forall a :: a in actions ==> CausalAction(a)
    ensures I(Acts(w, actions))
    decreases |actions|
  {
    if actions != [] && w.status.Running? {
      assert Enabled(w, DoAct(actions[0]), timely);
      assert I(Take(w, DoAct(actions[0])));
      ActsKeep(Act(w, actions[0]), actions[1..], I, timely);
    }
  }

  lemma RespondKeeps(net: Network, before: World, w: World, I: World -> bool, timely: bool)
    requires KeptInside(I, timely) && I(w) && (timely ==> Causal(net))
    ensures I(Respond(net, before, w))
  {
    if w.status.Running? && |before.history| < |w.history| {
      ActsKeep(w, net(w.history), I, timely);
    }
  }

  // The part of the bridge that only dispatchCommand writes.
  predicate SameControl(b: Bridge.State, b': Bridge.State) {
    && b'.started == b.started && b'.closed == b.closed && b'.grant == b.grant
    && b'.preemptive == b.preemptive && b'.grants == b.grants && b'.acks == b.acks
  }

  lemma ActKeepsControl(w: World, a: Action)
    ensures SameControl(w.b, Act(w, a).b)
  {
  }

  lemma {:induction false} ActsKeepControl(w: World, actions: seq<Action>)
    ensures SameControl(w.b, Acts(w, actions).b)
    decreases |actions|
  {
    if actions != [] && w.status.Running? {
      ActKeepsControl(w, actions[0]);
      ActsKeepControl(Act(w, actions[0]), actions[1..]);
    }
  }

  lemma RunOneKeepsControl(net: Network, w: World)
    requires w.k.events != []
    ensures SameControl(w.b, RunOne(net, w).b)
  {
    ActsKeepControl(Begin(w), net(Begin(w).history));
  }

  lemma RunOneKeeps(net: Network, w: World, I: World -> bool, timely: bool)
    requires KeptInside(I, timely) && I(w) && Go(w) && w.b.started && (timely ==> Causal(net))
    ensures I(RunOne(net, w))
  {
    assert Enabled(w, DoBegin, timely);
    assert I(Take(w, DoBegin));
    RespondKeeps(net, w, Begin(w), I, timely);
  }

  lemma {:induction false} LoopKeeps(net: Network, w: World, n: nat, I: World -> bool, timely: bool)
    requires KeptInside(I, timely) && I(w) && (w.status.Running? ==> w.b.started) && (timely ==> Causal(net))
    ensures I(Loop(net, w, n))
    ensures SameControl(w.b, Loop(net, w, n).b)
    decreases n
  {
    if n > 0 && Go(w) {
      RunOneKeeps(net, w, I, timely);
      RunOneKeepsControl(net, w);
      LoopKeeps(net, RunOne(net, w), n - 1, I, timely);
    }
  }

  lemma DrainKeeps(net: Network, w: World, I: World -> bool, timely: bool)
    requires KeptInside(I, timely) && I(w) && (w.status.Running? ==> w.b.started) && (timely ==> Causal(net))
    ensures I(Drain(net, w))
    ensures !Go(Drain(net, w)) && SameControl(w.b, Drain(net, w).b)
  {
    if LoopEnds(net, w) {
      var n: nat :| EndsAfter(net, w, n) && Drain(net, w) == Loop(net, w, n);
      LoopKeeps(net, w, n, I, timely);
    } else {
      assert I(Take(w, DoDiverge));
    }
  }

  lemma OpenKeeps(net: Network, w: World, t: nat, I: World -> bool, timely: bool)
    requires Kept(I, timely) && I(w) && Listening(w) && t > 0 && (timely ==> Causal(net))
    ensures var w' := Open(net, w, t);
            I(w') && (w'.status.Running? ==> w'.b.started) && w'.b.grant == t && !w'.b.closed
  {
    var w1 := SetGrant(w, t);
    assert I(Take(w, DoSetGrant(t)));
    if !w.b.started {
      assert Enabled(w1, DoLaunch, timely);
      assert I(Take(w1, DoLaunch));
      var w2 := Launch(w1);
      RespondKeeps(net, w1, w2, I, timely);
      ActsKeepControl(w2, net(w2.history));
      var w3 := Respond(net, w1, w2);
      assert I(Take(w3, DoMarkStarted));
      assert I(Take(MarkStarted(w3), DoStartGrant));
    } else {
      assert I(Take(w1, DoStartGrant));
    }
  }

  lemma AdvanceKeeps(net: Network, w: World, t: nat, I: World -> bool, timely: bool)
    requires Kept(I, timely) && I(w) && Listening(w) && (timely ==> Causal(net))
    ensures I(Advance(net, w, t))
  {
    if t == 0 {
      var w1 := SetGrant(w, 0);
      assert I(Take(w, DoSetGrant(0)));
      assert Enabled(w1, DoSubmitOne, timely);
      assert I(Take(w1, DoSubmitOne));
      assert I(Take(SubmitOne(w1), DoSkipZero));
    } else {
      OpenKeeps(net, w, t, I, timely);
      DrainKeeps(net, Open(net, w, t), I, timely);
      assert Enabled(Drain(net, Open(net, w, t)), DoAnswer, timely);
      assert I(Take(Drain(net, Open(net, w, t)), DoAnswer));
    }
  }

  lemma {:induction false} ScheduleAllKeeps(w: World, time: nat, calls: seq<Call>, I: World -> bool, timely: bool)
    requires Kept(I, timely) && I(w) && Listening(w) && forall c :: c in calls ==> Deferrable(c)
    requires timely && calls != [] ==> w.k.currentTs <= time
    ensures I(ScheduleAll(w, time, calls))
    decreases |calls|
  {
    if calls != [] {
      assert Enabled(w, DoSchedule(time, calls[0]), timely);
      assert I(Take(w, DoSchedule(time, calls[0])));
      ScheduleAllKeeps(Schedule(w, time - w.k.currentTs, Deferred(calls[0])), time, calls[1..], I, timely);
    }
  }

  lemma {:induction false} MovesAreDeferrable(nodes: seq<(nat, Vector)>)
    ensures forall c :: c in Moves(nodes) ==> c.UpdateNodePosition?
  {
    if nodes != [] {
      MovesAreDeferrable(nodes[1..]);
    }
  }

  // What the dispatcher defers may be deferred, and what it does at once it does only before the start.
  lemma PlansAreEnabled(w: World, c: Command)
    requires Listening(w)
    ensures var p := PlanOf(w.b.started, c);
            && (p.AtTime? ==> forall x :: x in p.calls ==> Deferrable(x))
            && (p.Immediate? ==> !w.b.started && AtStart(p.call))
  {
    if c.UpdateNode? {
      MovesAreDeferrable(c.nodes);
    }
  }

  lemma ImmediateKeeps(net: Network, w: World, call: Call, I: World -> bool, timely: bool)
    requires Kept(I, timely) && I(w) && Listening(w) && !w.b.started && AtStart(call) && (timely ==> Causal(net))
    ensures I(Ack(Respond(net, w, Perform(w, call))))
  {
    assert Enabled(w, DoPerform(call), timely);
    assert I(Take(w, DoPerform(call)));
    RespondKeeps(net, w, Perform(w, call), I, timely);
    assert I(Take(Respond(net, w, Perform(w, call)), DoAck));
  }

  lemma AtTimeKeeps(w: World, time: nat, calls: seq<Call>, I: World -> bool, timely: bool)
    requires Kept(I, timely) && I(w) && Listening(w) && forall c :: c in calls ==> Deferrable(c)
    requires timely && calls != [] ==> w.k.currentTs <= time
    ensures I(Ack(ScheduleAll(w, time, calls)))
  {
    ScheduleAllKeeps(w, time, calls, I, timely);
    assert I(Take(ScheduleAll(w, time, calls), DoAck));
  }

  lemma EndingKeeps(w: World, why: Reason, I: World -> bool, timely: bool)
    requires Kept(I, timely) && I(w) && (why == LateNodeB || why == UnsupportedRadio)
    ensures I(Exit(w, why)) && I(Close(w)) && I(Finishing(w))
  {
    assert I(Take(w, DoExit(why)));
    assert I(Take(w, DoClose));
    assert I(Take(w, DoFinish));
  }

  lemma DispatchKeeps(net: Network, w: World, c: Command, I: World -> bool, timely: bool)
    requires Kept(I, timely) && I(w) && Listening(w)
    requires timely ==> Causal(net) && InTime(w, c)
    ensures I(Dispatch(net, w, c))
  {
    PlansAreEnabled(w, c);
    var p := PlanOf(w.b.started, c);
    if p.Immediate? {
      ImmediateKeeps(net, w, p.call, I, timely);
    } else if p.AtTime? {
      AtTimeKeeps(w, p.time, p.calls, I, timely);
    } else if p.Grant? {
      AdvanceKeeps(net, w, p.time, I, timely);
    } else {
      EndingKeeps(w, if p.Fail? then p.why else LateNodeB, I, timely);
    }
  }

  // A property kept by every step holds at the end of every run.
  lemma {:induction false} RunKeeps(net: Network, w: World, cs: seq<Command>, I: World -> bool, timely: bool)
    requires Kept(I, timely) && I(w)
    requires timely ==> Causal(net) && AllInTime(net, w, cs)
    ensures I(Run(net, w, cs))
    decreases |cs|
  {
    if cs != [] && Listening(w) {
      DispatchKeeps(net, w, cs[0], I, timely);
      RunKeeps(net, Dispatch(net, w, cs[0]), cs[1..], I, timely);
    }
  }
}
