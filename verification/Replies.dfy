// What END and PREEMPTED mean, and how far a grant can move the clock.
module Replies {
  import opened Types
  import opened Federation
  import opened Steps
  import opened Walks
  import opened Grants
  import Bridge
  import Kernel
  import KernelRuns
  import ListScheduler
  import Manager

  // ---------- one reply for each grant, and it comes last ----------

  ghost predicate NoReplySince(w0: World, w: World) {
    && w0.b.log <= w.b.log
    && forall i :: |w0.b.log| <= i < |w.b.log| ==> !Bridge.IsReply(w.b.log[i])
  }

  lemma InnerStepKeepsNoReply(w0: World, w: World, s: Step)
    requires NoReplySince(w0, w) && Inner(s) && Enabled(w, s, false)
    ensures NoReplySince(w0, Take(w, s))
  {
    hide Kernel.Insert, Kernel.Pop, Kernel.Remove, Bridge.Trim, Manager.Apply, Manager.Receive;
    if s.DoAct? {
      ActWritesNoReply(w0, w, s.action);
    }
    hide Act;
  }

  lemma ActWritesNoReply(w0: World, w: World, a: Action)
    requires NoReplySince(w0, w)
    ensures NoReplySince(w0, Act(w, a))
  {
    hide Kernel.Insert, Kernel.Remove, Kernel.Cancel, Kernel.ScheduleDestroy, Bridge.Trim, Manager.Receive;
  }

  // Each ADVANCE_TIME that completes appends reports other than replies and then exactly one reply, END or
  // PREEMPTED, with the current time; PREEMPTED only in preemptive mode.
  lemma OneReplyPerGrant(net: Network, w: World, t: nat)
    requires Listening(w) && Advance(net, w, t).status.Running?
    ensures var w' := Advance(net, w, t);
      && w.b.log < w'.b.log
      && (forall i :: |w.b.log| <= i < |w'.b.log| - 1 ==> !Bridge.IsReply(w'.b.log[i]))
      && Replied(w') && w'.b.log[|w'.b.log| - 1].time == w'.k.currentTs
      && (RepliedEnd(w') || (w.b.preemptive && t > 0))
  {
    if t > 0 {
      var I := (x: World) => NoReplySince(w, x);
      forall x, s | I(x) && Inner(s) && Enabled(x, s, false) ensures I(Take(x, s)) {
        InnerStepKeepsNoReply(w, x, s);
      }
      var w1 := SetGrant(w, t);
      RespondKeeps(net, w1, Launch(w1), I, false);
      AdvanceControl(net, w, t);
      assert I(Open(net, w, t));
      DrainKeeps(net, Open(net, w, t), I, false);
      hide Open;
    }
  }

  // A grant of time zero executes nothing, starts nothing, and answers END.
  lemma ZeroGrantExecutesNothing(net: Network, w: World)
    requires Listening(w)
    ensures var w' := Dispatch(net, w, AdvanceTime(0));
      && w'.k == w.k && w'.m == w.m && w'.history == w.history && w'.b.started == w.b.started
      && RepliedEnd(w') && w'.b.grant == 0 && w'.b.grants == w.b.grants
      && w'.b.log == w.b.log + (if w.b.preemptive || 1 in w.b.reported then [Bridge.End(w.k.currentTs)]
                                else [Bridge.NextEvent(1), Bridge.End(w.k.currentTs)])
  {
    hide Bridge.Trim;
  }

  // END: nothing within the grant is left in the list, unless the simulator was stopped.
  lemma EndMeansDone(net: Network, w: World, t: nat, e: Event)
    requires KernelRuns.Sound(w) && Causal(net) && Listening(w) && t > 0
    requires var w' := Dispatch(net, w, AdvanceTime(t)); w'.status.Running? && RepliedEnd(w') && e in w'.k.events
    ensures var w' := Dispatch(net, w, AdvanceTime(t)); w'.k.stop || t < e.ts
  {
    hide Advance, KernelRuns.KernelSound, Open, Alike, Free;
    var w' := Dispatch(net, w, AdvanceTime(t));
    KernelRuns.DispatchIsSound(net, w, AdvanceTime(t));
    SoundIsSorted(w');
    var m := GrantExecutes(net, w, t);
    var q := w'.k.events;
    var i :| 0 <= i < |q| && q[i] == e;
    assert i > 0 ==> ListScheduler.Before(q[0], q[i]);
  }

  lemma SoundIsSorted(w: World)
    requires KernelRuns.Sound(w)
    ensures ListScheduler.Sorted(w.k.events)
  {
  }

  // A queued command within the grant has run when the grant is answered END, unless the simulator was stopped.
  lemma QueuedCommandIsCarriedOut(net: Network, w: World, t: nat, e: Event)
    requires KernelRuns.Sound(w) && Causal(net) && Listening(w) && t > 0
    requires e in w.k.events && e.job.Deferred? && e.ts <= t
    requires var w' := Dispatch(net, w, AdvanceTime(t)); w'.status.Running? && RepliedEnd(w') && !w'.k.stop
    ensures var j := Dispatch(net, w, AdvanceTime(t)).k.journal; e in j.executed && e.uid in j.ran
  {
    hide KernelRuns.KernelSound, Dispatch;
    KernelRuns.CommandIsKept(e);
    DispatchKeeps(net, w, AdvanceTime(t), (x: World) => KernelRuns.Sound(x) && KernelRuns.Pending(x, e), true);
    if e in Dispatch(net, w, AdvanceTime(t)).k.events {
      EndMeansDone(net, w, t, e);
    }
  }

  // From the command to its handler: each call that a command asks for has run once a grant that reaches its time is
  // answered END, unless the simulator was stopped.
  lemma CommandIsCarriedOut(net: Network, w: World, c: Command, i: nat, time: nat, call: Call, t: nat)
    requires KernelRuns.Sound(w) && Causal(net) && Listening(w) && InTime(w, c)
    requires KernelRuns.Asks(c, w.b.started, i, time, call) && time <= t && t > 0
    requires var w' := Dispatch(net, Dispatch(net, w, c), AdvanceTime(t));
             w'.status.Running? && RepliedEnd(w') && !w'.k.stop
    ensures var e := Event(time, w.k.uid + i, w.k.currentContext, Deferred(call));
            var j := Dispatch(net, Dispatch(net, w, c), AdvanceTime(t)).k.journal;
            e in j.executed && e.uid in j.ran
  {
    KernelRuns.DispatchIsSound(net, w, c);
    KernelRuns.CommandIsQueuedForItsTime(net, w, c, i, time, call);
    KernelRuns.PlanIsWhatIsAsked(c, w.b.started);
    var p := PlanOf(w.b.started, c);
    hide ScheduleAll, Advance, KernelRuns.KernelSound, KernelRuns.Asks;
    KernelRuns.ScheduleAllKeepsControl(w, p.time, p.calls);
    QueuedCommandIsCarriedOut(net, Dispatch(net, w, c), t, Event(time, w.k.uid + i, w.k.currentContext, Deferred(call)));
  }

  // ---------- acknowledgements ----------

  lemma AdvanceCounts(net: Network, w: World, t: nat)
    requires Listening(w) && Advance(net, w, t).status.Running?
    ensures var b := Advance(net, w, t).b; b.acks == w.b.acks && b.grants == w.b.grants + if t > 0 then 1 else 0
  {
    if t > 0 {
      AdvanceControl(net, w, t);
      var w1 := SetGrant(w, t);
      ActsKeepControl(Launch(w1), net(Launch(w1).history));
      DrainKeeps(net, Open(net, w, t), (x: World) => true, false);
      assert Open(net, w, t).status.Running? by { RunningBefore(net, Open(net, w, t)); }
      hide Drain, Launch, Acts;
    }
  }

  lemma RunningBefore(net: Network, w: World)
    requires Drain(net, w).status.Running?
    ensures w.status.Running?
  {
    var n: nat :| EndsAfter(net, w, n) && Drain(net, w) == Loop(net, w, n);
  }

  // A command that is carried out or deferred is acknowledged once; a grant is answered by its reply instead, and
  // m_countTimeAdvanceGrant counts the positive ones.
  lemma OneAckPerCommand(net: Network, w: World, c: Command)
    requires Listening(w) && Dispatch(net, w, c).status.Running?
    ensures var b := Dispatch(net, w, c).b;
      && b.acks == w.b.acks + (if c.AdvanceTime? || c.ShutDown? || c.InitAgain? || c.Unknown?
                                   || (c.AddNode? && c.kind == AddOther) then 0 else 1)
      && b.grants == w.b.grants + (if c.AdvanceTime? && c.time > 0 then 1 else 0)
  {
    var p := PlanOf(w.b.started, c);
    match p
    case Immediate(call) => ActsKeepControl(Perform(w, call), net(Perform(w, call).history));
    case AtTime(time, calls) => KernelRuns.ScheduleAllKeepsControl(w, time, calls);
    case Grant(t) => AdvanceCounts(net, w, t);
    case _ =>
    hide Advance, Acts, Perform, ScheduleAll, Manager.Apply;
  }

  // ---------- pre-emption ----------

  predicate EarlyReception(r: Bridge.Report, t: nat) {
    Bridge.IsReception(r) && r.time < t
  }

  predicate EarlyReport(r: Bridge.Report, t: nat) {
    !Bridge.IsReply(r) && r.time < t
  }

  // The flag m_didRequestEventInThePast says: something before the grant was reported, a reception or, outside
  // preemptive mode, an event. In preemptive mode no event is reported.
  ghost predicate FlagMeaning(w0: World, w: World) {
    && w.b.grant == w0.b.grant && w.b.preemptive == w0.b.preemptive && |w0.b.log| <= |w.b.log|
    && (w.b.past <==> exists i :: |w0.b.log| <= i < |w.b.log| && EarlyReport(w.b.log[i], w.b.grant))
    && (w.b.preemptive ==> forall i :: |w0.b.log| <= i < |w.b.log| ==> !w.b.log[i].NextEvent?)
  }

  lemma FlagAfter(w0: World, w: World, w': World, r: Bridge.Report)
    requires FlagMeaning(w0, w) && !Bridge.IsReply(r) && (r.NextEvent? ==> !w.b.preemptive)
    requires w'.b.log == w.b.log + [r] && w'.b.past == (w.b.past || r.time < w.b.grant)
    requires w'.b.grant == w.b.grant && w'.b.preemptive == w.b.preemptive
    ensures FlagMeaning(w0, w')
  {
    var n := |w.b.log|;
    assert w'.b.log[n] == r && forall i :: 0 <= i < n ==> w'.b.log[i] == w.b.log[i];
  }

  lemma ScheduleKeepsFlag(w0: World, w: World, context: nat, delay: int, job: Job)
    requires FlagMeaning(w0, w)
    ensures FlagMeaning(w0, ScheduleIn(w, context, delay, job))
  {
    hide Kernel.Insert, Bridge.Trim;
    var w' := ScheduleIn(w, context, delay, job);
    var ts := w.k.currentTs + delay;
    if ts >= 0 && w'.b.log != w.b.log {
      FlagAfter(w0, w, w', Bridge.NextEvent(ts));
    }
  }

  lemma InnerStepKeepsFlag(w0: World, w: World, s: Step)
    requires FlagMeaning(w0, w) && Inner(s) && Enabled(w, s, false)
    ensures FlagMeaning(w0, Take(w, s))
  {
    if s.DoAct? {
      ActKeepsFlag(w0, w, s.action);
    }
    hide Act, Kernel.Pop, Manager.Apply, EarlyReport;
  }

  lemma ActKeepsFlag(w0: World, w: World, a: Action)
    requires FlagMeaning(w0, w)
    ensures FlagMeaning(w0, Act(w, a))
  {
    hide EarlyReport, ScheduleIn, Kernel.Insert, Kernel.Remove, Manager.Receive;
    match a
    case Later(delay, tag) => ScheduleKeepsFlag(w0, w, w.k.currentContext, delay, Timer(tag));
    case LaterIn(context, delay, tag) => ScheduleKeepsFlag(w0, w, context, delay, Timer(tag));
    case StopLater(delay) => ScheduleKeepsFlag(w0, w, w.k.currentContext, delay, StopCall);
    case Deliver(app, msg) =>
      var d := Manager.Receive(w.m, app).1;
      if d.Forwarded? {
        var now := w.k.currentTs;
        FlagAfter(w0, w, Act(w, a), if d.wifi then Bridge.RecvWifi(now, d.id, msg) else Bridge.RecvCell(now, d.id, msg));
      }
    case _ =>
  }

  // In every round of a grant the flag is set exactly if something before the grant was reported since it began.
  lemma FlagIsExact(net: Network, w: World, t: nat, k: nat)
    requires Listening(w) && t > 0
    ensures Open(net, w, t).status.Running? ==> FlagMeaning(Open(net, w, t), Loop(net, Open(net, w, t), k))
  {
    var w1 := Open(net, w, t);
    AdvanceControl(net, w, t);
    hide Open;
    if w1.status.Running? {
      var I := (x: World) => FlagMeaning(w1, x);
      forall x, s | I(x) && Inner(s) && Enabled(x, s, false) ensures I(Take(x, s)) {
        InnerStepKeepsFlag(w1, x, s);
      }
      LoopKeeps(net, w1, k, I, false);
    }
  }

  // The round of the loop that set the flag is the last one.
  lemma {:induction false} LastRound(net: Network, w0: World, w: World, n: nat) returns (u: World)
    requires FlagMeaning(w0, w) && !Interrupted(w) && Interrupted(Loop(net, w, n))
    requires w.b.started
    ensures Go(u) && u.b.started && FlagMeaning(w0, u) && RunOne(net, u) == Loop(net, w, n)
    ensures exists k: nat :: u == Loop(net, w, k)
    decreases n
  {
    var w1 := RunOne(net, w);
    var I := (x: World) => FlagMeaning(w0, x);
    forall x, s | I(x) && Inner(s) && Enabled(x, s, false) ensures I(Take(x, s)) {
      InnerStepKeepsFlag(w0, x, s);
    }
    RunOneKeeps(net, w, I, false);
    RunOneKeepsControl(net, w);
    hide RunOne;
    if Interrupted(w1) {
      u := w;
      assert u == Loop(net, w, 0);
    } else {
      u := LastRound(net, w0, w1, n - 1);
      var k: nat :| u == Loop(net, w1, k);
      assert u == Loop(net, w, k + 1);
    }
  }

  // While one handler runs the clock stands still, and receptions are stamped with it.
  ghost predicate SameInstant(u: World, w: World) {
    && u.b.log <= w.b.log && w.k.currentTs == u.k.currentTs
    && forall i :: |u.b.log| <= i < |w.b.log| && Bridge.IsReception(w.b.log[i]) ==> w.b.log[i].time == w.k.currentTs
  }

  lemma ActInAnInstant(w: World, a: Action)
    ensures SameInstant(w, Act(w, a))
  {
    hide Bridge.Trim, Manager.Receive, ListScheduler.Insert, ListScheduler.Remove;
  }

  lemma {:induction false} ActsInAnInstant(w: World, actions: seq<Action>)
    ensures SameInstant(w, Acts(w, actions))
    decreases |actions|
  {
    hide Act;
    if actions != [] && w.status.Running? {
      ActInAnInstant(w, actions[0]);
      ActsInAnInstant(Act(w, actions[0]), actions[1..]);
    }
  }

  lemma BeginWritesNothing(w: World)
    requires w.k.events != []
    ensures Begin(w).b == w.b
    ensures w.k.currentTs <= w.k.events[0].ts ==> Begin(w).k.currentTs == w.k.events[0].ts
  {
    hide Manager.Apply;
  }

  lemma FlagOfNext(net: Network, w1: World, u: World)
    requires FlagMeaning(w1, u) && Go(u) && u.b.started
    ensures FlagMeaning(w1, RunOne(net, u))
  {
    var I := (y: World) => FlagMeaning(w1, y);
    forall y, s | I(y) && Inner(s) && Enabled(y, s, false) ensures I(Take(y, s)) {
      InnerStepKeepsFlag(w1, y, s);
    }
    RunOneKeeps(net, u, I, false);
  }

  // The round that set the flag wrote a reception stamped with the current time, which lies before the grant.
  lemma LastRoundReceived(net: Network, w1: World, u: World) returns (i: nat)
    requires FlagMeaning(w1, u) && Go(u) && u.b.started && Interrupted(RunOne(net, u))
    ensures var x := RunOne(net, u);
      && |u.b.log| <= i < |x.b.log| && Bridge.IsReception(x.b.log[i])
      && x.b.log[i].time == x.k.currentTs < w1.b.grant
  {
    FlagOfNext(net, w1, u);
    BeginWritesNothing(u);
    ActsInAnInstant(Begin(u), net(Begin(u).history));
    hide Begin, Acts;
    var x := RunOne(net, u);
    i :| |w1.b.log| <= i < |x.b.log| && EarlyReport(x.b.log[i], x.b.grant);
    assert forall j :: 0 <= j < |u.b.log| ==> x.b.log[j] == u.b.log[j];
  }

  // PREEMPTED means: Now lies before the grant; the last event that this grant executed, the head of the list in world
  // u of its loop, wrote a RECV report stamped Now; and no event was executed after the first such report of this grant.
  lemma PreemptedMeaning(net: Network, w: World, t: nat) returns (u: World, i: nat)
    requires Listening(w) && t > 0
    requires var w' := Dispatch(net, w, AdvanceTime(t)); w'.status.Running? && !RepliedEnd(w')
    ensures var w' := Dispatch(net, w, AdvanceTime(t));
      && w.b.preemptive && w'.k.currentTs < t
      && (exists k: nat :: u == Loop(net, Open(net, w, t), k))
      && Go(u) && w' == Answer(RunOne(net, u))
      && |u.b.log| <= i < |w'.b.log| - 1 && Bridge.IsReception(w'.b.log[i]) && w'.b.log[i].time == w'.k.currentTs
      && (forall j :: |Open(net, w, t).b.log| <= j < |u.b.log| ==> !EarlyReception(u.b.log[j], t))
  {
    var w1 := Open(net, w, t);
    AdvanceControl(net, w, t);
    hide Open;
    u := InterruptedLoop(net, w1);
    i := LastRoundReceived(net, w1, u);
    hide RunOne, Drain;
  }

  lemma InterruptedLoop(net: Network, w1: World) returns (u: World)
    requires w1.b.preemptive && !w1.b.past && (w1.status.Running? ==> w1.b.started)
    requires Drain(net, w1).status.Running? && !RepliedEnd(Answer(Drain(net, w1)))
    ensures Go(u) && u.b.started && FlagMeaning(w1, u) && RunOne(net, u) == Drain(net, w1) && Interrupted(RunOne(net, u))
    ensures exists k: nat :: u == Loop(net, w1, k)
  {
    var x := Drain(net, w1);
    assert LoopEnds(net, w1) && Interrupted(x);
    var n: nat :| EndsAfter(net, w1, n) && x == Loop(net, w1, n);
    assert FlagMeaning(w1, w1);
    assert w1.status.Running?;
    u := LastRound(net, w1, w1, n);
  }

  // ---------- the clock ----------

  function MaxGrant(cs: seq<Command>): nat {
    if cs == [] then 0
    else
      var rest := MaxGrant(cs[1..]);
      if cs[0].AdvanceTime? && cs[0].time > rest then cs[0].time else rest
  }

  ghost predicate ClockWithin(g: nat, w: World) {
    w.k.currentTs <= g && w.b.grant <= g
  }

  lemma InnerStepKeepsClock(g: nat, w: World, s: Step)
    requires ClockWithin(g, w) && Inner(s) && Enabled(w, s, false)
    ensures ClockWithin(g, Take(w, s))
  {
    hide Bridge.Trim, Manager.Apply, ListScheduler.Insert, ListScheduler.Remove;
  }

  lemma {:induction false} ScheduleAllKeepsClock(g: nat, w: World, time: nat, calls: seq<Call>)
    requires ClockWithin(g, w)
    ensures ClockWithin(g, ScheduleAll(w, time, calls))
    decreases |calls|
  {
    if calls != [] {
      hide Bridge.Trim, ListScheduler.Insert;
      ScheduleAllKeepsClock(g, Schedule(w, time - w.k.currentTs, Deferred(calls[0])), time, calls[1..]);
    }
  }

  lemma DispatchKeepsClock(g: nat, net: Network, w: World, c: Command)
    requires ClockWithin(g, w) && Listening(w) && (c.AdvanceTime? ==> c.time <= g)
    ensures ClockWithin(g, Dispatch(net, w, c))
  {
    var I := (x: World) => ClockWithin(g, x);
    forall x, s | I(x) && Inner(s) && Enabled(x, s, false) ensures I(Take(x, s)) {
      InnerStepKeepsClock(g, x, s);
    }
    var p := PlanOf(w.b.started, c);
    if p.Immediate? {
      ImmediateKeepsClock(g, net, w, p.call, I);
    } else if p.AtTime? {
      ScheduleAllKeepsClock(g, w, p.time, p.calls);
    } else if p.Grant? && p.time > 0 {
      GrantKeepsClock(g, net, w, p.time, I);
    }
    hide Advance, Bridge.Trim, Manager.Apply, ScheduleAll, Respond, Perform;
  }

  lemma ImmediateKeepsClock(g: nat, net: Network, w: World, call: Call, I: World -> bool)
    requires KeptInside(I, false) && forall x :: I(x) == ClockWithin(g, x)
    requires ClockWithin(g, w)
    ensures ClockWithin(g, Respond(net, w, Perform(w, call)))
  {
    hide Manager.Apply;
    assert I(Perform(w, call));
    RespondKeeps(net, w, Perform(w, call), I, false);
  }

  lemma GrantKeepsClock(g: nat, net: Network, w: World, t: nat, I: World -> bool)
    requires KeptInside(I, false) && forall x :: I(x) == ClockWithin(g, x)
    requires ClockWithin(g, w) && Listening(w) && 0 < t <= g
    ensures ClockWithin(g, Advance(net, w, t))
  {
    var w1 := SetGrant(w, t);
    assert I(Launch(w1));
    RespondKeeps(net, w1, Launch(w1), I, false);
    AdvanceControl(net, w, t);
    assert I(Open(net, w, t));
    DrainKeeps(net, Open(net, w, t), I, false);
    hide Open, Drain;
  }

  // Over any run, Now never exceeds the largest grant received so far.
  lemma {:induction false} NowStaysWithinGrants(net: Network, w: World, cs: seq<Command>, g: nat)
    requires ClockWithin(g, w) && MaxGrant(cs) <= g
    ensures Run(net, w, cs).k.currentTs <= g
    decreases |cs|
  {
    if cs != [] && Listening(w) {
      DispatchKeepsClock(g, net, w, cs[0]);
      NowStaysWithinGrants(net, Dispatch(net, w, cs[0]), cs[1..], g);
    }
  }

  // ---------- the clock in the middle of a run ----------

  predicate GrantsWithin(ss: seq<Step>, g: nat) {
    forall s :: s in ss && s.DoSetGrant? ==> s.time <= g
  }

  lemma StepKeepsClock(g: nat, w: World, s: Step)
    requires ClockWithin(g, w) && Enabled(w, s, false) && (s.DoSetGrant? ==> s.time <= g)
    ensures ClockWithin(g, Take(w, s))
  {
    hide Bridge.Trim, Manager.Apply, Manager.Receive, Manager.MakeSpares, ListScheduler.Insert, ListScheduler.Remove;
    if Inner(s) {
      InnerStepKeepsClock(g, w, s);
    }
    hide Act, Begin;
  }

  lemma {:induction false} WalkKeepsClock(g: nat, w: World, ss: seq<Step>)
    requires ClockWithin(g, w) && Possible(w, ss, false) && GrantsWithin(ss, g)
    ensures ClockWithin(g, Walk(w, ss))
    decreases |ss|
  {
    hide Take, Enabled;
    if ss != [] {
      assert ss[0] in ss && forall s :: s in ss[1..] ==> s in ss;
      StepKeepsClock(g, w, ss[0]);
      WalkKeepsClock(g, Take(w, ss[0]), ss[1..]);
    }
  }

  lemma {:induction false} ActsSetNoGrant(w: World, actions: seq<Action>)
    ensures forall s :: s in ActsSteps(w, actions) ==> s.DoAct?
    decreases |actions|
  {
    hide Act;
    if actions != [] && w.status.Running? {
      ActsSetNoGrant(Act(w, actions[0]), actions[1..]);
    }
  }

  lemma {:induction false} LoopSetsNoGrant(net: Network, w: World, n: nat)
    ensures forall s :: s in LoopSteps(net, w, n) ==> Inner(s)
    decreases n
  {
    hide RunOne, Begin, ActsSteps;
    if n > 0 && Go(w) {
      ActsSetNoGrant(Begin(w), net(Begin(w).history));
      LoopSetsNoGrant(net, RunOne(net, w), n - 1);
    }
  }

  lemma {:induction false} SchedulingSetsNoGrant(time: nat, calls: seq<Call>)
    ensures forall s :: s in ScheduleSteps(time, calls) ==> s.DoSchedule?
  {
    if calls != [] {
      SchedulingSetsNoGrant(time, calls[1..]);
    }
  }

  lemma CommandSetsItsGrant(net: Network, w: World, c: Command, n: nat)
    ensures forall s :: s in CommandSteps(net, w, c, n) && s.DoSetGrant? ==> c.AdvanceTime? && s.time == c.time
  {
    hide ActsSteps, LoopSteps, ScheduleSteps, Launch, Perform, Open, Loop;
    match PlanOf(w.b.started, c)
    case Immediate(call) => ActsSetNoGrant(Perform(w, call), net(Perform(w, call).history));
    case AtTime(time, calls) => SchedulingSetsNoGrant(time, calls);
    case Grant(t) => {
      var w1 := Launch(SetGrant(w, t));
      ActsSetNoGrant(w1, net(w1.history));
      LoopSetsNoGrant(net, Open(net, w, t), n);
    }
    case _ =>
  }

  lemma {:induction false} TrailStaysWithinGrants(net: Network, w: World, cs: seq<Command>, n: nat)
    ensures GrantsWithin(Trail(net, w, cs, n), MaxGrant(cs))
    decreases |cs|
  {
    hide CommandSteps, Dispatch, Completes;
    if cs != [] && Listening(w) {
      CommandSetsItsGrant(net, w, cs[0], n);
      TrailStaysWithinGrants(net, Dispatch(net, w, cs[0]), cs[1..], n);
    }
  }

  // At any moment of a run too, Now is at most the largest grant.
  lemma NowIsWithinGrants(net: Network, w: World, cs: seq<Command>, n: nat, i: nat)
    requires i <= |Trail(net, w, cs, n)| && ClockWithin(MaxGrant(cs), w)
    ensures Moment(net, w, cs, n, i).k.currentTs <= MaxGrant(cs)
  {
    TrailStaysWithinGrants(net, w, cs, n);
    LaterMoment(net, w, cs, n, i, i, false);
    var ss := Trail(net, w, cs, n)[..i];
    assert forall s :: s in ss ==> s in Trail(net, w, cs, n);
    WalkKeepsClock(MaxGrant(cs), w, ss);
  }
}
