// What the ambassador can rely on in the stream of reports, over every run.
module ReportRuns {
  import opened Types
  import opened Federation
  import opened Steps
  import opened Walks
  import Bridge
  import BridgeTheory
  import Kernel
  import KernelRuns
  import Manager

  // ---------- every future event time is announced ----------

  // Outside preemptive mode the cache stands for the full history, and the positive times of Now, of every queued
  // event and of every event ever inserted have been written in NEXT_EVENT reports.
  ghost predicate Announced(w: World) {
    !w.b.preemptive ==>
      && BridgeTheory.CacheInv(w.b)
      && (w.k.currentTs > 0 ==> w.k.currentTs in w.b.submitted)
      && (forall e :: e in w.k.events && e.ts > 0 ==> e.ts in w.b.submitted)
      && (forall id :: id in w.k.journal.issued && id.ts > 0 ==> id.ts in w.b.submitted)
  }

  // A longer log with the same NEXT_EVENT reports changes nothing for the cache.
  lemma OtherReportsKeepCache(b: Bridge.State, r: Bridge.Report)
    requires BridgeTheory.CacheInv(b) && !r.NextEvent?
    ensures BridgeTheory.CacheInv(b.(log := b.log + [r]))
  {
  }

  lemma ScheduleKeepsAnnounced(w: World, context: nat, delay: int, job: Job)
    requires Announced(w)
    ensures Announced(ScheduleIn(w, context, delay, job))
  {
    hide BridgeTheory.CacheInv;
    var ts := w.k.currentTs + delay;
    if ts >= 0 && !w.b.preemptive {
      BridgeTheory.CacheRefinesHistory(w.b, ts);
    }
  }

  lemma ReceiveKeepsAnnounced(w: World, b: Bridge.State, r: Bridge.Report)
    requires Announced(w) && Bridge.IsReception(r) && b == Bridge.WriteReceive(w.b, r)
    ensures Announced(w.(b := b))
  {
    if !w.b.preemptive {
      OtherReportsKeepCache(w.b, r);
    }
  }

  lemma ActKeepsAnnounced(w: World, a: Action)
    requires Announced(w)
    ensures Announced(Act(w, a))
  {
    hide BridgeTheory.CacheInv, ScheduleIn, Manager.Receive;
    match a
    case Later(delay, tag) => ScheduleKeepsAnnounced(w, w.k.currentContext, delay, Timer(tag));
    case LaterIn(context, delay, tag) => ScheduleKeepsAnnounced(w, context, delay, Timer(tag));
    case StopLater(delay) => ScheduleKeepsAnnounced(w, w.k.currentContext, delay, StopCall);
    case Deliver(app, msg) =>
      var d := Manager.Receive(w.m, app).1;
      if d.Forwarded? {
        var now := w.k.currentTs;
        var r := if d.wifi then Bridge.RecvWifi(now, d.id, msg) else Bridge.RecvCell(now, d.id, msg);
        ReceiveKeepsAnnounced(w, Bridge.WriteReceive(w.b, r), r);
      }
    case _ =>
  }

  lemma StepKeepsAnnounced(w: World, s: Step, timely: bool)
    requires Announced(w) && Enabled(w, s, timely)
    ensures Announced(Take(w, s))
  {
    hide BridgeTheory.CacheInv, ScheduleIn, Act, Manager.Apply, Manager.MakeSpares;
    match s
    case DoAct(a) => ActKeepsAnnounced(w, a);
    case DoSchedule(t, c) => ScheduleKeepsAnnounced(w, w.k.currentContext, t - w.k.currentTs, Deferred(c));
    case DoSubmitOne =>
      if !w.b.preemptive {
        BridgeTheory.CacheRefinesHistory(w.b, 1);
      }
    case DoAnswer => ReplyKeepsCache(w);
    case DoSkipZero => ReplyKeepsCache(w);
    case DoBegin => assert w.k.events[0] in w.k.events;
    case _ => FlagsKeepCache(w.b, Take(w, s).b);
  }

  lemma FlagsKeepCache(b: Bridge.State, b': Bridge.State)
    requires b'.reported == b.reported && b'.submitted == b.submitted && b'.log == b.log
    ensures BridgeTheory.CacheInv(b) ==> BridgeTheory.CacheInv(b')
  {
  }

  lemma ReplyKeepsCache(w: World)
    ensures BridgeTheory.CacheInv(w.b) ==>
              BridgeTheory.CacheInv(Answer(w).b) && BridgeTheory.CacheInv(SkipZero(w).b)
  {
    if BridgeTheory.CacheInv(w.b) {
      OtherReportsKeepCache(w.b, Bridge.Preempted(w.k.currentTs));
      OtherReportsKeepCache(w.b, Bridge.End(w.k.currentTs));
    }
  }

  lemma AnnouncedIsKept()
    ensures Kept((x: World) => Announced(x), false)
  {
    forall x, s | Announced(x) && Enabled(x, s, false) ensures Announced(Take(x, s)) {
      StepKeepsAnnounced(x, s, false);
    }
  }

  lemma RunKeepsAnnounced(net: Network, w: World, cs: seq<Command>)
    requires Announced(w)
    ensures Announced(Run(net, w, cs))
  {
    AnnouncedIsKept();
    RunKeeps(net, w, cs, (x: World) => Announced(x), false);
  }

  lemma WalkKeepsAnnounced(w: World, ss: seq<Step>)
    requires Announced(w) && Possible(w, ss, false)
    ensures Announced(Walk(w, ss))
  {
    AnnouncedIsKept();
    WalkKeeps(w, ss, (x: World) => Announced(x), false);
  }

  // At any moment in non-preemptive mode, the positive time of every event ever inserted is in a NEXT_EVENT report
  // already written: of those still queued, executed and removed alike, those of ScheduleNow included.
  lemma EveryEventTimeIsReported(w: World, ss: seq<Step>, id: EventId)
    requires Announced(w) && Possible(w, ss, false) && !Walk(w, ss).b.preemptive
    requires id in Walk(w, ss).k.journal.issued && id.ts > 0
    ensures Bridge.NextEvent(id.ts) in Walk(w, ss).b.log
  {
    WalkKeepsAnnounced(w, ss);
  }

  // The step inserts an event for this time with Schedule or ScheduleWithContext.
  predicate SchedulesAt(w: World, s: Step, ts: nat) {
    match s
    case DoAct(Later(delay, _)) => w.k.currentTs + delay == ts
    case DoAct(LaterIn(_, delay, _)) => w.k.currentTs + delay == ts
    case DoAct(StopLater(delay)) => w.k.currentTs + delay == ts
    case DoSchedule(t, _) => t == ts
    case _ => false
  }

  lemma ActKeepsReport(w: World, a: Action, r: Bridge.Report)
    requires r in w.b.log
    ensures r in Act(w, a).b.log
  {
    hide Kernel.Insert, Kernel.Remove, Bridge.Trim, Manager.Receive;
  }

  lemma StepKeepsReport(w: World, s: Step, r: Bridge.Report)
    requires r in w.b.log
    ensures r in Take(w, s).b.log
  {
    hide Act, Kernel.Insert, Kernel.Pop, Kernel.Destroy, Bridge.Trim, Manager.Apply, Manager.MakeSpares;
    if s.DoAct? {
      ActKeepsReport(w, s.action, r);
    }
  }

  lemma SchedulingReports(w: World, s: Step, ts: nat)
    requires Announced(w) && !w.b.preemptive && SchedulesAt(w, s, ts)
    ensures Bridge.NextEvent(ts) in Take(w, s).b.log
  {
    BridgeTheory.CacheRefinesHistory(w.b, ts);
    hide BridgeTheory.CacheInv, Kernel.Insert, Bridge.WriteNextTime;
  }

  // Time zero too, if the event was inserted by Schedule or ScheduleWithContext: the report is written by that call.
  lemma ScheduledTimeIsReported(w: World, ss: seq<Step>, ts: nat)
    requires Announced(w) && !w.b.preemptive && ss != [] && Possible(w, ss, false) && SchedulesAt(w, ss[0], ts)
    ensures Bridge.NextEvent(ts) in Walk(w, ss).b.log
  {
    var I := (x: World) => Bridge.NextEvent(ts) in x.b.log;
    forall x, s | I(x) && Enabled(x, s, false) ensures I(Take(x, s)) {
      StepKeepsReport(x, s, Bridge.NextEvent(ts));
    }
    SchedulingReports(w, ss[0], ts);
    WalkKeeps(Take(w, ss[0]), ss[1..], I, false);
  }

  // ---------- repeated reports ----------

  ghost predicate Rare(w: World) {
    Announced(w) && (!w.b.preemptive ==> BridgeTheory.RepeatsAreRare(w.b.log))
  }

  lemma ScheduleKeepsRare(w: World, context: nat, delay: int, job: Job)
    requires Rare(w)
    ensures var w' := ScheduleIn(w, context, delay, job); !w'.b.preemptive ==> BridgeTheory.RepeatsAreRare(w'.b.log)
  {
    hide BridgeTheory.CacheInv, BridgeTheory.RepeatsAreRare, Bridge.WriteNextTime, Kernel.Insert;
    PreemptiveStays(w.b, w.k.currentTs + delay);
    if w.k.currentTs + delay >= 0 && !w.b.preemptive {
      BridgeTheory.WriteKeepsRepeatsRare(w.b, w.k.currentTs + delay);
    }
  }

  lemma PreemptiveStays(b: Bridge.State, t: int)
    ensures t >= 0 ==> Bridge.WriteNextTime(b, t).preemptive == b.preemptive
  {
  }

  lemma OtherReportIsRare(log: seq<Bridge.Report>, r: Bridge.Report)
    requires BridgeTheory.RepeatsAreRare(log) && !r.NextEvent?
    ensures BridgeTheory.RepeatsAreRare(log + [r])
  {
    BridgeTheory.OneMoreReport(log, r, {});
  }

  lemma ActKeepsRare(w: World, a: Action)
    requires Rare(w)
    ensures Rare(Act(w, a))
  {
    ActKeepsAnnounced(w, a);
    hide Announced, BridgeTheory.RepeatsAreRare, ScheduleIn, Manager.Receive, Kernel.Remove, Kernel.Insert;
    match a
    case Later(delay, tag) => ScheduleKeepsRare(w, w.k.currentContext, delay, Timer(tag));
    case LaterIn(context, delay, tag) => ScheduleKeepsRare(w, context, delay, Timer(tag));
    case StopLater(delay) => ScheduleKeepsRare(w, w.k.currentContext, delay, StopCall);
    case Deliver(app, msg) =>
      var d := Manager.Receive(w.m, app).1;
      if d.Forwarded? && !w.b.preemptive {
        var now := w.k.currentTs;
        OtherReportIsRare(w.b.log, if d.wifi then Bridge.RecvWifi(now, d.id, msg) else Bridge.RecvCell(now, d.id, msg));
      }
    case _ =>
  }

  lemma StepKeepsRare(w: World, s: Step)
    requires Rare(w) && Enabled(w, s, false)
    ensures Rare(Take(w, s))
  {
    hide Announced, BridgeTheory.RepeatsAreRare, ScheduleIn, Act, Bridge.WriteNextTime, Manager.Apply, Manager.MakeSpares,
         Kernel.Pop, Kernel.Destroy;
    StepKeepsAnnounced(w, s, false);
    match s
    case DoAct(a) => ActKeepsRare(w, a);
    case DoSchedule(t, c) => ScheduleKeepsRare(w, w.k.currentContext, t - w.k.currentTs, Deferred(c));
    case DoSubmitOne => SubmittingIsRare(w);
    case DoAnswer =>
      if w.status.Running? && !w.b.preemptive {
        OtherReportIsRare(w.b.log, Answer(w).b.log[|w.b.log|]);
      }
    case DoSkipZero =>
      if !w.b.preemptive {
        OtherReportIsRare(w.b.log, Bridge.End(w.k.currentTs));
      }
    case _ =>
  }

  lemma SubmittingIsRare(w: World)
    requires Rare(w)
    ensures var w' := SubmitOne(w); !w'.b.preemptive ==> BridgeTheory.RepeatsAreRare(w'.b.log)
  {
    PreemptiveStays(w.b, 1);
    if !w.b.preemptive {
      BridgeTheory.WriteKeepsRepeatsRare(w.b, 1);
    }
  }

  // At any moment in non-preemptive mode: before a time is reported again, at least 1000 different larger times were
  // reported.
  lemma RepeatsComeAfterManyLargerTimes(w: World, ss: seq<Step>, i: nat, j: nat)
    requires Rare(w) && Possible(w, ss, false) && !Walk(w, ss).b.preemptive
    requires var log := Walk(w, ss).b.log; i < j < |log| && log[i].NextEvent? && log[j] == log[i]
    ensures var log := Walk(w, ss).b.log;
            exists larger: set<nat> :: |larger| == 1000
                                       && forall x :: x in larger ==> log[i].time < x && Bridge.NextEvent(x) in log[..j]
  {
    var I := (x: World) => Rare(x);
    forall x, s | I(x) && Enabled(x, s, false) ensures I(Take(x, s)) {
      StepKeepsRare(x, s);
    }
    WalkKeeps(w, ss, I, false);
    var log := Walk(w, ss).b.log;
    var larger: set<nat> :| BridgeTheory.AfterMany(log, log[i].time, j, larger);
  }

  // ---------- preemptive mode ----------

  ghost predicate Silent(w: World) {
    w.b.preemptive && forall r :: r in w.b.log ==> !r.NextEvent?
  }

  lemma ActKeepsSilent(w: World, a: Action)
    requires Silent(w)
    ensures Silent(Act(w, a))
  {
    hide Kernel.Insert, Kernel.Remove, Manager.Receive;
  }

  lemma StepKeepsSilent(w: World, s: Step)
    requires Silent(w)
    ensures Silent(Take(w, s))
  {
    if s.DoAct? {
      ActKeepsSilent(w, s.action);
    }
    hide Act, Kernel.Insert, Kernel.Pop, Kernel.Destroy, Manager.Apply, Manager.MakeSpares;
  }

  // In preemptive mode no NEXT_EVENT is ever written.
  lemma PreemptiveModeAnnouncesNothing(w: World, ss: seq<Step>)
    requires Silent(w) && Possible(w, ss, false)
    ensures Silent(Walk(w, ss))
  {
    var I := (x: World) => Silent(x);
    forall x, s | I(x) && Enabled(x, s, false) ensures I(Take(x, s)) {
      StepKeepsSilent(x, s);
    }
    WalkKeeps(w, ss, I, false);
  }

  // ---------- stamps ----------

  // How many reports m_countNextEventRequest counts.
  function Requests(log: seq<Bridge.Report>): nat {
    if log == [] then 0
    else Requests(log[..|log| - 1]) + if Bridge.IsReply(log[|log| - 1]) then 0 else 1
  }

  lemma RequestsOfMore(log: seq<Bridge.Report>, r: Bridge.Report)
    ensures Requests(log + [r]) == Requests(log) + if Bridge.IsReply(r) then 0 else 1
  {
    assert (log + [r])[..|log|] == log;
  }

  // Receptions and replies carry non-decreasing times, none beyond Now.
  ghost predicate Stamped(w: World) {
    && (forall i, j :: 0 <= i < j < |w.b.log| && !w.b.log[i].NextEvent? && !w.b.log[j].NextEvent? ==>
          w.b.log[i].time <= w.b.log[j].time)
    && (forall i :: 0 <= i < |w.b.log| && !w.b.log[i].NextEvent? ==> w.b.log[i].time <= w.k.currentTs)
    && w.b.requests == Requests(w.b.log)
  }

  lemma MoreStamps(w: World, w': World, r: Bridge.Report)
    requires Stamped(w) && w'.k.currentTs == w.k.currentTs && w'.b.log == w.b.log + [r]
    requires !r.NextEvent? ==> r.time == w.k.currentTs
    requires w'.b.requests == w.b.requests + if Bridge.IsReply(r) then 0 else 1
    ensures Stamped(w')
  {
    RequestsOfMore(w.b.log, r);
  }

  lemma ScheduleKeepsStamps(w: World, context: nat, delay: int, job: Job)
    requires Stamped(w)
    ensures Stamped(ScheduleIn(w, context, delay, job))
  {
    hide Stamped, Kernel.Insert, Bridge.Trim;
    var ts := w.k.currentTs + delay;
    var w' := ScheduleIn(w, context, delay, job);
    if ts >= 0 && w'.b.log != w.b.log {
      InsertKeepsClock(w.k, ts, context, job);
      MoreStamps(w, w', Bridge.NextEvent(ts));
    } else {
      if ts >= 0 { InsertKeepsClock(w.k, ts, context, job); }
      SameStamps(w, w');
    }
  }

  lemma InsertKeepsClock(k: Kernel.State, ts: nat, context: nat, job: Job)
    ensures Kernel.Insert(k, ts, context, job).currentTs == k.currentTs
  {
  }

  lemma SameStamps(w: World, w': World)
    requires Stamped(w) && w'.b.log == w.b.log && w'.b.requests == w.b.requests && w.k.currentTs <= w'.k.currentTs
    ensures Stamped(w')
  {
  }

  lemma ActKeepsStamps(w: World, a: Action)
    requires Stamped(w)
    ensures Stamped(Act(w, a))
  {
    hide Stamped, ScheduleIn, Manager.Receive;
    match a
    case Later(delay, tag) => {
      ScheduleKeepsStamps(w, w.k.currentContext, delay, Timer(tag));
      SameStamps(Schedule(w, delay, Timer(tag)), Act(w, a));
    }
    case LaterIn(context, delay, tag) => ScheduleKeepsStamps(w, context, delay, Timer(tag));
    case StopLater(delay) => ScheduleKeepsStamps(w, w.k.currentContext, delay, StopCall);
    case Deliver(app, msg) =>
      var d := Manager.Receive(w.m, app).1;
      if d.Forwarded? {
        var now := w.k.currentTs;
        MoreStamps(w, Act(w, a), if d.wifi then Bridge.RecvWifi(now, d.id, msg) else Bridge.RecvCell(now, d.id, msg));
      } else {
        SameStamps(w, Act(w, a));
      }
    case _ => SameStamps(w, Act(w, a));
  }

  lemma StepKeepsStamps(w: World, s: Step)
    requires Stamped(w) && KernelRuns.Sound(w) && Enabled(w, s, true)
    ensures Stamped(Take(w, s))
  {
    hide Stamped, KernelRuns.KernelSound, ScheduleIn, Act, Manager.Apply, Manager.MakeSpares, Bridge.Trim;
    match s
    case DoAct(a) => ActKeepsStamps(w, a);
    case DoSchedule(t, c) => ScheduleKeepsStamps(w, w.k.currentContext, t - w.k.currentTs, Deferred(c));
    case DoBegin => {
      KernelRuns.PopIsSound(w.k, w.handles);
      SameStamps(w, Begin(w));
    }
    case DoSubmitOne =>
      if Take(w, s).b.log != w.b.log {
        MoreStamps(w, Take(w, s), Bridge.NextEvent(1));
      } else {
        SameStamps(w, Take(w, s));
      }
    case DoAnswer =>
      if w.status.Running? {
        MoreStamps(w, Answer(w), Answer(w).b.log[|w.b.log|]);
      }
    case DoSkipZero => MoreStamps(w, SkipZero(w), Bridge.End(w.k.currentTs));
    case _ => SameStamps(w, Take(w, s));
  }

  lemma StampsAreKept()
    ensures Kept((x: World) => Stamped(x) && KernelRuns.Sound(x), true)
  {
    forall x, s | Stamped(x) && KernelRuns.Sound(x) && Enabled(x, s, true)
      ensures Stamped(Take(x, s)) && KernelRuns.Sound(Take(x, s))
    {
      StepKeepsStamps(x, s);
      KernelRuns.StepIsSound(x, s);
    }
  }

  // The times of receptions and replies never decrease over a whole run, and m_countNextEventRequest is the
  // number of NEXT_EVENT and RECV reports.
  lemma StampsNeverDecrease(net: Network, w: World, cs: seq<Command>)
    requires Stamped(w) && KernelRuns.Sound(w) && Causal(net) && AllInTime(net, w, cs)
    ensures Stamped(Run(net, w, cs))
  {
    StampsAreKept();
    RunKeeps(net, w, cs, (x: World) => Stamped(x) && KernelRuns.Sound(x), true);
  }

  lemma WalkKeepsStamps(w: World, ss: seq<Step>)
    requires Stamped(w) && KernelRuns.Sound(w) && Possible(w, ss, true)
    ensures Stamped(Walk(w, ss))
  {
    StampsAreKept();
    WalkKeeps(w, ss, (x: World) => Stamped(x) && KernelRuns.Sound(x), true);
  }
}
