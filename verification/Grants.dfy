// Cutting a grant into several, or interrupting it, does not change the simulation.
module Grants {
  import opened Types
  import opened Federation
  import opened Steps
  import Bridge
  import Kernel
  import Manager

  // ---------- what a grant leaves out of account ----------

  // The NEXT_EVENT and RECV reports, without the replies to the grants.
  function Core(log: seq<Bridge.Report>): seq<Bridge.Report> {
    if log == [] then []
    else Core(log[..|log| - 1]) + if Bridge.IsReply(log[|log| - 1]) then [] else [log[|log| - 1]]
  }

  // Everything but the bookkeeping of grants: current grant, number of grants, pre-emption flag, replies.
  function Strip(b: Bridge.State): Bridge.State {
    b.(grant := 0, past := false, grants := 0, log := Core(b.log))
  }

  // Same queue, clock, uids, event count, node manager, ns-3 history, status, cache and reports.
  predicate Alike(w: World, v: World) {
    w.(b := Strip(w.b)) == v.(b := Strip(v.b))
  }

  lemma CoreOfMore(log: seq<Bridge.Report>, r: Bridge.Report)
    ensures Core(log + [r]) == Core(log) + if Bridge.IsReply(r) then [] else [r]
  {
    assert (log + [r])[..|log|] == log;
  }

  // ---------- like worlds evolve alike ----------

  lemma WriteAlike(b: Bridge.State, c: Bridge.State, t: nat)
    requires Strip(b) == Strip(c)
    ensures Strip(Bridge.WriteNextTime(b, t)) == Strip(Bridge.WriteNextTime(c, t))
  {
    hide Core, Bridge.Trim;
    CoreOfMore(b.log, Bridge.NextEvent(t));
    CoreOfMore(c.log, Bridge.NextEvent(t));
  }

  lemma ReceiveAlike(b: Bridge.State, c: Bridge.State, r: Bridge.Report)
    requires Strip(b) == Strip(c) && Bridge.IsReception(r)
    ensures Strip(Bridge.WriteReceive(b, r)) == Strip(Bridge.WriteReceive(c, r))
  {
    hide Core;
    CoreOfMore(b.log, r);
    CoreOfMore(c.log, r);
  }

  lemma ScheduleAlike(w: World, v: World, context: nat, delay: int, job: Job)
    requires Alike(w, v)
    ensures Alike(ScheduleIn(w, context, delay, job), ScheduleIn(v, context, delay, job))
  {
    hide Strip, Kernel.Insert, Bridge.WriteNextTime;
    var ts := w.k.currentTs + delay;
    if ts >= 0 {
      WriteAlike(w.b, v.b, ts);
    }
  }

  lemma ActAlike(w: World, v: World, a: Action)
    requires Alike(w, v)
    ensures Alike(Act(w, a), Act(v, a))
  {
    hide Strip, ScheduleIn, Kernel.Insert, Kernel.Remove, Kernel.Cancel, Manager.Receive, Bridge.WriteReceive;
    match a
    case Later(delay, tag) => ScheduleAlike(w, v, w.k.currentContext, delay, Timer(tag));
    case LaterIn(context, delay, tag) => ScheduleAlike(w, v, context, delay, Timer(tag));
    case StopLater(delay) => ScheduleAlike(w, v, w.k.currentContext, delay, StopCall);
    case Deliver(app, msg) =>
      var d := Manager.Receive(w.m, app).1;
      if d.Forwarded? {
        var now := w.k.currentTs;
        ReceiveAlike(w.b, v.b, if d.wifi then Bridge.RecvWifi(now, d.id, msg) else Bridge.RecvCell(now, d.id, msg));
      }
    case _ =>
  }

  lemma {:induction false} ActsAlike(w: World, v: World, actions: seq<Action>)
    requires Alike(w, v)
    ensures Alike(Acts(w, actions), Acts(v, actions))
    decreases |actions|
  {
    hide Strip, Act;
    if actions != [] && w.status.Running? {
      ActAlike(w, v, actions[0]);
      ActsAlike(Act(w, actions[0]), Act(v, actions[0]), actions[1..]);
    }
  }

  lemma RespondAlike(net: Network, w0: World, w: World, v0: World, v: World)
    requires Alike(w, v) && Alike(w0, v0)
    ensures Alike(Respond(net, w0, w), Respond(net, v0, v))
  {
    hide Strip, Acts;
    ActsAlike(w, v, net(w.history));
  }

  lemma BeginAlike(w: World, v: World)
    requires Alike(w, v) && w.k.events != []
    ensures Alike(Begin(w), Begin(v))
  {
    hide Strip, Kernel.Pop, Manager.Apply;
  }

  lemma RunOneAlike(net: Network, w: World, v: World)
    requires Alike(w, v) && w.k.events != []
    ensures Alike(RunOne(net, w), RunOne(net, v))
  {
    hide Strip, Begin, Respond;
    BeginAlike(w, v);
    RespondAlike(net, w, Begin(w), v, Begin(v));
  }

  // ---------- the loop without pre-emption ----------

  predicate ReadyFor(w: World, t: nat) {
    w.status.Running? && w.k.events != [] && !w.k.stop && w.k.events[0].ts <= t
  }

  // At most n events up to time t, never interrupted.
  ghost function Free(net: Network, w: World, t: nat, n: nat): World
    decreases n
  {
    if n == 0 || !ReadyFor(w, t) then w else Free(net, RunOne(net, w), t, n - 1)
  }

  ghost predicate FreeEnds(net: Network, w: World, t: nat, n: nat) {
    !ReadyFor(Free(net, w, t, n), t)
  }

  // The uninterrupted simulation up to time t.
  ghost function Whole(net: Network, w: World, t: nat): World {
    if exists n: nat :: FreeEnds(net, w, t, n) then
      var n: nat :| FreeEnds(net, w, t, n);
      Free(net, w, t, n)
    else w.(status := Diverged)
  }

  lemma {:induction false} FreeAlike(net: Network, w: World, v: World, t: nat, n: nat)
    requires Alike(w, v)
    ensures Alike(Free(net, w, t, n), Free(net, v, t, n))
    decreases n
  {
    hide Strip, RunOne;
    if n > 0 && ReadyFor(w, t) {
      RunOneAlike(net, w, v);
      FreeAlike(net, RunOne(net, w), RunOne(net, v), t, n - 1);
    }
  }

  // However often one asks, a finished simulation is the same one.
  lemma {:induction false} FinishedIsUnique(net: Network, w: World, t: nat, n: nat, n': nat)
    requires FreeEnds(net, w, t, n) && FreeEnds(net, w, t, n')
    ensures Free(net, w, t, n) == Free(net, w, t, n')
    decreases n
  {
    hide RunOne;
    if n > 0 && n' > 0 && ReadyFor(w, t) {
      FinishedIsUnique(net, RunOne(net, w), t, n - 1, n' - 1);
    }
  }

  lemma WholeIs(net: Network, w: World, t: nat, n: nat)
    requires FreeEnds(net, w, t, n)
    ensures Whole(net, w, t) == Free(net, w, t, n)
  {
    var n' :| FreeEnds(net, w, t, n') && Whole(net, w, t) == Free(net, w, t, n');
    FinishedIsUnique(net, w, t, n, n');
  }

  // Going up to t first and to a later t' then is going to t' in one go.
  lemma {:induction false} FreeComposes(net: Network, w: World, t: nat, n: nat, t': nat, n': nat) returns (m: nat)
    requires t <= t'
    ensures Free(net, Free(net, w, t, n), t', n') == Free(net, w, t', m)
    decreases n
  {
    hide RunOne;
    if n > 0 && ReadyFor(w, t) {
      m := FreeComposes(net, RunOne(net, w), t, n - 1, t', n');
      m := m + 1;
    } else {
      m := n';
    }
  }

  // The grant loop executes an initial part of the uninterrupted simulation; all of it outside preemptive mode.
  lemma {:induction false} LoopIsFree(net: Network, w: World, n: nat) returns (m: nat)
    ensures Loop(net, w, n) == Free(net, w, w.b.grant, m)
    ensures !w.b.preemptive ==> m == n
    decreases n
  {
    hide RunOne;
    if n > 0 && Go(w) {
      RunOneKeepsControl(net, w);
      m := LoopIsFree(net, RunOne(net, w), n - 1);
      m := m + 1;
    } else {
      m := if w.b.preemptive then 0 else n;
    }
  }

  lemma DrainIsFree(net: Network, w: World) returns (m: nat)
    requires Drain(net, w).status != Diverged
    ensures Drain(net, w) == Free(net, w, w.b.grant, m) && !Go(Drain(net, w))
  {
    assert LoopEnds(net, w);
    var n: nat :| EndsAfter(net, w, n) && Drain(net, w) == Loop(net, w, n);
    m := LoopIsFree(net, w, n);
  }

  // ---------- one grant ----------

  lemma AnswerAlike(w: World)
    ensures Alike(Answer(w), w)
  {
    CoreOfMore(w.b.log, Bridge.End(w.k.currentTs));
    CoreOfMore(w.b.log, Bridge.Preempted(w.k.currentTs));
  }

  lemma OpenAlike(net: Network, w: World, v: World, t: nat, t': nat)
    requires Alike(w, v)
    ensures Alike(Open(net, w, t), Open(net, v, t'))
  {
    hide Core, Manager.OnStart;
    var w1, v1 := SetGrant(w, t), SetGrant(v, t');
    assert Alike(w1, v1) && Alike(Launch(w1), Launch(v1));
    RespondAlike(net, w1, Launch(w1), v1, Launch(v1));
    hide Launch, Respond;
  }

  lemma ReopenAlike(net: Network, w: World, t: nat)
    requires w.b.started
    ensures Alike(Open(net, w, t), w)
  {
    hide Core;
  }

  lemma AdvanceControl(net: Network, w: World, t: nat)
    requires Listening(w) && t > 0
    ensures var w1 := Open(net, w, t);
            w1.b.grant == t && w1.b.preemptive == w.b.preemptive && (w1.status.Running? ==> w1.b.started && !w1.b.past)
    ensures var w' := Advance(net, w, t);
            w'.b.preemptive == w.b.preemptive && w'.b.closed == w.b.closed && (w'.status.Running? ==> w'.b.started)
  {
    var I := (x: World) => true;
    OpenKeeps(net, w, t, I, false);
    DrainKeeps(net, Open(net, w, t), I, false);
    var w1 := SetGrant(w, t);
    var w2 := Launch(w1);
    ActsKeepControl(w2, net(w2.history));
  }

  predicate Replied(w: World) {
    w.b.log != [] && Bridge.IsReply(w.b.log[|w.b.log| - 1])
  }

  predicate RepliedEnd(w: World) {
    w.b.log != [] && w.b.log[|w.b.log| - 1].End?
  }

  // A grant runs an initial part of the simulation up to t. END means that it ran all of it: the simulator
  // stopped, or no queued event has a timestamp within the grant.
  lemma GrantExecutes(net: Network, w: World, t: nat) returns (m: nat)
    requires Listening(w) && t > 0 && Advance(net, w, t).status != Diverged
    ensures var w' := Advance(net, w, t);
      && Alike(w', Free(net, Open(net, w, t), t, m))
      && (w'.status.Running? ==> Replied(w') && (RepliedEnd(w') || w.b.preemptive))
      && (w'.status.Running? && RepliedEnd(w') ==> !ReadyFor(w', t))
  {
    AdvanceControl(net, w, t);
    var w1 := Open(net, w, t);
    hide Alike, Open;
    m := DrainIsFree(net, w1);
    AnswerAlike(Drain(net, w1));
    assert SameControl(w1.b, Drain(net, w1).b) by {
      DrainKeeps(net, w1, (x: World) => true, false);
    }
  }

  // ---------- the main results ----------

  // Without pre-emption, grants t and t' one after the other leave the same world as the larger of the two.
  lemma TwoGrants(net: Network, w: World, t: nat, t': nat)
    requires Listening(w) && !w.b.preemptive && t > 0 && t' > 0
    requires var w1 := Dispatch(net, w, AdvanceTime(t));
             Listening(w1) && Dispatch(net, w1, AdvanceTime(t')).status != Diverged
    ensures Alike(Dispatch(net, Dispatch(net, w, AdvanceTime(t)), AdvanceTime(t')),
                  Dispatch(net, w, AdvanceTime(if t < t' then t' else t)))
  {
    var top := if t < t' then t' else t;
    var w1 := Advance(net, w, t);
    var w2 := Advance(net, w1, t');
    AdvanceControl(net, w, t);
    AdvanceControl(net, w, top);
    AdvanceControl(net, w1, t');
    var o, p := Open(net, w, t), Open(net, w, top);
    OpenAlike(net, w, w, t, top);
    ReopenAlike(net, w1, t');
    var m1 := GrantExecutes(net, w, t);
    var m2 := GrantExecutes(net, w1, t');
    hide Alike, Open, Advance, Drain, Loop;
    // w2 is like going up to t and then up to t' from o
    var m := TwoLegs(net, o, w1, Open(net, w1, t'), w2, t, m1, t', m2);
    // and so like the loop of the larger grant, which is over then
    FreeAlike(net, o, p, top, m);
    LoopEndsLike(net, p, w2, m);
  }

  // A grant during which the process ended leaves what any larger grant would have left.
  lemma EndedGrant(net: Network, w: World, t: nat, top: nat)
    requires Listening(w) && !w.b.preemptive && 0 < t <= top
    requires var w1 := Advance(net, w, t); !w1.status.Running? && w1.status != Diverged
    ensures Alike(Advance(net, w, t), Advance(net, w, top))
  {
    var w1 := Advance(net, w, t);
    AdvanceControl(net, w, top);
    var o, p := Open(net, w, t), Open(net, w, top);
    OpenAlike(net, w, w, t, top);
    var m1 := GrantExecutes(net, w, t);
    hide Open, Advance, Drain, Loop;
    var m := FreeComposes(net, o, t, m1, top, 0);
    FreeAlike(net, o, p, top, m);
    AlikeTrans(w1, Free(net, o, top, m), Free(net, p, top, m));
    LoopEndsLike(net, p, w1, m);
    AdvanceIsAnswer(net, w, top);
  }

  lemma AdvanceIsAnswer(net: Network, w: World, t: nat)
    requires t > 0
    ensures Advance(net, w, t) == Answer(Drain(net, Open(net, w, t)))
  {
  }

  function GrantsOf(ts: seq<nat>): seq<Command> {
    if ts == [] then [] else [AdvanceTime(ts[0])] + GrantsOf(ts[1..])
  }

  function MaxOf(ts: seq<nat>): nat {
    if ts == [] then 0
    else
      var rest := MaxOf(ts[1..]);
      if ts[0] < rest then rest else ts[0]
  }

  lemma RunStep(net: Network, w: World, c: Command, rest: seq<Command>)
    requires Listening(w)
    ensures Run(net, w, [c] + rest) == Run(net, Dispatch(net, w, c), rest)
  {
    assert ([c] + rest)[1..] == rest;
  }

  lemma RunDone(net: Network, w: World, cs: seq<Command>)
    requires cs == [] || !Listening(w)
    ensures Run(net, w, cs) == w
  {
  }

  // Without pre-emption it does not matter how a span of simulated time is cut into grants: any list of positive
  // grants with no other command in between leaves the same queue, clock, uids, event count, node manager, cache
  // and NEXT_EVENT and RECV reports as the largest of them alone.
  lemma {:induction false} GrantsCompose(net: Network, w: World, ts: seq<nat>)
    requires Listening(w) && !w.b.preemptive && ts != [] && forall t :: t in ts ==> t > 0
    requires Run(net, w, GrantsOf(ts)).status != Diverged
    ensures Alike(Run(net, w, GrantsOf(ts)), Run(net, w, GrantsOf([MaxOf(ts)])))
    decreases |ts|
  {
    assert ts[0] in ts && forall t :: t in ts[1..] ==> t in ts;
    hide Alike, Advance, Run;
    var t, rest, top := ts[0], ts[1..], MaxOf(ts);
    assert GrantsOf([top]) == [AdvanceTime(top)] + [];
    var w1 := Advance(net, w, t);
    RunStep(net, w, AdvanceTime(t), GrantsOf(rest));
    RunStep(net, w, AdvanceTime(top), []);
    RunDone(net, Advance(net, w, top), []);
    AdvanceControl(net, w, t);
    if rest == [] {
      RunDone(net, w1, GrantsOf(rest));
      AlikeSelf(w1);
    } else if Listening(w1) {
      GrantsCompose(net, w1, rest);
      var top1 := MaxOf(rest);
      assert GrantsOf([top1]) == [AdvanceTime(top1)] + [];
      RunStep(net, w1, AdvanceTime(top1), []);
      RunDone(net, Advance(net, w1, top1), []);
      SameStatus(Run(net, w1, GrantsOf(rest)), Advance(net, w1, top1));
      MaxIsPositive(rest);
      TwoGrants(net, w, t, top1);
      AlikeTrans(Run(net, w1, GrantsOf(rest)), Advance(net, w1, top1), Advance(net, w, top));
    } else {
      RunDone(net, w1, GrantsOf(rest));
      EndedGrant(net, w, t, top);
    }
  }

  lemma {:induction false} MaxIsPositive(ts: seq<nat>)
    requires ts != [] && forall t :: t in ts ==> t > 0
    ensures MaxOf(ts) > 0
  {
    assert ts[0] in ts;
  }

  lemma AlikeSelf(w: World)
    ensures Alike(w, w)
  {
  }

  lemma SameStatus(w: World, v: World)
    requires Alike(w, v)
    ensures w.status == v.status
  {
  }

  lemma TwoLegs(net: Network, o: World, w1: World, o': World, w2: World, t: nat, m1: nat, t': nat, m2: nat) returns (m: nat)
    requires Alike(w1, Free(net, o, t, m1)) && Alike(o', w1) && Alike(w2, Free(net, o', t', m2))
    requires !ReadyFor(w1, t)
    requires w2.status.Running? ==> !ReadyFor(w2, t')
    ensures var top := if t < t' then t' else t;
            Alike(w2, Free(net, o, top, m)) && !ReadyFor(w2, top)
  {
    FreeAlike(net, o', Free(net, o, t, m1), t', m2);
    if t < t' {
      m := FreeComposes(net, o, t, m1, t', m2);
    } else {
      m := m1;
    }
  }

  // If going on for m events from p finishes the grant of p, then that is what its loop and its answer leave.
  lemma LoopEndsLike(net: Network, p: World, w2: World, m: nat)
    requires !p.b.preemptive
    requires Alike(w2, Free(net, p, p.b.grant, m)) && !ReadyFor(w2, p.b.grant)
    ensures Alike(w2, Answer(Drain(net, p)))
  {
    hide RunOne, Strip;
    LoopMatchesFree(net, p, m);
    assert EndsAfter(net, p, m);
    var n: nat :| EndsAfter(net, p, n) && Drain(net, p) == Loop(net, p, n);
    assert !Go(Drain(net, p));
    LoopMatchesFree(net, p, n);
    FinishedIsUnique(net, p, p.b.grant, m, n);
    AnswerAlike(Drain(net, p));
  }

  lemma {:induction false} LoopMatchesFree(net: Network, p: World, m: nat)
    requires !p.b.preemptive
    ensures Loop(net, p, m) == Free(net, p, p.b.grant, m) && Loop(net, p, m).b.grant == p.b.grant
    ensures !Loop(net, p, m).b.preemptive
    decreases m
  {
    hide RunOne;
    if m > 0 && Go(p) {
      RunOneKeepsControl(net, p);
      LoopMatchesFree(net, RunOne(net, p), m - 1);
    }
  }

  // MOSAIC grants t again after each PREEMPTED, at most n more times.
  ghost function Regrant(net: Network, w: World, t: nat, n: nat): World
    decreases n
  {
    var w1 := Dispatch(net, w, AdvanceTime(t));
    if n == 0 || !Listening(w1) || RepliedEnd(w1) then w1 else Regrant(net, w1, t, n - 1)
  }

  lemma {:induction false} RegrantIsPart(net: Network, w: World, t: nat, n: nat) returns (m: nat)
    requires Listening(w) && t > 0 && Regrant(net, w, t, n).status != Diverged
    ensures var r := Regrant(net, w, t, n);
      && Alike(r, Free(net, Open(net, w, t), t, m))
      && (r.status.Running? && RepliedEnd(r) ==> !ReadyFor(r, t))
    decreases n
  {
    var w1 := Dispatch(net, w, AdvanceTime(t));
    AdvanceControl(net, w, t);
    m := GrantExecutes(net, w, t);
    if n > 0 && Listening(w1) && !RepliedEnd(w1) {
      var m2 := RegrantIsPart(net, w1, t, n - 1);
      ReopenAlike(net, w1, t);
      hide Alike, Open, Dispatch;
      FreeAlike(net, Open(net, w1, t), w1, t, m2);
      FreeAlike(net, w1, Free(net, Open(net, w, t), t, m), t, m2);
      AlikeTrans(Regrant(net, w, t, n), Free(net, Open(net, w1, t), t, m2), Free(net, w1, t, m2));
      AlikeTrans(Regrant(net, w, t, n), Free(net, w1, t, m2), Free(net, Free(net, Open(net, w, t), t, m), t, m2));
      m := FreeComposes(net, Open(net, w, t), t, m, t, m2);
    }
  }

  lemma AlikeTrans(u: World, v: World, w: World)
    requires Alike(u, v) && Alike(v, w)
    ensures Alike(u, w)
  {
  }

  // In preemptive mode, re-granting t after each PREEMPTED until END, or until the process ends, executes the same
  // events and sends the same reports as the uninterrupted simulation up to t.
  lemma RegrantingIsUninterrupted(net: Network, w: World, t: nat, n: nat)
    requires Listening(w) && t > 0
    requires var r := Regrant(net, w, t, n); r.status != Diverged && (r.status.Running? ==> RepliedEnd(r))
    ensures Alike(Regrant(net, w, t, n), Whole(net, Open(net, w, t), t))
  {
    var m := RegrantIsPart(net, w, t, n);
    hide Open, Regrant;
    assert FreeEnds(net, Open(net, w, t), t, m);
    WholeIs(net, Open(net, w, t), t, m);
  }
}
