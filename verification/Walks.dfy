// Every moment of a run, also in the middle of a handler or of a grant, is reached by a walk of small steps; and
// from each moment to each later one there is again such a walk. Results about walks hold at all of them.
module Walks {
  import opened Types
  import opened Federation
  import opened Steps

  ghost function Walk(w: World, ss: seq<Step>): World
    decreases |ss|
  {
    if ss == [] then w else Walk(Take(w, ss[0]), ss[1..])
  }

  // Each step of the walk can happen where it is taken.
  ghost predicate Possible(w: World, ss: seq<Step>, timely: bool)
    decreases |ss|
  {
    ss == [] || (Enabled(w, ss[0], timely) && Possible(Take(w, ss[0]), ss[1..], timely))
  }

  ghost predicate Leads(w: World, ss: seq<Step>, w': World, timely: bool) {
    Possible(w, ss, timely) && Walk(w, ss) == w'
  }

  lemma {:induction false} WalkKeeps(w: World, ss: seq<Step>, I: World -> bool, timely: bool)
    requires Kept(I, timely) && I(w) && Possible(w, ss, timely)
    ensures I(Walk(w, ss))
    decreases |ss|
  {
    if ss != [] {
      assert I(Take(w, ss[0]));
      WalkKeeps(Take(w, ss[0]), ss[1..], I, timely);
    }
  }

  lemma {:induction false} WalksJoin(w: World, a: seq<Step>, b: seq<Step>, timely: bool)
    ensures Walk(w, a + b) == Walk(Walk(w, a), b)
    ensures Possible(w, a + b, timely) <==> Possible(w, a, timely) && Possible(Walk(w, a), b, timely)
    decreases |a|
  {
    hide Take, Enabled;
    if a == [] {
      assert a + b == b;
    } else {
      assert (a + b)[1..] == a[1..] + b;
      WalksJoin(Take(w, a[0]), a[1..], b, timely);
    }
  }

  // A walk can be cut anywhere.
  lemma WalkSplits(w: World, ss: seq<Step>, i: nat, timely: bool)
    requires i <= |ss| && Possible(w, ss, timely)
    ensures Possible(w, ss[..i], timely) && Leads(Walk(w, ss[..i]), ss[i..], Walk(w, ss), timely)
  {
    assert ss == ss[..i] + ss[i..];
    WalksJoin(w, ss[..i], ss[i..], timely);
  }

  // ---------- the steps of a run ----------

  ghost function ActsSteps(w: World, actions: seq<Action>): seq<Step>
    decreases |actions|
  {
    if actions == [] || !w.status.Running? then []
    else [DoAct(actions[0])] + ActsSteps(Act(w, actions[0]), actions[1..])
  }

  ghost function RespondSteps(net: Network, before: World, w: World): seq<Step> {
    if w.status.Running? && |before.history| < |w.history| then ActsSteps(w, net(w.history)) else []
  }

  ghost function RoundSteps(net: Network, w: World): seq<Step>
    requires w.k.events != []
  {
    [DoBegin] + RespondSteps(net, w, Begin(w))
  }

  // At most n rounds of the loop.
  ghost function LoopSteps(net: Network, w: World, n: nat): seq<Step>
    decreases n
  {
    if n == 0 || !Go(w) then [] else RoundSteps(net, w) + LoopSteps(net, RunOne(net, w), n - 1)
  }

  ghost function StartSteps(net: Network, w: World): seq<Step> {
    [DoLaunch] + RespondSteps(net, w, Launch(w)) + [DoMarkStarted]
  }

  ghost function OpenSteps(net: Network, w: World, t: nat): seq<Step> {
    [DoSetGrant(t)] + (if w.b.started then [] else StartSteps(net, SetGrant(w, t))) + [DoStartGrant]
  }

  ghost function ScheduleSteps(time: nat, calls: seq<Call>): seq<Step> {
    if calls == [] then [] else [DoSchedule(time, calls[0])] + ScheduleSteps(time, calls[1..])
  }

  // The command is carried out completely within n rounds of the loop.
  ghost predicate Completes(net: Network, w: World, c: Command, n: nat) {
    c.AdvanceTime? && c.time > 0 ==> EndsAfter(net, Open(net, w, c.time), n)
  }

  ghost function GrantSteps(net: Network, w: World, t: nat, n: nat): seq<Step> {
    if t == 0 then [DoSetGrant(0), DoSubmitOne, DoSkipZero]
    else
      OpenSteps(net, w, t) + LoopSteps(net, Open(net, w, t), n)
      + if EndsAfter(net, Open(net, w, t), n) then [DoAnswer] else []
  }

  ghost function CommandSteps(net: Network, w: World, c: Command, n: nat): seq<Step> {
    match PlanOf(w.b.started, c)
    case Immediate(call) => [DoPerform(call)] + RespondSteps(net, w, Perform(w, call)) + [DoAck]
    case AtTime(time, calls) => ScheduleSteps(time, calls) + [DoAck]
    case Grant(t) => GrantSteps(net, w, t, n)
    case Fail(why) => [DoExit(why)]
    case Hang => [DoClose]
    case Finish => [DoFinish]
    case Nothing => []
  }

  // The steps of a run, up to the first grant whose loop is not over after n rounds.
  ghost function Trail(net: Network, w: World, cs: seq<Command>, n: nat): seq<Step>
    decreases |cs|
  {
    if cs == [] || !Listening(w) then []
    else
      CommandSteps(net, w, cs[0], n)
      + if Completes(net, w, cs[0], n) then Trail(net, Dispatch(net, w, cs[0]), cs[1..], n) else []
  }

  // The i-th world of the run.
  ghost function Moment(net: Network, w: World, cs: seq<Command>, n: nat, i: nat): World
    requires i <= |Trail(net, w, cs, n)|
  {
    Walk(w, Trail(net, w, cs, n)[..i])
  }

  // ---------- they are possible, and lead where the run leads ----------

  lemma OneStep(w: World, s: Step, timely: bool)
    requires Enabled(w, s, timely)
    ensures Leads(w, [s], Take(w, s), timely)
  {
    hide Take, Enabled;
    var w1 := Take(w, s);
    assert [s][1..] == [];
    assert Possible(w1, [], timely) && Walk(w1, []) == w1;
    assert Possible(w, [s], timely) && Walk(w, [s]) == Walk(w1, []);
  }

  lemma Onwards(w: World, a: seq<Step>, w1: World, b: seq<Step>, w2: World, timely: bool)
    requires Leads(w, a, w1, timely) && Leads(w1, b, w2, timely)
    ensures Leads(w, a + b, w2, timely)
  {
    WalksJoin(w, a, b, timely);
  }

  lemma {:induction false} ActsLead(w: World, actions: seq<Action>, timely: bool)
    requires timely ==> forall a :: a in actions ==> CausalAction(a)
    ensures Leads(w, ActsSteps(w, actions), Acts(w, actions), timely)
    decreases |actions|
  {
    if actions != [] && w.status.Running? {
      hide Act, CausalAction, Walk, Possible;
      var s := DoAct(actions[0]);
      assert Enabled(w, s, timely);
      OneStep(w, s, timely);
      ActsLead(Act(w, actions[0]), actions[1..], timely);
      hide Leads;
      Onwards(w, [s], Act(w, actions[0]), ActsSteps(Act(w, actions[0]), actions[1..]), Acts(w, actions), timely);
    }
  }

  lemma RespondLeads(net: Network, before: World, w: World, timely: bool)
    requires timely ==> Causal(net)
    ensures Leads(w, RespondSteps(net, before, w), Respond(net, before, w), timely)
  {
    hide Acts, ActsSteps, CausalAction;
    if w.status.Running? && |before.history| < |w.history| {
      ActsLead(w, net(w.history), timely);
    }
  }

  lemma RoundLeads(net: Network, w: World, timely: bool)
    requires Go(w) && w.b.started && (timely ==> Causal(net))
    ensures Leads(w, RoundSteps(net, w), RunOne(net, w), timely)
  {
    OneStep(w, DoBegin, timely);
    RespondLeads(net, w, Begin(w), timely);
    hide Leads, Begin, Respond, RespondSteps;
    Onwards(w, [DoBegin], Begin(w), RespondSteps(net, w, Begin(w)), RunOne(net, w), timely);
  }

  lemma {:induction false} LoopLeads(net: Network, w: World, n: nat, timely: bool)
    requires (w.status.Running? ==> w.b.started) && (timely ==> Causal(net))
    ensures Leads(w, LoopSteps(net, w, n), Loop(net, w, n), timely)
    decreases n
  {
    hide RunOne, RoundSteps, Causal, Walk, Possible;
    if n > 0 && Go(w) {
      RoundLeads(net, w, timely);
      RunOneKeepsControl(net, w);
      LoopLeads(net, RunOne(net, w), n - 1, timely);
      Onwards(w, RoundSteps(net, w), RunOne(net, w), LoopSteps(net, RunOne(net, w), n - 1), Loop(net, w, n), timely);
    } else {
      NoSteps(w, timely);
    }
  }

  lemma StartLeads(net: Network, w: World, timely: bool)
    requires Listening(w) && !w.b.started && w.b.grant > 0 && (timely ==> Causal(net))
    ensures Leads(w, StartSteps(net, w), MarkStarted(Respond(net, w, Launch(w))), timely)
  {
    var w1 := Launch(w);
    var w2 := Respond(net, w, w1);
    OneStep(w, DoLaunch, timely);
    RespondLeads(net, w, w1, timely);
    OneStep(w2, DoMarkStarted, timely);
    hide Leads, Launch, Respond, RespondSteps, MarkStarted;
    Onwards(w, [DoLaunch], w1, RespondSteps(net, w, w1), w2, timely);
    Onwards(w, [DoLaunch] + RespondSteps(net, w, w1), w2, [DoMarkStarted], MarkStarted(w2), timely);
  }

  lemma OpenLeads(net: Network, w: World, t: nat, timely: bool)
    requires Listening(w) && t > 0 && (timely ==> Causal(net))
    ensures Leads(w, OpenSteps(net, w, t), Open(net, w, t), timely)
  {
    var w1 := SetGrant(w, t);
    OneStep(w, DoSetGrant(t), timely);
    if w.b.started {
      OneStep(w1, DoStartGrant, timely);
      Onwards(w, [DoSetGrant(t)], w1, [DoStartGrant], StartGrant(w1), timely);
      assert [DoSetGrant(t)] + [] + [DoStartGrant] == [DoSetGrant(t)] + [DoStartGrant];
    } else {
      var w2 := MarkStarted(Respond(net, w1, Launch(w1)));
      StartLeads(net, w1, timely);
      OneStep(w2, DoStartGrant, timely);
      hide Leads, StartSteps;
      Onwards(w, [DoSetGrant(t)], w1, StartSteps(net, w1), w2, timely);
      Onwards(w, [DoSetGrant(t)] + StartSteps(net, w1), w2, [DoStartGrant], StartGrant(w2), timely);
    }
  }

  lemma GrantLeads(net: Network, w: World, t: nat, n: nat, timely: bool)
    requires Listening(w) && (timely ==> Causal(net))
    ensures Possible(w, GrantSteps(net, w, t, n), timely)
    ensures Completes(net, w, AdvanceTime(t), n) ==> Walk(w, GrantSteps(net, w, t, n)) == Advance(net, w, t)
  {
    hide Walk, Possible, Open, OpenSteps, Loop, LoopSteps, Answer;
    if t == 0 {
      ZeroGrantLeads(net, w, timely);
    } else {
      var w1 := Open(net, w, t);
      var front := OpenSteps(net, w, t) + LoopSteps(net, w1, n);
      LoopOfGrantLeads(net, w, t, n, timely);
      if EndsAfter(net, w1, n) {
        DrainIs(net, w1, n);
        OneStep(Loop(net, w1, n), DoAnswer, timely);
        Onwards(w, front, Loop(net, w1, n), [DoAnswer], Advance(net, w, t), timely);
      } else {
        assert GrantSteps(net, w, t, n) == front + [] == front;
      }
    }
  }

  lemma LoopOfGrantLeads(net: Network, w: World, t: nat, n: nat, timely: bool)
    requires Listening(w) && t > 0 && (timely ==> Causal(net))
    ensures var w1 := Open(net, w, t);
      && Leads(w, OpenSteps(net, w, t) + LoopSteps(net, w1, n), Loop(net, w1, n), timely)
      && !Loop(net, w1, n).b.closed
  {
    var w1 := Open(net, w, t);
    OpenLeads(net, w, t, timely);
    OpenKeeps(net, w, t, (x: World) => true, false);
    hide Open, OpenSteps, Loop, LoopSteps, Leads;
    LoopLeads(net, w1, n, timely);
    LoopKeeps(net, w1, n, (x: World) => true, false);
    Onwards(w, OpenSteps(net, w, t), w1, LoopSteps(net, w1, n), Loop(net, w1, n), timely);
  }

  lemma ZeroGrantLeads(net: Network, w: World, timely: bool)
    requires Listening(w)
    ensures Leads(w, GrantSteps(net, w, 0, 0), Advance(net, w, 0), timely)
  {
    var w1 := SetGrant(w, 0);
    OneStep(w, DoSetGrant(0), timely);
    OneStep(w1, DoSubmitOne, timely);
    OneStep(SubmitOne(w1), DoSkipZero, timely);
    hide Leads;
    Onwards(w, [DoSetGrant(0)], w1, [DoSubmitOne], SubmitOne(w1), timely);
    Onwards(w, [DoSetGrant(0)] + [DoSubmitOne], SubmitOne(w1), [DoSkipZero], SkipZero(SubmitOne(w1)), timely);
    assert [DoSetGrant(0)] + [DoSubmitOne] + [DoSkipZero] == GrantSteps(net, w, 0, 0);
  }

  // A loop that is over after n rounds stays over.
  lemma {:induction false} LoopStays(net: Network, w: World, n: nat, n': nat)
    requires EndsAfter(net, w, n) && n <= n'
    ensures Loop(net, w, n') == Loop(net, w, n) && LoopSteps(net, w, n') == LoopSteps(net, w, n)
    decreases n
  {
    hide RunOne, RoundSteps;
    if n > 0 && Go(w) {
      LoopStays(net, RunOne(net, w), n - 1, n' - 1);
    }
  }

  lemma DrainIs(net: Network, w: World, n: nat)
    requires EndsAfter(net, w, n)
    ensures Drain(net, w) == Loop(net, w, n)
  {
    var n': nat :| EndsAfter(net, w, n') && Drain(net, w) == Loop(net, w, n');
    if n <= n' {
      LoopStays(net, w, n, n');
    } else {
      LoopStays(net, w, n', n);
    }
  }

  lemma {:induction false} ScheduleLeads(w: World, time: nat, calls: seq<Call>, timely: bool)
    requires Listening(w) && forall c :: c in calls ==> Deferrable(c)
    requires timely && calls != [] ==> w.k.currentTs <= time
    ensures Leads(w, ScheduleSteps(time, calls), ScheduleAll(w, time, calls), timely)
    decreases |calls|
  {
    if calls != [] {
      var s := DoSchedule(time, calls[0]);
      var w1 := Take(w, s);
      assert Enabled(w, s, timely);
      OneStep(w, s, timely);
      ScheduleLeads(w1, time, calls[1..], timely);
      hide Leads, Schedule;
      Onwards(w, [s], w1, ScheduleSteps(time, calls[1..]), ScheduleAll(w, time, calls), timely);
    }
  }

  lemma CommandLeads(net: Network, w: World, c: Command, n: nat, timely: bool)
    requires Listening(w) && (timely ==> Causal(net) && InTime(w, c))
    ensures Possible(w, CommandSteps(net, w, c, n), timely)
    ensures Completes(net, w, c, n) ==> Walk(w, CommandSteps(net, w, c, n)) == Dispatch(net, w, c)
  {
    hide Advance, Perform, Respond, RespondSteps, ScheduleAll, ScheduleSteps, GrantSteps, Walk, Possible, Finishing,
         EndsAfter, Causal, Enabled, Take;
    PlansAreEnabled(w, c);
    match PlanOf(w.b.started, c)
    case Immediate(call) => ImmediateLeads(net, w, call, timely);
    case AtTime(time, calls) => DeferredLeads(w, time, calls, timely);
    case Grant(t) => {
      assert c == AdvanceTime(t);
      GrantLeads(net, w, t, n, timely);
    }
    case Fail(why) => EndingLeads(w, why, timely);
    case Hang => EndingLeads(w, LateNodeB, timely);
    case Finish => EndingLeads(w, LateNodeB, timely);
    case Nothing => NoSteps(w, timely);
  }

  lemma DeferredLeads(w: World, time: nat, calls: seq<Call>, timely: bool)
    requires Listening(w) && forall c :: c in calls ==> Deferrable(c)
    requires timely && calls != [] ==> w.k.currentTs <= time
    ensures Leads(w, ScheduleSteps(time, calls) + [DoAck], Ack(ScheduleAll(w, time, calls)), timely)
  {
    var w1 := ScheduleAll(w, time, calls);
    ScheduleLeads(w, time, calls, timely);
    OneStep(w1, DoAck, timely);
    hide Leads, ScheduleAll, ScheduleSteps;
    Onwards(w, ScheduleSteps(time, calls), w1, [DoAck], Ack(w1), timely);
  }

  lemma EndingLeads(w: World, why: Reason, timely: bool)
    requires why == LateNodeB || why == UnsupportedRadio
    ensures Leads(w, [DoExit(why)], Exit(w, why), timely)
    ensures Leads(w, [DoClose], Close(w), timely) && Leads(w, [DoFinish], Finishing(w), timely)
  {
    OneStep(w, DoExit(why), timely);
    OneStep(w, DoClose, timely);
    OneStep(w, DoFinish, timely);
  }

  lemma ImmediateLeads(net: Network, w: World, call: Call, timely: bool)
    requires Listening(w) && !w.b.started && AtStart(call) && (timely ==> Causal(net))
    ensures Leads(w, [DoPerform(call)] + RespondSteps(net, w, Perform(w, call)) + [DoAck],
                  Ack(Respond(net, w, Perform(w, call))), timely)
  {
    var w1 := Perform(w, call);
    var w2 := Respond(net, w, w1);
    OneStep(w, DoPerform(call), timely);
    RespondLeads(net, w, w1, timely);
    OneStep(w2, DoAck, timely);
    hide Leads, Perform, Respond, RespondSteps;
    Onwards(w, [DoPerform(call)], w1, RespondSteps(net, w, w1), w2, timely);
    Onwards(w, [DoPerform(call)] + RespondSteps(net, w, w1), w2, [DoAck], Ack(w2), timely);
  }

  ghost predicate AllComplete(net: Network, w: World, cs: seq<Command>, n: nat)
    decreases |cs|
  {
    cs == [] || !Listening(w)
    || (Completes(net, w, cs[0], n) && AllComplete(net, Dispatch(net, w, cs[0]), cs[1..], n))
  }

  // Each step of a run can happen where it is taken, and together they make the run.
  lemma {:induction false} TrailLeads(net: Network, w: World, cs: seq<Command>, n: nat, timely: bool)
    requires timely ==> Causal(net) && AllInTime(net, w, cs)
    ensures Possible(w, Trail(net, w, cs, n), timely)
    ensures AllComplete(net, w, cs, n) ==> Walk(w, Trail(net, w, cs, n)) == Run(net, w, cs)
    decreases |cs|
  {
    hide Dispatch, CommandSteps, Completes, Walk, Possible, InTime;
    if cs != [] && Listening(w) {
      CommandLeads(net, w, cs[0], n, timely);
      if Completes(net, w, cs[0], n) {
        var w1 := Dispatch(net, w, cs[0]);
        TrailLeads(net, w1, cs[1..], n, timely);
        WalksJoin(w, CommandSteps(net, w, cs[0], n), Trail(net, w1, cs[1..], n), timely);
      } else {
        assert Trail(net, w, cs, n) == CommandSteps(net, w, cs[0], n);
      }
    } else {
      NoSteps(w, timely);
    }
  }

  lemma NoSteps(w: World, timely: bool)
    ensures Possible(w, [], timely) && Walk(w, []) == w
  {
  }

  lemma {:induction false} MoreRounds(net: Network, w: World, cs: seq<Command>, n: nat, n': nat)
    requires AllComplete(net, w, cs, n) && n <= n'
    ensures AllComplete(net, w, cs, n')
    decreases |cs|
  {
    hide Dispatch, Open;
    if cs != [] && Listening(w) {
      if cs[0].AdvanceTime? && cs[0].time > 0 {
        LoopStays(net, Open(net, w, cs[0].time), n, n');
      }
      MoreRounds(net, Dispatch(net, w, cs[0]), cs[1..], n, n');
    }
  }

  // Enough rounds make the trail complete, unless some grant never ends.
  lemma {:induction false} TrailIsComplete(net: Network, w: World, cs: seq<Command>) returns (n: nat)
    requires Run(net, w, cs).status != Diverged
    ensures AllComplete(net, w, cs, n)
    decreases |cs|
  {
    n := 0;
    if cs != [] && Listening(w) {
      n := TrailIsComplete(net, Dispatch(net, w, cs[0]), cs[1..]);
      if cs[0].AdvanceTime? && cs[0].time > 0 {
        var w1 := Open(net, w, cs[0].time);
        hide Open, Loop;
        assert LoopEnds(net, w1) by {
          RunOfDiverged(net, Dispatch(net, w, cs[0]), cs[1..]);
        }
        var k: nat :| EndsAfter(net, w1, k);
        var top := if k < n then n else k;
        LoopStays(net, w1, k, top);
        MoreRounds(net, Dispatch(net, w, cs[0]), cs[1..], n, top);
        n := top;
      }
    }
  }

  lemma RunOfDiverged(net: Network, w: World, cs: seq<Command>)
    ensures w.status == Diverged ==> Run(net, w, cs) == w
  {
  }

  // From each moment of a run the later ones are reached by a walk.
  lemma LaterMoment(net: Network, w: World, cs: seq<Command>, n: nat, i: nat, j: nat, timely: bool)
    requires i <= j <= |Trail(net, w, cs, n)| && (timely ==> Causal(net) && AllInTime(net, w, cs))
    ensures var ss := Trail(net, w, cs, n);
      && Leads(w, ss[..i], Moment(net, w, cs, n, i), timely)
      && Leads(Moment(net, w, cs, n, i), ss[i..j], Moment(net, w, cs, n, j), timely)
  {
    var ss := Trail(net, w, cs, n);
    TrailLeads(net, w, cs, n, timely);
    WalkSplits(w, ss, j, timely);
    WalkSplits(w, ss[..j], i, timely);
    assert ss[..j][..i] == ss[..i] && ss[..j][i..] == ss[i..j];
  }

  // The world at the end of a run is its last moment, unless some grant never ends.
  lemma RunIsAWalk(net: Network, w: World, cs: seq<Command>, timely: bool) returns (n: nat)
    requires Run(net, w, cs).status != Diverged
    requires timely ==> Causal(net) && AllInTime(net, w, cs)
    ensures Leads(w, Trail(net, w, cs, n), Run(net, w, cs), timely)
  {
    n := TrailIsComplete(net, w, cs);
    TrailLeads(net, w, cs, n, timely);
  }

  // ---------- the trails with more and more rounds are parts of one ----------

  lemma {:induction false} LongerLoop(net: Network, w: World, n: nat, n': nat)
    requires n <= n'
    ensures LoopSteps(net, w, n) <= LoopSteps(net, w, n')
    decreases n
  {
    hide RunOne, RoundSteps;
    if n > 0 && Go(w) {
      LongerLoop(net, RunOne(net, w), n - 1, n' - 1);
    }
  }

  lemma LongerCommand(net: Network, w: World, c: Command, n: nat, n': nat)
    requires n <= n'
    ensures CommandSteps(net, w, c, n) <= CommandSteps(net, w, c, n')
    ensures Completes(net, w, c, n) ==>
              CommandSteps(net, w, c, n) == CommandSteps(net, w, c, n') && Completes(net, w, c, n')
  {
    hide Open, OpenSteps, Loop, LoopSteps, Perform, RespondSteps, ScheduleSteps;
    if c.AdvanceTime? && c.time > 0 {
      var w1 := Open(net, w, c.time);
      LongerLoop(net, w1, n, n');
      if EndsAfter(net, w1, n) {
        LoopStays(net, w1, n, n');
      }
    }
  }

  lemma {:induction false} LongerTrail(net: Network, w: World, cs: seq<Command>, n: nat, n': nat)
    requires n <= n'
    ensures Trail(net, w, cs, n) <= Trail(net, w, cs, n')
    decreases |cs|
  {
    hide CommandSteps, Completes, Dispatch;
    if cs != [] && Listening(w) {
      LongerCommand(net, w, cs[0], n, n');
      LongerTrail(net, Dispatch(net, w, cs[0]), cs[1..], n, n');
    }
  }

  // ---------- the middle of a handler is such a moment ----------

  lemma {:induction false} FirstActs(w: World, actions: seq<Action>, j: nat)
    requires j <= |actions|
    ensures ActsSteps(w, actions[..j]) <= ActsSteps(w, actions)
    decreases |actions|
  {
    hide Act;
    if j > 0 && w.status.Running? {
      assert actions[..j][1..] == actions[1..][..j - 1];
      FirstActs(Act(w, actions[0]), actions[1..], j - 1);
    }
  }

  lemma {:induction false} OneMoreRound(net: Network, w: World, k: nat)
    requires Go(Loop(net, w, k))
    ensures LoopSteps(net, w, k + 1) == LoopSteps(net, w, k) + RoundSteps(net, Loop(net, w, k))
    decreases k
  {
    hide RunOne, RoundSteps;
    if k == 0 {
      assert LoopSteps(net, w, 1) == RoundSteps(net, w) + LoopSteps(net, RunOne(net, w), 0);
    } else {
      OneMoreRound(net, RunOne(net, w), k - 1);
    }
  }

  // After the first j actions of ns-3 in reaction to the event in round k of a grant.
  lemma HandlersAreMoments(net: Network, w: World, t: nat, k: nat, j: nat) returns (i: nat)
    requires Listening(w) && t > 0 && Go(Loop(net, Open(net, w, t), k))
    requires var u := Loop(net, Open(net, w, t), k);
             var x := Begin(u);
             x.status.Running? && |u.history| < |x.history| && j <= |net(x.history)|
    ensures var x := Begin(Loop(net, Open(net, w, t), k));
      && i <= |Trail(net, w, [AdvanceTime(t)], k + 1)|
      && Moment(net, w, [AdvanceTime(t)], k + 1, i) == Acts(x, net(x.history)[..j])
  {
    hide Open, OpenSteps, Loop, LoopSteps, Begin, RunOne, Acts, ActsSteps, Walk, Trail, RoundSteps;
    var w1 := Open(net, w, t);
    var u := Loop(net, w1, k);
    var x := Begin(u);
    var first := ActsSteps(x, net(x.history)[..j]);
    var front := OpenSteps(net, w, t) + LoopSteps(net, w1, k);
    MiddleOfHandler(net, w, t, k, j);
    TrailOfGrant(net, w, t, k + 1);
    OneMoreRound(net, w1, k);
    StepsOfRound(net, u);
    FirstActs(x, net(x.history), j);
    var all := Trail(net, w, [AdvanceTime(t)], k + 1);
    i := |front + [DoBegin] + first|;
    Prefixes(OpenSteps(net, w, t), LoopSteps(net, w1, k), [DoBegin], first, ActsSteps(x, net(x.history)), all);
    assert all[..i] == front + [DoBegin] + first;
  }

  lemma StepsOfRound(net: Network, u: World)
    requires Go(u) && Begin(u).status.Running? && |u.history| < |Begin(u).history|
    ensures RoundSteps(net, u) == [DoBegin] + ActsSteps(Begin(u), net(Begin(u).history))
    ensures RunOne(net, u) == Acts(Begin(u), net(Begin(u).history))
  {
    hide Begin, Acts, ActsSteps;
  }

  lemma Prefixes(a: seq<Step>, b: seq<Step>, c: seq<Step>, d: seq<Step>, e: seq<Step>, all: seq<Step>)
    requires d <= e && a + (b + (c + e)) <= all
    ensures a + b + c + d <= all
  {
    assert a + (b + (c + e)) == (a + b + c + d) + e[|d|..];
  }

  lemma TrailOfGrant(net: Network, w: World, t: nat, n: nat)
    requires Listening(w) && t > 0
    ensures OpenSteps(net, w, t) + LoopSteps(net, Open(net, w, t), n) <= Trail(net, w, [AdvanceTime(t)], n)
  {
    hide Open, OpenSteps, Loop, LoopSteps, Dispatch, EndsAfter;
  }

  lemma MiddleOfHandler(net: Network, w: World, t: nat, k: nat, j: nat)
    requires Listening(w) && t > 0 && Go(Loop(net, Open(net, w, t), k))
    requires j <= |net(Begin(Loop(net, Open(net, w, t), k)).history)|
    ensures var w1 := Open(net, w, t);
            var x := Begin(Loop(net, w1, k));
            var actions := net(x.history)[..j];
            Walk(w, OpenSteps(net, w, t) + LoopSteps(net, w1, k) + [DoBegin] + ActsSteps(x, actions)) == Acts(x, actions)
  {
    var w1 := Open(net, w, t);
    var u := Loop(net, w1, k);
    var x := Begin(u);
    var actions := net(x.history)[..j];
    var front := OpenSteps(net, w, t) + LoopSteps(net, w1, k);
    LoopOfGrantLeads(net, w, t, k, false);
    GrantIsStarted(net, w, t, k);
    OneStep(u, DoBegin, false);
    ActsLead(x, actions, false);
    hide Leads, Open, OpenSteps, Loop, LoopSteps, Begin, Acts, ActsSteps;
    Onwards(w, front, u, [DoBegin], x, false);
    Onwards(w, front + [DoBegin], x, ActsSteps(x, actions), Acts(x, actions), false);
    assert Leads(w, front + [DoBegin] + ActsSteps(x, actions), Acts(x, actions), false);
    LeadsThere(w, front + [DoBegin] + ActsSteps(x, actions), Acts(x, actions), false);
  }

  lemma LeadsThere(w: World, ss: seq<Step>, w': World, timely: bool)
    requires Leads(w, ss, w', timely)
    ensures Walk(w, ss) == w'
  {
  }

  lemma GrantIsStarted(net: Network, w: World, t: nat, k: nat)
    requires Listening(w) && t > 0 && Go(Loop(net, Open(net, w, t), k))
    ensures Loop(net, Open(net, w, t), k).b.started
  {
    OpenKeeps(net, w, t, (x: World) => true, false);
    RunningBefore(net, Open(net, w, t), k);
    hide Open;
    LoopKeeps(net, Open(net, w, t), k, (x: World) => true, false);
  }

  lemma RunningBefore(net: Network, w: World, k: nat)
    requires Loop(net, w, k).status.Running?
    ensures w.status.Running?
  {
    hide RunOne;
  }
}
