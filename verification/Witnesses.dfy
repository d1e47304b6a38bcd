// Three inputs for which the code does not do what one would expect of it. The exact conditions are
// ManagerTheory.ExitConditions, ManagerTheory.RemovalDisablesAllAppsIff and KernelRuns.LateCommandsTripTheAssertion.
module Witnesses {
  import opened Types
  import opened Federation
  import Bridge
  import Kernel
  import KernelRuns
  import Manager
  import Walks

  // An ns-3 that never does anything.
  const QUIET: Network := (h: seq<Stimulus>) => []

  const ORIGIN := Vector(0.0, 0.0, 0.0)
  const CELL_IP: Ipv4 := 0x0A01_0001  // 10.1.0.1

  lemma QuietRespond(before: World, w: World)
    ensures Respond(QUIET, before, w) == w
  {
  }

  lemma ImmediateCommand(w: World, c: Command)
    requires Listening(w) && !w.b.started && PlanOf(false, c).Immediate?
    requires Manager.Apply(w.m, PlanOf(false, c).call).verdict == Manager.Fine
    ensures var w' := Dispatch(QUIET, w, c);
      && w'.m == Manager.Apply(w.m, PlanOf(false, c).call).m && w'.k == w.k && Listening(w') && !w'.b.started
  {
    hide Manager.Apply;
    var call := PlanOf(false, c).call;
    QuietRespond(w, Perform(w, call));
  }

  lemma DeferredCommand(w: World, c: Command, call: Call)
    requires Listening(w) && PlanOf(w.b.started, c).AtTime? && PlanOf(w.b.started, c).calls == [call]
    ensures var w' := Dispatch(QUIET, w, c);
      && w'.k == Kernel.Insert(w.k, PlanOf(w.b.started, c).time, w.k.currentContext, Deferred(call))
      && w'.m == w.m && Listening(w') && w'.b.started == w.b.started
  {
    hide Bridge.Trim, Kernel.Insert;
    var time := PlanOf(w.b.started, c).time;
    var w1 := Schedule(w, time - w.k.currentTs, Deferred(call));
    assert ScheduleAll(w, time, [call]) == ScheduleAll(w1, time, []);
  }

  // The list holds one event, a deferred call; a grant executes it and nothing else.
  lemma GrantOfOneCall(w: World, t: nat, call: Call)
    requires Listening(w) && t > 0 && w.m.numExtra == 0 && !w.k.stop
    requires |w.k.events| == 1 && w.k.events[0].job == Deferred(call) && w.k.events[0].uid !in w.k.cancelled
    requires w.k.currentTs <= w.k.events[0].ts <= t
    ensures var o, w' := Manager.Apply(w.m, call), Dispatch(QUIET, w, AdvanceTime(t));
      && w'.m == o.m && w'.k == Kernel.Pop(w.k) && w'.b.closed == w.b.closed
      && w'.status == (if o.verdict.Exit? then Exited(o.verdict.why) else Running)
      && (w'.status.Running? ==> w'.b.started)
  {
    var w1 := Open(QUIET, w, t);
    OpenQuietly(w, t);
    hide Manager.Apply, Open;
    assert Go(w1);
    var w2 := Begin(w1);
    QuietRespond(w1, w2);
    assert w2.k == Kernel.Pop(w1.k) && w2.k.events == [];
    assert Loop(QUIET, w1, 1) == Loop(QUIET, w2, 0) == w2;
    Walks.DrainIs(QUIET, w1, 1);
  }

  lemma OpenQuietly(w: World, t: nat)
    requires Listening(w) && w.m.numExtra == 0
    ensures var w1 := Open(QUIET, w, t);
      && w1.k == w.k && w1.m == w.m && w1.status == w.status && w1.b.started && w1.b.grant == t && !w1.b.past
      && w1.b.closed == w.b.closed
  {
    var w1 := SetGrant(w, t);
    QuietRespond(w1, Launch(w1));
    assert Manager.MakeSpares(w.m, 0) == (w.m, []);
  }

  ghost function After(w: World, c: Command): World {
    Dispatch(QUIET, w, c)
  }

  lemma {:induction false} RunOn(w: World, c: Command, rest: seq<Command>)
    requires Listening(w)
    ensures Run(QUIET, w, [c] + rest) == Run(QUIET, After(w, c), rest)
  {
    hide Dispatch;
    assert ([c] + rest)[1..] == rest;
  }

  lemma RunThree(w: World, a: Command, b: Command, c: Command)
    requires Listening(w) && Listening(After(w, a)) && Listening(After(After(w, a), b))
    ensures Run(QUIET, w, [a, b, c]) == After(After(After(w, a), b), c)
  {
    assert [a, b, c] == [a] + [b, c] && [b, c] == [b] + [c] && [c] == [c] + [];
    RunOn(w, a, [b, c]);
    RunOn(After(w, a), b, [c]);
    RunOn(After(After(w, a), b), c, []);
    hide After;
  }

  // ---------- a position update for a wired node ----------

  // A node that was made before the start, and one call for it deferred.
  lemma OneNodeOneCall(preemptive: bool, firstNode: nat, add: Command, c: Command, call: Call)
    requires add.AddNode? && (add.kind == AddRadio || add.kind == AddWired)
    requires PlanOf(false, c).AtTime? && PlanOf(false, c).calls == [call]
    ensures var w1 := After(Initial(preemptive, firstNode, 0), add);
            var w2 := After(w1, c);
      && Listening(w1) && Listening(w2) && !w2.b.started && w2.m.numExtra == 0 && !w2.k.stop && w2.m == w1.m
      && w2.k.currentTs == 0 && w2.k.cancelled == {}
      && w2.k.events == [Event(PlanOf(false, c).time, FIRST_UID, NO_CONTEXT, Deferred(call))]
      && add.id in w1.m.toNs3 && w1.m.toNs3[add.id] == firstNode && w1.m.deactivated == {}
      && w1.m.nodes == map[firstNode := if add.kind == AddRadio then Manager.RadioNode else Manager.WiredNode]
  {
    ImmediateCommand(Initial(preemptive, firstNode, 0), add);
    DeferredCommand(After(Initial(preemptive, firstNode, 0), add), c, call);
    hide Dispatch;
  }

  lemma OneMove(id: nat, pos: Vector)
    ensures Moves([(id, pos)]) == [UpdateNodePosition(id, pos)]
  {
    assert Moves([(id, pos)][1..]) == [];
  }

  lemma MovingAWiredNodeEndsTheProcess(preemptive: bool, firstNode: nat)
    ensures Run(QUIET, Initial(preemptive, firstNode, 0),
                [AddNode(AddWired, 0, 7, ORIGIN), UpdateNode(0, [(7, ORIGIN)]), AdvanceTime(1)]).status
            == Exited(NullMobility)
  {
    hide Dispatch, Run;
    var w0 := Initial(preemptive, firstNode, 0);
    var c1, c2, c3 := AddNode(AddWired, 0, 7, ORIGIN), UpdateNode(0, [(7, ORIGIN)]), AdvanceTime(1);
    OneMove(7, ORIGIN);
    OneNodeOneCall(preemptive, firstNode, c1, c2, UpdateNodePosition(7, ORIGIN));
    GrantOfOneCall(After(After(w0, c1), c2), 1, UpdateNodePosition(7, ORIGIN));
    RunThree(w0, c1, c2, c3);
  }

  // ---------- an application that survives removal ----------

  // A radio node configured for cell before the start.
  lemma OneConfiguredNode(preemptive: bool, firstNode: nat)
    ensures var w2 := After(After(Initial(preemptive, firstNode, 0), AddNode(AddRadio, 0, 7, ORIGIN)),
                            ConfCellRadio(0, 7, CELL_IP));
      && Listening(After(Initial(preemptive, firstNode, 0), AddNode(AddRadio, 0, 7, ORIGIN)))
      && Listening(w2) && !w2.b.started && w2.m.numExtra == 0 && w2.k == Kernel.INITIAL
      && w2.m.toNs3 == map[7 := firstNode] && w2.m.deactivated == {}
      && w2.m.radio == {firstNode} && w2.m.nodes == map[firstNode := Manager.RadioNode]
      && w2.m.apps == map[Manager.AppRef(firstNode, 0) := Manager.App(Manager.WIFI, false, 0, 0),
                          Manager.AppRef(firstNode, 1) := Manager.App(Manager.CELL, true, 0, 0)]
  {
    var w0 := Initial(preemptive, firstNode, 0);
    var c1, c2 := AddNode(AddRadio, 0, 7, ORIGIN), ConfCellRadio(0, 7, CELL_IP);
    ImmediateCommand(w0, c1);
    ImmediateCommand(After(w0, c1), c2);
  }

  // The node is deactivated, its cell application is still on.
  lemma RemovalLeavesTheCellAppOn(preemptive: bool, firstNode: nat)
    ensures var w := Run(QUIET, Initial(preemptive, firstNode, 0),
                         [AddNode(AddRadio, 0, 7, ORIGIN), ConfCellRadio(0, 7, CELL_IP), DeleteNode(0, 7), AdvanceTime(1)]);
      && w.status.Running? && 7 in w.m.toNs3 && w.m.toNs3[7] == firstNode && firstNode in w.m.deactivated
      && Manager.AppRef(firstNode, 1) in w.m.apps && w.m.apps[Manager.AppRef(firstNode, 1)].active
  {
    hide Dispatch, Run;
    var w0 := Initial(preemptive, firstNode, 0);
    var c1, c2, c3, c4 := AddNode(AddRadio, 0, 7, ORIGIN), ConfCellRadio(0, 7, CELL_IP), DeleteNode(0, 7), AdvanceTime(1);
    OneConfiguredNode(preemptive, firstNode);
    var w2 := After(After(w0, c1), c2);
    DeferredCommand(w2, c3, RemoveNode(7));
    GrantOfOneCall(After(w2, c3), 1, RemoveNode(7));
    assert [c1, c2, c3, c4] == [c1] + [c2, c3, c4];
    RunOn(w0, c1, [c2, c3, c4]);
    RunThree(After(w0, c1), c2, c3, c4);
  }

  // ---------- a command that comes too late ----------

  // After the first grant Now is 5; the second update is for time 1.
  lemma LateUpdateEndsTheProcess(preemptive: bool, firstNode: nat)
    ensures Run(QUIET, Initial(preemptive, firstNode, 0),
                [AddNode(AddRadio, 0, 7, ORIGIN), UpdateNode(5, [(7, ORIGIN)]), AdvanceTime(9),
                 UpdateNode(1, [(7, ORIGIN)]), AdvanceTime(9)]).status
            == Exited(ClockAssertion)
  {
    hide Dispatch, Run;
    var w0 := Initial(preemptive, firstNode, 0);
    var c1, c2, c3 := AddNode(AddRadio, 0, 7, ORIGIN), UpdateNode(5, [(7, ORIGIN)]), AdvanceTime(9);
    var c4 := UpdateNode(1, [(7, ORIGIN)]);
    var move := UpdateNodePosition(7, ORIGIN);
    OneMove(7, ORIGIN);
    OneNodeOneCall(preemptive, firstNode, c1, c2, move);
    var w2 := After(After(w0, c1), c2);
    GrantOfOneCall(w2, 9, move);
    var w3 := After(w2, c3);
    DeferredCommand(w3, c4, move);
    KernelRuns.GrantOverLateHead(QUIET, After(w3, c4), 9);
    assert [c1, c2, c3, c4, c3] == [c1] + [c2, c3, c4, c3] && [c2, c3, c4, c3] == [c2] + [c3, c4, c3];
    RunOn(w0, c1, [c2, c3, c4, c3]);
    RunOn(After(w0, c1), c2, [c3, c4, c3]);
    RunThree(w2, c3, c4, c3);
  }
}
