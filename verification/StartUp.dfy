// The order of start-up over every run: OnStart once, before any event; after it no UE, no eNB, no spare node.
module StartUp {
  import opened Types
  import opened Federation
  import opened Steps
  import opened Walks
  import Bridge
  import Kernel
  import Manager
  import ManagerEffects
  import ManagerRuns

  predicate IsLaunchEffect(e: Manager.Effect) {
    e.X2Linked? || (e.NodeMade? && e.kind != Manager.WiredNode)
  }

  // Before OnStart nothing was executed; the list holds no call that makes a UE or an eNB.
  ghost predicate Unstarted(w: World) {
    && (!w.b.started ==> w.k.journal.executed == [] && w.k.eventCount == 0)
    && (forall e :: e in w.k.events && e.job.Deferred? ==> Deferrable(e.job.call))
  }

  lemma ActKeepsUnstarted(w: World, a: Action)
    requires Unstarted(w)
    ensures Unstarted(Act(w, a))
  {
    hide Bridge.Trim, Manager.Receive, Kernel.IsExpired;
  }

  lemma BeginKeepsUnstarted(w: World)
    requires Unstarted(w) && w.k.events != [] && w.b.started
    ensures Unstarted(Begin(w)) && Begin(w).b == w.b
  {
    hide Manager.Apply;
    assert forall e :: e in w.k.events[1..] ==> e in w.k.events;
  }

  lemma StepKeepsUnstarted(w: World, s: Step, timely: bool)
    requires Unstarted(w) && Enabled(w, s, timely)
    ensures Unstarted(Take(w, s))
  {
    hide Act, Begin, Bridge.Trim, Manager.Apply, Manager.MakeSpares;
    match s
    case DoAct(a) => ActKeepsUnstarted(w, a);
    case DoBegin => BeginKeepsUnstarted(w);
    case _ =>
  }

  lemma UnstartedIsKept()
    ensures Kept((x: World) => Unstarted(x), false)
  {
    forall x, s | Unstarted(x) && Enabled(x, s, false) ensures Unstarted(Take(x, s)) {
      StepKeepsUnstarted(x, s, false);
    }
  }

  lemma WalkKeepsUnstarted(w: World, ss: seq<Step>)
    requires Unstarted(w) && Possible(w, ss, false)
    ensures Unstarted(Walk(w, ss))
  {
    UnstartedIsKept();
    WalkKeeps(w, ss, (x: World) => Unstarted(x), false);
  }

  lemma NothingRunsBeforeOnStart(net: Network, w: World, cs: seq<Command>)
    requires Unstarted(w)
    ensures Unstarted(Run(net, w, cs))
  {
    UnstartedIsKept();
    RunKeeps(net, w, cs, (x: World) => Unstarted(x), false);
  }

  // Since world w0 the eNBs, the spare nodes and the set of UE nodes are the same, and ns-3 was not told of
  // another X2 link, UE or eNB.
  ghost predicate Frozen(w0: World, w: World) {
    && w.b.started && Unstarted(w)
    && w.m.enbs == w0.m.enbs && w.m.spare == w0.m.spare
    && (forall n :: n in w.m.nodes ==> n < w.m.nextNode)
    && (forall n :: n in w.m.nodes && w.m.nodes[n] != Manager.WiredNode <==>
                    n in w0.m.nodes && w0.m.nodes[n] != Manager.WiredNode)
    && |w0.history| <= |w.history|
    && (forall i, e :: |w0.history| <= i < |w.history| && e in w.history[i].effects ==> !IsLaunchEffect(e))
  }

  lemma CallKeepsFrozen(m: Manager.State, c: Call)
    requires Deferrable(c) && forall n :: n in m.nodes ==> n < m.nextNode
    ensures var o := Manager.Apply(m, c);
      && o.m.enbs == m.enbs && o.m.spare == m.spare && m.nextNode <= o.m.nextNode
      && (forall n :: n in o.m.nodes ==> n < o.m.nextNode)
      && (forall n :: n in o.m.nodes && o.m.nodes[n] != Manager.WiredNode <==>
                      n in m.nodes && m.nodes[n] != Manager.WiredNode)
      && forall e :: e in o.effects ==> !IsLaunchEffect(e)
  {
    if c.ActivateRadioNode? {
      ActivationKeepsNodes(m, c.id, c.pos);
    } else if !c.CreateWiredNode? {
      CommandKeepsNodes(m, c);
    }
    hide Manager.CreateRadioNode, Manager.ActivateRadioNode;
  }

  ghost predicate NodesKept(m: Manager.State, o: Manager.Outcome) {
    && o.m.nodes == m.nodes && o.m.nextNode == m.nextNode && o.m.enbs == m.enbs && o.m.spare == m.spare
    && forall e :: e in o.effects ==> !e.NodeMade? && !e.X2Linked?
  }

  lemma ActivationKeepsNodes(m: Manager.State, id: nat, pos: Vector)
    ensures NodesKept(m, Manager.ActivateRadioNode(m, id, pos))
  {
  }

  lemma CommandKeepsNodes(m: Manager.State, c: Call)
    requires Deferrable(c) && !c.CreateWiredNode? && !c.ActivateRadioNode?
    ensures NodesKept(m, Manager.Apply(m, c))
  {
    if c.ConfigureCellRadio? || c.ConfigureWifiRadio? {
      ConfigurationKeepsNodes(m, c);
    }
    hide Manager.ConfigureCellRadio, Manager.ConfigureWifiRadio, Manager.CreateRadioNode, Manager.CreateWiredNode,
         Manager.CreateNodeB, Manager.ActivateRadioNode;
  }

  lemma ConfigurationKeepsNodes(m: Manager.State, c: Call)
    requires c.ConfigureCellRadio? || c.ConfigureWifiRadio?
    ensures NodesKept(m, Manager.Apply(m, c))
  {
    hide Manager.SetActive;
    if c.id in m.toNs3 {
      var n := m.toNs3[c.id];
      var m1 := if c.ConfigureCellRadio? then m.(cellConfigured := m.cellConfigured + {n})
                else m.(wifiConfigured := m.wifiConfigured + {n});
      if Manager.AppRef(n, 0) in m.apps { ManagerEffects.SetActiveKeepsRest(m1, Manager.AppRef(n, 0), true); }
      if Manager.AppRef(n, 1) in m.apps { ManagerEffects.SetActiveKeepsRest(m1, Manager.AppRef(n, 1), true); }
    }
    hide Manager.SendWifiMsg, Manager.SendCellMsg, Manager.CreateRadioNode, Manager.CreateWiredNode,
         Manager.CreateNodeB, Manager.ActivateRadioNode, Manager.RemoveNode, Manager.UpdateNodePosition;
  }

  lemma BeginKeepsFrozen(w0: World, w: World)
    requires Frozen(w0, w) && w.k.events != []
    ensures Frozen(w0, Begin(w))
  {
    BeginKeepsUnstarted(w);
    var e := w.k.events[0];
    assert e in w.k.events;
    if e.job.Deferred? {
      CallKeepsFrozen(w.m, e.job.call);
    }
    hide Manager.Apply, Unstarted, Kernel.Pop;
  }

  lemma StepKeepsFrozen(w0: World, w: World, s: Step)
    requires Frozen(w0, w) && Enabled(w, s, false)
    ensures Frozen(w0, Take(w, s))
  {
    hide Unstarted, Begin, Act, Bridge.Trim, Manager.Apply;
    StepKeepsUnstarted(w, s, false);
    match s
    case DoBegin => BeginKeepsFrozen(w0, w);
    case DoAct(a) => ActKeepsNodes(w, a);
    case _ =>
  }

  lemma ActKeepsNodes(w: World, a: Action)
    ensures var m' := Act(w, a).m;
      && m'.nodes == w.m.nodes && m'.nextNode == w.m.nextNode && m'.enbs == w.m.enbs && m'.spare == w.m.spare
      && Act(w, a).history == w.history && Act(w, a).b.started == w.b.started
  {
    hide Kernel.Insert, Kernel.Remove, Bridge.Trim;
  }

  // From the moment m_didRunOnStart is set, the loop of that first grant included: every UE, spare node and eNB that
  // ever takes part exists already, and the eNB set that OnStart linked is final. OnStart does not run again.
  lemma OnStartIsOnceAndFinal(w: World, ss: seq<Step>)
    requires w.b.started && Unstarted(w) && Possible(w, ss, false) && forall n :: n in w.m.nodes ==> n < w.m.nextNode
    ensures Frozen(w, Walk(w, ss))
  {
    var I := (x: World) => Frozen(w, x);
    forall x, s | I(x) && Enabled(x, s, false) ensures I(Take(x, s)) {
      StepKeepsFrozen(w, x, s);
    }
    WalkKeeps(w, ss, I, false);
  }

  // m_enbNodes lists the eNBs made so far and m_radioNodes the radio nodes with an id, at every moment.
  ghost predicate Listed(w: World) {
    Manager.Inv(w.m) && ManagerEffects.ListsInv(w.m)
  }

  lemma ActKeepsListed(w: World, a: Action)
    requires Listed(w)
    ensures Listed(Act(w, a))
  {
    ManagerRuns.ActKeepsManager(w, a);
    hide Manager.Inv, Kernel.Insert, Kernel.Remove, Bridge.WriteNextTime;
  }

  lemma BeginKeepsListed(w: World)
    requires Listed(w) && w.k.events != []
    ensures Listed(Begin(w))
  {
    hide Manager.Inv, ManagerEffects.ListsInv, Manager.Apply, Kernel.Pop;
    ManagerRuns.BeginKeepsManager(w);
    if w.k.events[0].job.Deferred? {
      ManagerEffects.CallKeepsLists(w.m, w.k.events[0].job.call);
    }
  }

  lemma StepKeepsListed(w: World, s: Step)
    requires Listed(w) && Enabled(w, s, false)
    ensures Listed(Take(w, s))
  {
    hide Manager.Inv, ManagerEffects.ListsInv, Act, Begin, Manager.Apply, Manager.MakeSpares, Kernel.Insert, Bridge.WriteNextTime;
    ManagerRuns.StepKeepsManager(w, s, false);
    match s
    case DoAct(a) => ActKeepsListed(w, a);
    case DoBegin => BeginKeepsListed(w);
    case DoPerform(c) => ManagerEffects.CallKeepsLists(w.m, c);
    case DoLaunch => ManagerEffects.LaunchKeepsLists(w.m);
    case _ =>
  }

  lemma WalkKeepsListed(w: World, ss: seq<Step>)
    requires Listed(w) && Possible(w, ss, false)
    ensures Listed(Walk(w, ss))
  {
    var I := (x: World) => Listed(x);
    forall x, s | I(x) && Enabled(x, s, false) ensures I(Take(x, s)) {
      StepKeepsListed(x, s);
    }
    WalkKeeps(w, ss, I, false);
  }

  // What OnStart tells ns-3: one X2 link between exactly the eNBs made so far, then each of numExtra new radio nodes.
  ghost predicate TellsOfStart(m: Manager.State, m': Manager.State, told: seq<Manager.Effect>) {
    && |told| == 1 + m.numExtra && told[0] == Manager.X2Linked(m.enbs)
    && ManagerEffects.Lists(m.enbs, ManagerEffects.OfKind(m, Manager.ENodeB))
    && m'.enbs == m.enbs && |m'.spare| == |m.spare| + m.numExtra
    && forall i :: 1 <= i < |told| ==>
         var n := m'.spare[|m.spare| + i - 1]; told[i] == Manager.NodeMade(n, Manager.RadioNode) && n !in m.nodes
  }

  lemma OnStartTells(m: Manager.State)
    requires Manager.Inv(m) && ManagerEffects.ListsInv(m)
    ensures TellsOfStart(m, Manager.OnStart(m).m, Manager.OnStart(m).effects)
  {
    hide Manager.Inv, Manager.MakeSpares, ManagerEffects.Lists;
    ManagerEffects.SparesAreMade(m, m.numExtra);
  }

  // The first positive grant, after any run: OnStart links exactly the eNBs made so far, each once, then makes numExtra
  // spare radio nodes, new ones, and tells ns-3 of each; all of it before the loop looks at the first event.
  lemma FirstGrantLaunches(net: Network, w0: World, ss: seq<Step>, t: nat)
    requires Listed(w0) && Unstarted(w0) && Possible(w0, ss, false)
    requires var w := Walk(w0, ss); Listening(w) && !w.b.started && t > 0
    ensures var w := Walk(w0, ss);
            var w1 := Launch(SetGrant(w, t));
            var told := Manager.OnStart(w.m).effects;
      && w1.history == w.history + [Stimulus(w.k.currentTs, w.k.uid, told)] && TellsOfStart(w.m, w1.m, told)
      && w1.k.journal.executed == [] && Open(net, w, t).k.journal.executed == []
  {
    WalkKeepsListed(w0, ss);
    WalkKeepsUnstarted(w0, ss);
    hide Walk, Possible, Manager.Inv, Manager.MakeSpares, ManagerEffects.ListsInv, TellsOfStart;
    LaunchAt(net, Walk(w0, ss), t);
  }

  lemma LaunchAt(net: Network, w: World, t: nat)
    requires Listed(w) && Unstarted(w) && !w.b.started
    ensures var w1 := Launch(SetGrant(w, t));
            var told := Manager.OnStart(w.m).effects;
      && w1.history == w.history + [Stimulus(w.k.currentTs, w.k.uid, told)] && TellsOfStart(w.m, w1.m, told)
      && w1.k.journal.executed == [] && Open(net, w, t).k.journal.executed == []
  {
    hide Manager.Inv, Manager.MakeSpares, ManagerEffects.ListsInv, TellsOfStart, Acts;
    OnStartTells(w.m);
    var w1 := Launch(SetGrant(w, t));
    ActsExecuteNothing(w1, net(w1.history));
  }

  lemma {:induction false} ActsExecuteNothing(w: World, actions: seq<Action>)
    ensures Acts(w, actions).k.journal.executed == w.k.journal.executed
    ensures Acts(w, actions).k.eventCount == w.k.eventCount
    decreases |actions|
  {
    if actions != [] && w.status.Running? {
      hide Bridge.WriteNextTime, Manager.Receive;
      ActsExecuteNothing(Act(w, actions[0]), actions[1..]);
    }
  }
}
