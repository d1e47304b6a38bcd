// Identity, removal, reception and start-up over every run of the federate. None of these needs the
// assumption that commands or ns-3 keep to the future.
module ManagerRuns {
  import opened Types
  import opened Federation
  import opened Steps
  import opened Walks
  import Manager
  import ManagerTheory
  import Bridge
  import Kernel

  // ---------- the manager's invariant ----------

  lemma PerformKeepsManager(w: World, c: Call)
    requires Manager.Inv(w.m)
    ensures Manager.Inv(Perform(w, c).m)
    ensures Perform(w, c).status == Exited(UnknownNs3Node) ==> w.status == Exited(UnknownNs3Node)
  {
    hide Manager.Inv, Manager.Apply;
    ManagerTheory.ApplyKeeps(w.m, c);
    ManagerTheory.ManagerReasons(w.m, c);
  }

  lemma BeginKeepsManager(w: World)
    requires Manager.Inv(w.m) && w.k.events != []
    ensures Manager.Inv(Begin(w).m)
    ensures Begin(w).status == Exited(UnknownNs3Node) ==> w.status == Exited(UnknownNs3Node)
  {
    hide Manager.Inv, Perform, Kernel.Pop;
    if w.k.events[0].job.Deferred? {
      PerformKeepsManager(w.(k := Kernel.Pop(w.k)), w.k.events[0].job.call);
    }
  }

  lemma ActKeepsManager(w: World, a: Action)
    requires Manager.Inv(w.m)
    ensures Manager.Inv(Act(w, a).m)
    ensures Act(w, a).status == Exited(UnknownNs3Node) ==> w.status == Exited(UnknownNs3Node)
  {
    hide Manager.Inv, Kernel.Insert, Bridge.WriteNextTime;
    if a.Deliver? {
      ManagerTheory.ReceptionNeverAborts(w.m, a.app);
    }
  }

  lemma StepKeepsManager(w: World, s: Step, timely: bool)
    requires Manager.Inv(w.m) && Enabled(w, s, timely)
    ensures Manager.Inv(Take(w, s).m)
    ensures Take(w, s).status == Exited(UnknownNs3Node) ==> w.status == Exited(UnknownNs3Node)
  {
    hide Manager.Inv, Act, Begin, Perform, Manager.MakeSpares, Kernel.Insert, Bridge.WriteNextTime;
    match s
    case DoAct(a) => ActKeepsManager(w, a);
    case DoBegin => BeginKeepsManager(w);
    case DoPerform(c) => PerformKeepsManager(w, c);
    case DoLaunch => ManagerTheory.MakeSparesKeeps(w.m, w.m.numExtra);
    case _ =>
  }

  lemma ManagerIsKept()
    ensures Kept((x: World) => Manager.Inv(x.m) && x.status != Exited(UnknownNs3Node), false)
  {
    forall x: World, s | Manager.Inv(x.m) && x.status != Exited(UnknownNs3Node) && Enabled(x, s, false)
      ensures Manager.Inv(Take(x, s).m) && Take(x, s).status != Exited(UnknownNs3Node)
    {
      StepKeepsManager(x, s, false);
    }
  }

  // At every moment of a run the id maps are inverse bijections, each mapped node is exactly one of radio or
  // wired, the used spare nodes are a prefix of the pool; and no packet ever reached the exit for a node
  // without a MOSAIC id.
  lemma WalkKeepsManager(w: World, ss: seq<Step>)
    requires Manager.Inv(w.m) && w.status != Exited(UnknownNs3Node) && Possible(w, ss, false)
    ensures Manager.Inv(Walk(w, ss).m)
    ensures Walk(w, ss).status != Exited(UnknownNs3Node)
  {
    ManagerIsKept();
    WalkKeeps(w, ss, (x: World) => Manager.Inv(x.m) && x.status != Exited(UnknownNs3Node), false);
  }

  lemma RunKeepsManager(net: Network, w: World, cs: seq<Command>)
    requires Manager.Inv(w.m) && w.status != Exited(UnknownNs3Node)
    ensures Manager.Inv(Run(net, w, cs).m)
    ensures Run(net, w, cs).status != Exited(UnknownNs3Node)
  {
    ManagerIsKept();
    RunKeeps(net, w, cs, (x: World) => Manager.Inv(x.m) && x.status != Exited(UnknownNs3Node), false);
  }

  // ---------- removal is permanent ----------

  ghost predicate Names(r: Bridge.Report, id: nat) {
    Bridge.IsReception(r) && r.node == id
  }

  // Since world w0, nothing was done to node n, and nothing was received for its MOSAIC id.
  ghost predicate Silent(w0: World, w: World, n: nat) {
    && n in w.m.deactivated && n in w.m.toMosaic && n in w0.m.toMosaic && w.m.toMosaic[n] == w0.m.toMosaic[n]
    && |w0.history| <= |w.history| && |w0.b.log| <= |w.b.log|
    && (forall i, e :: |w0.history| <= i < |w.history| && e in w.history[i].effects ==> !ManagerTheory.About(e, n))
    && (forall i :: |w0.b.log| <= i < |w.b.log| ==> !Names(w.b.log[i], w0.m.toMosaic[n]))
  }

  lemma NoteKeepsSilence(w0: World, w: World, m: Manager.State, effects: seq<Manager.Effect>, n: nat)
    requires Silent(w0, w, n) && n in m.deactivated && n in m.toMosaic && m.toMosaic[n] == w.m.toMosaic[n]
    requires forall e :: e in effects ==> !ManagerTheory.About(e, n)
    ensures Silent(w0, Note(w.(m := m), effects), n)
  {
  }

  lemma PerformKeepsSilence(w0: World, w: World, c: Call, n: nat)
    requires Silent(w0, w, n) && Manager.Inv(w.m)
    ensures Silent(w0, Perform(w, c), n)
  {
    ManagerTheory.IdentityFacts(w.m);
    hide Manager.Inv, Manager.Apply;
    ManagerTheory.DeactivatedIsUntouched(w.m, c, n);
    ManagerTheory.MapsGrow(w.m, c);
    var o := Manager.Apply(w.m, c);
    NoteKeepsSilence(w0, w, o.m, o.effects, n);
  }

  lemma DeliverKeepsSilence(w0: World, w: World, app: Manager.AppRef, msg: int, n: nat)
    requires Silent(w0, w, n) && Manager.Inv(w.m)
    ensures Silent(w0, Act(w, Deliver(app, msg)), n)
  {
    hide Manager.Inv, Manager.Receive, Kernel.Insert, Bridge.WriteNextTime;
    ManagerTheory.IdentityFacts(w.m);
    ManagerTheory.ReceptionNeverAborts(w.m, app);
    ManagerTheory.ReceiverHasItsId(w.m, app);
  }

  lemma ActKeepsSilence(w0: World, w: World, a: Action, n: nat)
    requires Silent(w0, w, n) && Manager.Inv(w.m)
    ensures Silent(w0, Act(w, a), n)
  {
    hide Manager.Inv, Manager.Receive, Kernel.Insert;
    if a.Deliver? {
      DeliverKeepsSilence(w0, w, a.app, a.msg, n);
    }
  }

  lemma BeginKeepsSilence(w0: World, w: World, n: nat)
    requires Silent(w0, w, n) && Manager.Inv(w.m) && w.k.events != []
    ensures Silent(w0, Begin(w), n)
  {
    hide Manager.Inv, Kernel.Pop, Note, Perform;
    var w1 := w.(k := Kernel.Pop(w.k));
    match w.k.events[0].job
    case Deferred(c) => PerformKeepsSilence(w0, w1, c, n);
    case Timer(tag) => NoteKeepsSilence(w0, w1, w1.m, [Manager.Fired(tag)], n);
    case StopCall =>
  }

  lemma LaunchKeepsSilence(w0: World, w: World, n: nat)
    requires Silent(w0, w, n) && Manager.Inv(w.m)
    ensures Silent(w0, Launch(w), n)
  {
    hide Manager.Inv, Note, Manager.MakeSpares;
    ManagerTheory.MakeSparesKeeps(w.m, w.m.numExtra);
    ManagerTheory.SparesAreNobody(w.m, w.m.numExtra, n);
    var o := Manager.OnStart(w.m);
    NoteKeepsSilence(w0, w, o.m, o.effects, n);
  }

  lemma StepKeepsSilence(w0: World, w: World, s: Step, n: nat)
    requires Silent(w0, w, n) && Manager.Inv(w.m) && Enabled(w, s, false)
    ensures Silent(w0, Take(w, s), n)
  {
    hide Manager.Inv, Act, Begin, Perform, Launch, Kernel.Insert;
    match s
    case DoAct(a) => ActKeepsSilence(w0, w, a, n);
    case DoBegin => BeginKeepsSilence(w0, w, n);
    case DoPerform(c) => PerformKeepsSilence(w0, w, c, n);
    case DoLaunch => LaunchKeepsSilence(w0, w, n);
    case _ =>
  }

  // From the moment a node is deactivated, the rest of that grant included, nothing moves it, configures it,
  // transmits from it, or makes a reception report for it.
  lemma RemovalIsPermanent(w: World, ss: seq<Step>, n: nat)
    requires Manager.Inv(w.m) && n in w.m.deactivated && Possible(w, ss, false)
    ensures Silent(w, Walk(w, ss), n)
  {
    var I := (x: World) => Manager.Inv(x.m) && Silent(w, x, n);
    forall x, s | I(x) && Enabled(x, s, false) ensures I(Take(x, s)) {
      StepKeepsManager(x, s, false);
      StepKeepsSilence(w, x, s, n);
    }
    WalkKeeps(w, ss, I, false);
  }

  // RemoveNode deactivates its node in the very step that executes it.
  lemma RemovalDeactivates(w: World, id: nat)
    requires Manager.Inv(w.m) && w.k.events != [] && w.k.events[0].job == Deferred(RemoveNode(id))
    requires w.k.currentTs <= w.k.events[0].ts && w.k.events[0].uid !in w.k.cancelled && id in w.m.toNs3
    ensures w.m.toNs3[id] in Begin(w).m.deactivated
  {
    ManagerTheory.RemovalSilencesTheNode(w.m, id, 0);
    hide Manager.Inv, Kernel.Pop, Manager.RemoveNode;
  }
}
