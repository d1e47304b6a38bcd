// A message passes exactly when its node was configured for the medium and is not removed, at every moment of every run.
module Gates {
  import opened Types
  import opened Federation
  import opened Steps
  import opened Walks
  import Bridge
  import Kernel
  import Manager
  import ManagerTheory
  import ManagerRuns

  predicate Active(m: Manager.State, n: nat, index: nat) {
    Manager.AppRef(n, index) in m.apps && m.apps[Manager.AppRef(n, index)].active
  }

  // On a node that is not removed, each application is on exactly if the node was configured for its medium.
  ghost predicate GateInv(m: Manager.State) {
    && (forall n :: n in m.wifiConfigured || n in m.cellConfigured ==> n in m.toMosaic)
    && (forall n :: n in m.radio && n !in m.deactivated ==>
          (Active(m, n, 0) <==> n in m.wifiConfigured) && (Active(m, n, 1) <==> n in m.cellConfigured))
    && (forall n :: n in m.wired && n !in m.deactivated ==> (Active(m, n, 0) <==> n in m.cellConfigured))
  }

  // Applications of nodes without a MOSAIC id are off, and such nodes were never configured.
  lemma NewNodeIsOff(m: Manager.State, n: nat)
    requires Manager.Inv(m) && GateInv(m) && n !in m.toMosaic
    ensures n !in m.wifiConfigured && n !in m.cellConfigured && !Active(m, n, 0) && !Active(m, n, 1)
  {
  }

  lemma {:induction false} SparesKeepApps(m: Manager.State, k: nat)
    requires forall r :: r in m.apps ==> r.node < m.nextNode
    ensures var m' := Manager.MakeSpares(m, k).0;
      && m.nextNode <= m'.nextNode
      && (forall r :: r in m.apps ==> r in m'.apps && m'.apps[r] == m.apps[r])
      && (forall r :: r in m'.apps ==> r.node < m'.nextNode && (r !in m.apps ==> !m'.apps[r].active))
      && m'.wifiConfigured == m.wifiConfigured && m'.cellConfigured == m.cellConfigured
      && m'.radio == m.radio && m'.wired == m.wired
    decreases k
  {
    if k > 0 {
      SparesKeepApps(m, k - 1);
    }
  }

  // More nodes with ids or without: those already there keep their gates, and the new ones are off.
  lemma MoreNodesKeepGates(m: Manager.State, m': Manager.State, entered: set<nat>)
    requires GateInv(m)
    requires m'.wifiConfigured == m.wifiConfigured && m'.cellConfigured == m.cellConfigured
    requires m'.deactivated == m.deactivated && m.toMosaic.Keys <= m'.toMosaic.Keys
    requires m'.radio <= m.radio + entered && m'.wired <= m.wired + entered
    requires forall n, i :: Active(m', n, i) == Active(m, n, i)
    requires forall n :: n in entered ==>
               n !in m.wifiConfigured && n !in m.cellConfigured && !Active(m, n, 0) && !Active(m, n, 1)
    ensures GateInv(m')
  {
  }

  lemma NoAppsAhead(m: Manager.State)
    requires Manager.Inv(m)
    ensures forall r :: r in m.apps ==> r.node < m.nextNode
  {
  }

  lemma LaunchKeepsGates(m: Manager.State)
    requires Manager.Inv(m) && GateInv(m)
    ensures GateInv(Manager.OnStart(m).m)
  {
    hide GateInv, Manager.Inv, Manager.MakeSpares;
    NoAppsAhead(m);
    SparesKeepApps(m, m.numExtra);
    ManagerTheory.MakeSparesKeeps(m, m.numExtra);
    MoreNodesKeepGates(m, Manager.OnStart(m).m, {});
  }

  lemma ActivationKeepsGates(m: Manager.State, id: nat, pos: Vector)
    requires Manager.Inv(m) && GateInv(m)
    ensures GateInv(Manager.ActivateRadioNode(m, id, pos).m)
  {
    hide GateInv, Manager.Inv;
    var i := Manager.FirstFree(m, 0);
    if i < |m.spare| {
      NewNodeIsOff(m, m.spare[i]);
      MoreNodesKeepGates(m, Manager.ActivateRadioNode(m, id, pos).m, {m.spare[i]});
    }
  }

  lemma MakingKeepsGates(m: Manager.State, c: Call)
    requires Manager.Inv(m) && GateInv(m) && (c.CreateRadioNode? || c.CreateWiredNode? || c.CreateNodeB?)
    ensures GateInv(Manager.Apply(m, c).m)
  {
    hide GateInv, Manager.Inv;
    NewNodeIsOff(m, m.nextNode) by { ManagerTheory.IdentityFacts(m); }
    NoAppsAhead(m);
    match c
    case CreateRadioNode(id, pos) => RadioKeepsGates(m, id, pos);
    case CreateWiredNode(id) => {
      var m' := Manager.CreateWiredNode(m, id).m;
      assert forall n, i :: Active(m', n, i) == Active(m, n, i);
      MoreNodesKeepGates(m, m', {m.nextNode});
    }
    case CreateNodeB(pos) => MoreNodesKeepGates(m, Manager.CreateNodeB(m, pos).m, {});
  }

  lemma RadioKeepsGates(m: Manager.State, id: nat, pos: Vector)
    requires GateInv(m) && forall r :: r in m.apps ==> r.node < m.nextNode
    requires var n := m.nextNode; n !in m.wifiConfigured && n !in m.cellConfigured && !Active(m, n, 0) && !Active(m, n, 1)
    ensures GateInv(Manager.CreateRadioNode(m, id, pos).m)
  {
    hide GateInv;
    var m' := Manager.CreateRadioNode(m, id, pos).m;
    assert forall n, i :: Active(m', n, i) == Active(m, n, i);
    MoreNodesKeepGates(m, m', {m.nextNode});
  }

  lemma CreationKeepsGates(m: Manager.State, c: Call)
    requires Manager.Inv(m) && GateInv(m) && (ManagerTheory.Creates(c) || c.CreateNodeB?)
    ensures GateInv(Manager.Apply(m, c).m)
  {
    hide GateInv, Manager.Inv;
    if c.ActivateRadioNode? {
      ActivationKeepsGates(m, c.id, c.pos);
    } else {
      MakingKeepsGates(m, c);
    }
  }

  lemma CommandKeepsGates(m: Manager.State, c: Call)
    requires GateInv(m) && !ManagerTheory.Creates(c) && !c.CreateNodeB? && ManagerTheory.Sound(m, c.id)
    requires Manager.Apply(m, c).verdict == Manager.Fine
    ensures GateInv(Manager.Apply(m, c).m)
  {
    hide Manager.CreateRadioNode, Manager.CreateWiredNode, Manager.CreateNodeB, Manager.ActivateRadioNode;
    var n := m.toNs3[c.id];
    var m' := Manager.Apply(m, c).m;
    assert forall x, i :: x != n ==> Active(m', x, i) == Active(m, x, i);
  }

  lemma CallKeepsGates(m: Manager.State, c: Call)
    requires Manager.Inv(m) && GateInv(m) && Manager.Apply(m, c).verdict == Manager.Fine
    ensures GateInv(Manager.Apply(m, c).m)
  {
    if ManagerTheory.Creates(c) || c.CreateNodeB? {
      CreationKeepsGates(m, c);
    } else {
      ManagerTheory.ExitConditions(m, c);
      ManagerTheory.SoundNode(m, c.id);
      CommandKeepsGates(m, c);
    }
  }

  lemma ReceptionKeepsGates(m: Manager.State, r: Manager.AppRef)
    requires GateInv(m)
    ensures GateInv(Manager.Receive(m, r).0)
  {
    var m' := Manager.Receive(m, r).0;
    assert forall x, i :: Active(m', x, i) == Active(m, x, i);
  }

  ghost predicate Gated(w: World) {
    Manager.Inv(w.m) && (w.status.Running? ==> GateInv(w.m))
  }

  lemma PerformKeepsGates(w: World, c: Call)
    requires Gated(w) && w.status.Running?
    ensures Gated(Perform(w, c))
  {
    hide Manager.Inv, GateInv, Manager.Apply;
    ManagerTheory.ApplyKeeps(w.m, c);
    if Manager.Apply(w.m, c).verdict == Manager.Fine {
      CallKeepsGates(w.m, c);
    }
  }

  lemma StepKeepsGates(w: World, s: Step)
    requires Gated(w) && Enabled(w, s, false)
    ensures Gated(Take(w, s))
  {
    hide Manager.Inv, GateInv, Perform, Manager.MakeSpares, Manager.Receive, Kernel.Insert, Kernel.Pop, Bridge.WriteNextTime;
    ManagerRuns.StepKeepsManager(w, s, false);
    match s
    case DoAct(a) => if a.Deliver? { ReceptionKeepsGates(w.m, a.app); }
    case DoBegin => if w.k.events[0].job.Deferred? { PerformKeepsGates(w.(k := Kernel.Pop(w.k)), w.k.events[0].job.call); }
    case DoPerform(c) => PerformKeepsGates(w, c);
    case DoLaunch => LaunchKeepsGates(w.m);
    case _ =>
  }

  lemma GatesAreKept()
    ensures Kept((x: World) => Gated(x), false)
  {
    forall x, s | Gated(x) && Enabled(x, s, false) ensures Gated(Take(x, s)) {
      StepKeepsGates(x, s);
    }
  }

  lemma WalkKeepsGates(w: World, ss: seq<Step>)
    requires Gated(w) && Possible(w, ss, false)
    ensures Gated(Walk(w, ss))
  {
    GatesAreKept();
    WalkKeeps(w, ss, (x: World) => Gated(x), false);
  }

  lemma RunKeepsGates(net: Network, w: World, cs: seq<Command>)
    requires Gated(w)
    ensures Gated(Run(net, w, cs))
  {
    GatesAreKept();
    RunKeeps(net, w, cs, (x: World) => Gated(x), false);
  }

  lemma CellMessageOf(m: Manager.State, id: nat, dst: Ipv4, msg: nat, length: nat)
    requires Manager.Inv(m) && GateInv(m) && id in m.toNs3
    ensures var n := m.toNs3[id];
            Manager.Apply(m, SendCellMsg(id, dst, msg, length)).effects ==
            if n in m.cellConfigured && n !in m.deactivated
            then [Manager.Sent(n, if n in m.radio then 1 else 0, dst, msg, length)] else []
  {
    ManagerTheory.SoundNode(m, id);
    hide Manager.Inv;
  }

  lemma WifiMessageOf(m: Manager.State, id: nat, dst: Ipv4, msg: nat, length: nat)
    requires Manager.Inv(m) && GateInv(m) && id in m.toNs3
    ensures var n := m.toNs3[id];
            Manager.Apply(m, SendWifiMsg(id, dst, PROTO_CCH, msg, length)).effects ==
            if n in m.radio && n in m.wifiConfigured && n !in m.deactivated
            then [Manager.Sent(n, 0, dst, msg, length)] else []
  {
    ManagerTheory.SoundNode(m, id);
    hide Manager.Inv;
  }

  // At any moment a cell message leaves a node exactly if the node is configured for cell and not removed: through
  // application 1 of a radio node, through application 0 of a wired one.
  lemma CellMessageIsSentIff(w: World, ss: seq<Step>, id: nat, dst: Ipv4, msg: nat, length: nat)
    requires Gated(w) && Possible(w, ss, false) && Walk(w, ss).status.Running? && id in Walk(w, ss).m.toNs3
    ensures var m := Walk(w, ss).m;
            var n := m.toNs3[id];
            Manager.Apply(m, SendCellMsg(id, dst, msg, length)).effects ==
            if n in m.cellConfigured && n !in m.deactivated
            then [Manager.Sent(n, if n in m.radio then 1 else 0, dst, msg, length)] else []
  {
    WalkKeepsGates(w, ss);
    hide Walk, Possible, Manager.Inv, GateInv, Manager.Apply;
    CellMessageOf(Walk(w, ss).m, id, dst, msg, length);
  }

  // The same for Wi-Fi, on the control channel and through application 0 of a radio node.
  lemma WifiMessageIsSentIff(w: World, ss: seq<Step>, id: nat, dst: Ipv4, msg: nat, length: nat)
    requires Gated(w) && Possible(w, ss, false) && Walk(w, ss).status.Running? && id in Walk(w, ss).m.toNs3
    ensures var m := Walk(w, ss).m;
            var n := m.toNs3[id];
            Manager.Apply(m, SendWifiMsg(id, dst, PROTO_CCH, msg, length)).effects ==
            if n in m.radio && n in m.wifiConfigured && n !in m.deactivated
            then [Manager.Sent(n, 0, dst, msg, length)] else []
  {
    WalkKeepsGates(w, ss);
    hide Walk, Possible, Manager.Inv, GateInv, Manager.Apply;
    WifiMessageOf(Walk(w, ss).m, id, dst, msg, length);
  }

  // At any moment a packet at an application of a node is reported exactly if the node is configured for the
  // medium of that application and not removed, and then under the node's own MOSAIC id.
  lemma PacketIsReportedIff(w: World, ss: seq<Step>, id: nat, wifi: bool)
    requires Gated(w) && Possible(w, ss, false) && Walk(w, ss).status.Running? && id in Walk(w, ss).m.toNs3
    requires wifi ==> Walk(w, ss).m.toNs3[id] in Walk(w, ss).m.radio
    ensures var m := Walk(w, ss).m;
            var n := m.toNs3[id];
            var app := Manager.AppRef(n, if n in m.radio && !wifi then 1 else 0);
            Manager.Receive(m, app).1 ==
            if n !in m.deactivated && (if wifi then n in m.wifiConfigured else n in m.cellConfigured)
            then Manager.Forwarded(wifi, id) else Manager.Ignored
  {
    WalkKeepsGates(w, ss);
    hide Walk, Possible, Manager.Inv, GateInv, Manager.Receive;
    PacketOf(Walk(w, ss).m, id, wifi);
  }

  lemma PacketOf(m: Manager.State, id: nat, wifi: bool)
    requires Manager.Inv(m) && GateInv(m) && id in m.toNs3 && (wifi ==> m.toNs3[id] in m.radio)
    ensures var n := m.toNs3[id];
            var app := Manager.AppRef(n, if n in m.radio && !wifi then 1 else 0);
            Manager.Receive(m, app).1 ==
            if n !in m.deactivated && (if wifi then n in m.wifiConfigured else n in m.cellConfigured)
            then Manager.Forwarded(wifi, id) else Manager.Ignored
  {
    ManagerTheory.SoundNode(m, id);
    DevicesOf(m, m.toNs3[id]);
    assert m.toMosaic[m.toNs3[id]] == id;
    hide Manager.Inv;
  }

  lemma DevicesOf(m: Manager.State, n: nat)
    requires Manager.Inv(m) && n in m.toMosaic
    ensures n in m.radio ==> m.apps[Manager.AppRef(n, 0)].device == Manager.WIFI && m.apps[Manager.AppRef(n, 1)].device == Manager.CELL
    ensures n in m.wired ==> m.apps[Manager.AppRef(n, 0)].device == Manager.ETH
  {
    assert Manager.DeviceOf(Manager.RadioNode, 0).Some? && Manager.DeviceOf(Manager.RadioNode, 1).Some?
        && Manager.DeviceOf(Manager.WiredNode, 0).Some?;
  }

  // A call that has effects tells ns-3 of exactly these, with the current time.
  lemma EffectsReachNs3(w: World, c: Call)
    ensures var es := Manager.Apply(w.m, c).effects;
            Perform(w, c).history == w.history + if es == [] then [] else [Stimulus(w.k.currentTs, w.k.uid, es)]
  {
    hide Manager.Apply;
  }

  // The report that a reception makes: RECV_WIFI_MSG or RECV_CELL_MSG, stamped Now, with the node's own id and the
  // message number. It is written exactly if the node is configured for that medium and not removed; otherwise nothing is.
  lemma ReceptionIsWrittenIff(w: World, ss: seq<Step>, id: nat, wifi: bool, msg: int)
    requires Gated(w) && Possible(w, ss, false) && Walk(w, ss).status.Running? && id in Walk(w, ss).m.toNs3
    requires wifi ==> Walk(w, ss).m.toNs3[id] in Walk(w, ss).m.radio
    ensures var x := Walk(w, ss);
            var n := x.m.toNs3[id];
            var x' := Act(x, Deliver(Manager.AppRef(n, if n in x.m.radio && !wifi then 1 else 0), msg));
      && x'.b.log == x.b.log +
           (if n !in x.m.deactivated && (if wifi then n in x.m.wifiConfigured else n in x.m.cellConfigured)
            then [if wifi then Bridge.RecvWifi(x.k.currentTs, id, msg) else Bridge.RecvCell(x.k.currentTs, id, msg)]
            else [])
      && x'.status.Running? && x'.k == x.k && x'.history == x.history
  {
    hide Walk, Possible, Gated, Manager.Receive;
    PacketIsReportedIff(w, ss, id, wifi);
    var x := Walk(w, ss);
    DeliveryWrites(x, Manager.AppRef(x.m.toNs3[id], if x.m.toNs3[id] in x.m.radio && !wifi then 1 else 0), msg);
    hide Act;
  }

  // What a delivery that ends nothing writes.
  lemma DeliveryWrites(x: World, app: Manager.AppRef, msg: int)
    ensures var d, x' := Manager.Receive(x.m, app).1, Act(x, Deliver(app, msg));
      && x'.k == x.k && x'.history == x.history && (!d.Lost? ==> x'.status == x.status)
      && x'.b.log == x.b.log +
           (match d
            case Forwarded(wifi, id) =>
              [if wifi then Bridge.RecvWifi(x.k.currentTs, id, msg) else Bridge.RecvCell(x.k.currentTs, id, msg)]
            case _ => [])
  {
    hide Manager.Receive;
  }

  // What a node without an id hears, a spare one for instance, is not reported and ends nothing.
  lemma StrangersAreDeaf(w: World, ss: seq<Step>, app: Manager.AppRef, msg: int)
    requires Gated(w) && Possible(w, ss, false) && Walk(w, ss).status.Running? && app.node !in Walk(w, ss).m.toMosaic
    ensures Act(Walk(w, ss), Deliver(app, msg)) == Walk(w, ss)
  {
    WalkKeepsGates(w, ss);
    InactiveWithoutId(Walk(w, ss).m, app);
    hide Walk, Possible, Gated;
  }

  lemma InactiveWithoutId(m: Manager.State, app: Manager.AppRef)
    requires Manager.Inv(m) && app.node !in m.toMosaic
    ensures app in m.apps ==> !m.apps[app].active
  {
  }
}
