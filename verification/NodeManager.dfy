// MosaicNodeManager with its fields updated in place; each method is proved to do what Manager says.
module NodeManager {
  import opened Types
  import opened ProxyApp
  import M = Manager
  import opened Manager

  class MosaicNodeManager {
    var mosaic2ns3: map<nat, nat>
    var ns32mosaic: map<nat, nat>
    var isRadioNode: set<nat>
    var isWiredNode: set<nat>
    var isWifiRadioConfigured: set<nat>
    var isCellRadioConfigured: set<nat>
    var isDeactivated: set<nat>
    var nodes: map<nat, NodeKind>
    var nextNode: nat
    var enbNodes: seq<nat>
    var radioNodes: seq<nat>
    var extraRadioNodes: seq<nat>
    const numExtraRadioNodes: nat
    var apps: map<AppRef, MosaicProxyApp>
    ghost var activations: seq<nat>

    ghost predicate Valid()
      reads this, apps.Values
    {
      && (forall r, s :: r in apps && s in apps && r != s ==> apps[r] != apps[s])
      && (forall r :: r in apps ==> apps[r].Valid() && r.node < nextNode)
    }

    ghost function Apps(): map<AppRef, App>
      requires Valid()
      reads this, apps.Values
    {
      map r | r in apps :: apps[r].State()
    }

    ghost function State(): M.State
      requires Valid()
      reads this, apps.Values
    {
      M.State(mosaic2ns3, ns32mosaic, isRadioNode, isWiredNode, isWifiRadioConfigured, isCellRadioConfigured,
              isDeactivated, nodes, nextNode, enbNodes, radioNodes, extraRadioNodes, numExtraRadioNodes, Apps(), activations)
    }

    constructor (firstNode: nat, numExtra: nat)
      ensures Valid() && apps == map[] && State() == M.Initial(firstNode, numExtra)
    {
      mosaic2ns3, ns32mosaic := map[], map[];
      isRadioNode, isWiredNode, isWifiRadioConfigured, isCellRadioConfigured, isDeactivated := {}, {}, {}, {}, {};
      nodes, nextNode := map[], firstNode;
      enbNodes, radioNodes, extraRadioNodes, numExtraRadioNodes := [], [], [], numExtra;
      apps, activations := map[], [];
    }

    // ---------- node creation ----------

    method NewApplication(device: Device) returns (app: MosaicProxyApp)
      ensures fresh(app) && app.Valid() && app.State() == App(device, false, 0, 0)
    {
      app := new MosaicProxyApp();
      var ok := app.SetSockets(device);
    }

    // CreateObject, AddApplication and SetSockets.
    method AddApplication(r: AppRef, device: Device)
      requires Valid() && r !in apps && r.node < nextNode
      modifies `apps
      ensures Valid() && State() == old(State()).(apps := old(Apps())[r := App(device, false, 0, 0)])
      ensures fresh(apps.Values - old(apps.Values)) && apps.Keys == old(apps).Keys + {r}
    {
      var app := NewApplication(device);
      apps := apps[r := app];
      assert Apps() == old(Apps())[r := App(device, false, 0, 0)];
    }

    method NewNode(kind: NodeKind) returns (n: nat)
      requires Valid()
      modifies `nodes, `nextNode
      ensures Valid() && n == old(nextNode)
      ensures State() == old(State()).(nodes := old(nodes)[n := kind], nextNode := n + 1)
      ensures forall i: nat :: AppRef(n, i) !in apps
    {
      n := nextNode;
      nextNode := nextNode + 1;
      nodes := nodes[n := kind];
      assert Apps() == old(Apps());
      assert forall i: nat :: AppRef(n, i) in apps ==> AppRef(n, i).node < n;
    }

    method CreateNodeB(pos: Vector) returns (effects: seq<Effect>, verdict: Verdict)
      requires Valid()
      modifies this
      ensures Valid() && Outcome(State(), effects, verdict) == M.CreateNodeB(old(State()), pos)
      ensures apps == old(apps)
    {
      var n := NewNode(ENodeB);
      enbNodes := enbNodes + [n];
      assert Apps() == old(Apps());
      return [NodeMade(n, ENodeB), Positioned(n, pos)], Fine;
    }

    method CreateWiredNode(id: nat) returns (effects: seq<Effect>, verdict: Verdict)
      requires Valid()
      modifies this
      ensures Valid() && Outcome(State(), effects, verdict) == M.CreateWiredNode(old(State()), id)
      ensures fresh(apps.Values - old(apps.Values))
    {
      if id in mosaic2ns3 {
        return [], Exit(DuplicateId);
      }
      var n := NewNode(WiredNode);
      AddApplication(AppRef(n, 0), ETH);
      EnterWiredNode(id, n);
      return [NodeMade(n, WiredNode)], Fine;
    }

    method EnterWiredNode(id: nat, n: nat)
      requires Valid()
      modifies `mosaic2ns3, `ns32mosaic, `isWiredNode
      ensures Valid() && State() == Register(old(State()), id, n).(wired := old(isWiredNode) + {n})
    {
      mosaic2ns3 := mosaic2ns3[id := n];
      ns32mosaic := ns32mosaic[n := id];
      isWiredNode := isWiredNode + {n};
      assert Apps() == old(Apps());
    }

    method CreateRadioNodeHelper() returns (n: nat)
      requires Valid()
      modifies `nodes, `nextNode, `apps
      ensures Valid() && n == old(nextNode) && State() == M.CreateRadioNodeHelper(old(State()))
      ensures fresh(apps.Values - old(apps.Values))
    {
      n := NewNode(RadioNode);
      AddApplication(AppRef(n, 0), WIFI);
      AddApplication(AppRef(n, 1), CELL);
    }

    // The part that CreateRadioNode and ActivateRadioNode share: enter node n under this id.
    method EnterRadioNode(id: nat, n: nat)
      requires Valid()
      modifies `mosaic2ns3, `ns32mosaic, `isRadioNode, `radioNodes
      ensures Valid()
      ensures State() == Register(old(State()), id, n).(radio := old(isRadioNode) + {n}, radioNodes := old(radioNodes) + [n])
    {
      mosaic2ns3 := mosaic2ns3[id := n];
      ns32mosaic := ns32mosaic[n := id];
      isRadioNode := isRadioNode + {n};
      radioNodes := radioNodes + [n];
      assert Apps() == old(Apps());
    }

    method CreateRadioNode(id: nat, pos: Vector) returns (effects: seq<Effect>, verdict: Verdict)
      requires Valid()
      modifies this
      ensures Valid() && Outcome(State(), effects, verdict) == M.CreateRadioNode(old(State()), id, pos)
      ensures fresh(apps.Values - old(apps.Values))
    {
      if id in mosaic2ns3 {
        return [], Exit(DuplicateId);
      }
      var n := CreateRadioNodeHelper();
      EnterRadioNode(id, n);
      effects, verdict := UpdateNodePosition(id, pos);
      effects := [NodeMade(n, RadioNode)] + effects;
    }

    method AddSpare() returns (node: nat)
      requires Valid()
      modifies `nodes, `nextNode, `apps, `extraRadioNodes
      ensures Valid() && node == old(nextNode)
      ensures State() == M.CreateRadioNodeHelper(old(State())).(spare := old(extraRadioNodes) + [node])
      ensures fresh(apps.Values - old(apps.Values))
    {
      node := CreateRadioNodeHelper();
      ghost var m := State();
      extraRadioNodes := extraRadioNodes + [node];
      assert Apps() == m.apps;
    }

    method OnStart() returns (effects: seq<Effect>, verdict: Verdict)
      requires Valid()
      modifies this
      ensures Valid() && Outcome(State(), effects, verdict) == M.OnStart(old(State()))
      ensures fresh(apps.Values - old(apps.Values))
    {
      hide M.CreateRadioNodeHelper, Valid;
      ghost var m0 := State();
      var made: seq<Effect> := [];
      var i := 0;
      while i < numExtraRadioNodes
        invariant 0 <= i <= numExtraRadioNodes
        invariant Valid() && fresh(apps.Values - old(apps.Values))
        invariant (State(), made) == MakeSpares(m0, i)
        invariant enbNodes == m0.enbs
      {
        var node := AddSpare();
        made := made + [NodeMade(node, RadioNode)];
        i := i + 1;
      }
      return [X2Linked(enbNodes)] + made, Fine;
    }

    // The loop of ActivateRadioNode: the first spare node that is not used yet goes into the tables.
    method UseFirstSpare(id: nat)
      requires Valid()
      modifies `mosaic2ns3, `ns32mosaic, `isRadioNode, `radioNodes, `activations
      ensures Valid()
      ensures var m, i := old(State()), FirstFree(old(State()), 0);
              State() == if i == |m.spare| then m
                         else Register(m, id, m.spare[i]).(radio := m.radio + {m.spare[i]},
                                                           radioNodes := m.radioNodes + [m.spare[i]],
                                                           activations := m.activations + [id])
    {
      ghost var m := State();
      var i := 0;
      while i < |extraRadioNodes|
        invariant 0 <= i <= |extraRadioNodes| && State() == m && Valid()
        invariant FirstFree(m, 0) == FirstFree(m, i)
      {
        var node := extraRadioNodes[i];
        if node !in ns32mosaic {
          EnterRadioNode(id, node);
          ghost var m1 := State();
          activations := activations + [id];
          assert Apps() == m1.apps;
          return;
        }
        i := i + 1;
      }
    }

    method ActivateRadioNode(id: nat, pos: Vector) returns (effects: seq<Effect>, verdict: Verdict)
      requires Valid()
      modifies this
      ensures Valid() && Outcome(State(), effects, verdict) == M.ActivateRadioNode(old(State()), id, pos)
      ensures apps == old(apps)
    {
      if id in mosaic2ns3 {
        return [], Exit(DuplicateId);
      }
      UseFirstSpare(id);
      if id !in mosaic2ns3 {
        return [], Exit(PoolExhausted);
      }
      effects, verdict := UpdateNodePosition(id, pos);
    }

    // ---------- commands on an existing node ----------

    method UpdateNodePosition(id: nat, pos: Vector) returns (effects: seq<Effect>, verdict: Verdict)
      requires Valid()
      ensures Outcome(State(), effects, verdict) == M.UpdateNodePosition(State(), id, pos)
    {
      if id !in mosaic2ns3 {
        return [], Exit(UnknownId);
      }
      var n := mosaic2ns3[id];
      if n in isDeactivated {
        return [], Fine;
      }
      if n !in nodes || nodes[n] == WiredNode {
        return [], Exit(NullMobility);
      }
      return [Positioned(n, pos)], Fine;
    }

    method EnableApp(r: AppRef)
      requires Valid() && r in apps
      modifies apps[r]
      ensures Valid() && State() == SetActive(old(State()), r, true)
    {
      apps[r].Enable();
      assert Apps() == old(Apps())[r := old(Apps())[r].(active := true)];
    }

    method DisableApp(r: AppRef)
      requires Valid() && r in apps
      modifies apps[r]
      ensures Valid() && State() == SetActive(old(State()), r, false)
    {
      apps[r].Disable();
      assert Apps() == old(Apps())[r := old(Apps())[r].(active := false)];
    }

    method RemoveNode(id: nat) returns (effects: seq<Effect>, verdict: Verdict)
      requires Valid()
      modifies this, apps.Values
      ensures Valid() && Outcome(State(), effects, verdict) == M.RemoveNode(old(State()), id)
      ensures apps == old(apps)
    {
      effects := [];
      if id !in mosaic2ns3 {
        return [], Exit(UnknownId);
      }
      var n := mosaic2ns3[id];
      if n in isDeactivated {
        return [], Fine;
      }
      if n in isRadioNode {
        if n !in nodes || nodes[n] != RadioNode {
          return [], Fine;
        }
        effects := [WifiOff(n)];
      }
      var ok := DisableApps(n, if n in isRadioNode then 2 else 1);
      if !ok {
        return effects, Exit(MissingApp);
      }
      ghost var m := State();
      isDeactivated := isDeactivated + {n};
      assert Apps() == m.apps;
      return effects, Fine;
    }

    // The loop of RemoveNode: application 0 is fetched on every round.
    method DisableApps(n: nat, numApps: nat) returns (ok: bool)
      requires Valid() && numApps > 0
      modifies apps.Values
      ensures Valid() && ok == (AppRef(n, 0) in apps)
      ensures State() == if ok then SetActive(old(State()), AppRef(n, 0), false) else old(State())
    {
      var i := 0;
      while i < numApps
        invariant 0 <= i <= numApps && Valid() && (i > 0 ==> AppRef(n, 0) in apps)
        invariant State() == if i == 0 then old(State()) else SetActive(old(State()), AppRef(n, 0), false)
      {
        if AppRef(n, 0) !in apps {
          return false;
        }
        DisableApp(AppRef(n, 0));
        i := i + 1;
      }
      return true;
    }

    method ConfigureWifiRadio(id: nat, power: real, ip: Ipv4) returns (effects: seq<Effect>, verdict: Verdict)
      requires Valid()
      modifies this, apps.Values
      ensures Valid() && Outcome(State(), effects, verdict) == M.ConfigureWifiRadio(old(State()), id, power, ip)
      ensures apps == old(apps)
    {
      if id !in mosaic2ns3 {
        return [], Exit(UnknownId);
      }
      var n := mosaic2ns3[id];
      if n in isDeactivated || n in isWifiRadioConfigured {
        return [], Fine;
      }
      isWifiRadioConfigured := isWifiRadioConfigured + {n};
      assert Apps() == old(Apps());
      if n !in isRadioNode {
        return [], Exit(WifiOnWired);
      }
      if AppRef(n, 0) !in apps {
        return [], Exit(MissingApp);
      }
      EnableApp(AppRef(n, 0));
      effects := [];
      if power > -1.0 {
        if n !in nodes || nodes[n] != RadioNode {
          return [], Fine;
        }
        effects := [TxPower(n, power)];
      }
      return effects + [AddressAdded(n, 1, ip, 8)], Fine;
    }

    method ConfigureCellRadio(id: nat, ip: Ipv4) returns (effects: seq<Effect>, verdict: Verdict)
      requires Valid()
      modifies this, apps.Values
      ensures Valid() && Outcome(State(), effects, verdict) == M.ConfigureCellRadio(old(State()), id, ip)
      ensures apps == old(apps)
    {
      if id !in mosaic2ns3 {
        return [], Exit(UnknownId);
      }
      var n := mosaic2ns3[id];
      if n in isDeactivated || n in isCellRadioConfigured {
        return [], Fine;
      }
      isCellRadioConfigured := isCellRadioConfigured + {n};
      assert Apps() == old(Apps());
      if !PartOf10(ip) {
        return [], Exit(BadAddress);
      }
      if n in isRadioNode {
        if PartOf105(ip) || PartOf106(ip) {
          return [], Exit(BadAddress);
        }
        if AppRef(n, 1) !in apps {
          return [], Exit(MissingApp);
        }
        EnableApp(AppRef(n, 1));
        return [AddressAdded(n, 2, ip, 8), Attached(n)], Fine;
      } else if n in isWiredNode {
        if !PartOf105(ip) && !PartOf106(ip) {
          return [], Exit(BadAddress);
        }
        if AppRef(n, 0) !in apps {
          return [], Exit(MissingApp);
        }
        EnableApp(AppRef(n, 0));
        return [AddressAdded(n, 1, ip, 16), DefaultRoute(n, GATEWAY)], Fine;
      } else {
        return [], Exit(InvalidState);
      }
    }

    method Transmit(r: AppRef, dst: Ipv4, msg: nat, length: nat) returns (effects: seq<Effect>, verdict: Verdict)
      requires Valid()
      modifies apps.Values
      ensures Valid() && Outcome(State(), effects, verdict) == M.TransmitPacket(old(State()), r, dst, msg, length)
    {
      if r !in apps {
        return [], Fine;
      }
      var sent := apps[r].TransmitPacket();
      assert Apps() == old(Apps())[r := apps[r].State()];
      return if sent then [Sent(r.node, r.index, dst, msg, length)] else [], Fine;
    }

    method SendWifiMsg(id: nat, dst: Ipv4, channel: nat, msg: nat, length: nat)
      returns (effects: seq<Effect>, verdict: Verdict)
      requires Valid()
      modifies apps.Values
      ensures Valid() && Outcome(State(), effects, verdict) == M.SendWifiMsg(old(State()), id, dst, channel, msg, length)
    {
      if id !in mosaic2ns3 {
        return [], Exit(UnknownId);
      }
      var n := mosaic2ns3[id];
      if n in isDeactivated {
        return [], Fine;
      }
      if channel != PROTO_CCH {
        return [], Exit(BadChannel);
      }
      if n !in isRadioNode {
        return [], Exit(WifiOnWired);
      }
      effects, verdict := Transmit(AppRef(n, 0), dst, msg, length);
    }

    method SendCellMsg(id: nat, dst: Ipv4, msg: nat, length: nat) returns (effects: seq<Effect>, verdict: Verdict)
      requires Valid()
      modifies apps.Values
      ensures Valid() && Outcome(State(), effects, verdict) == M.SendCellMsg(old(State()), id, dst, msg, length)
    {
      if id !in mosaic2ns3 {
        return [], Exit(UnknownId);
      }
      var n := mosaic2ns3[id];
      if n in isDeactivated {
        return [], Fine;
      }
      if n in isRadioNode {
        effects, verdict := Transmit(AppRef(n, 1), dst, msg, length);
      } else if n in isWiredNode {
        effects, verdict := Transmit(AppRef(n, 0), dst, msg, length);
      } else {
        return [], Fine;
      }
    }

    // ---------- reception ----------

    // MosaicProxyApp::Receive on this application, then RecvWifiMsg or RecvCellMsg up to the report.
    method PacketArrives(r: AppRef) returns (d: Delivery)
      requires Valid()
      modifies apps.Values
      ensures Valid() && (State(), d) == M.Receive(old(State()), r)
    {
      if r !in apps {
        return Ignored;
      }
      var forwarded := apps[r].Receive();
      assert Apps() == old(Apps())[r := apps[r].State()];
      if !forwarded {
        assert Apps() == old(Apps());
        return Ignored;
      }
      if r.node in isDeactivated {
        return Ignored;
      }
      if r.node !in ns32mosaic {
        return Lost(UnknownNs3Node);
      }
      return Forwarded(apps[r].outDevice.value == WIFI, ns32mosaic[r.node]);
    }

    // What an event packed by MakeEvent calls.
    method Invoke(c: Call) returns (effects: seq<Effect>, verdict: Verdict)
      requires Valid()
      modifies this, apps.Values
      ensures Valid() && Outcome(State(), effects, verdict) == M.Apply(old(State()), c)
      ensures fresh(apps.Values - old(apps.Values))
    {
      match c
      case CreateRadioNode(id, pos) => effects, verdict := CreateRadioNode(id, pos);
      case CreateWiredNode(id) => effects, verdict := CreateWiredNode(id);
      case CreateNodeB(pos) => effects, verdict := CreateNodeB(pos);
      case ActivateRadioNode(id, pos) => effects, verdict := ActivateRadioNode(id, pos);
      case UpdateNodePosition(id, pos) => effects, verdict := UpdateNodePosition(id, pos);
      case RemoveNode(id) => effects, verdict := RemoveNode(id);
      case ConfigureWifiRadio(id, power, ip) => effects, verdict := ConfigureWifiRadio(id, power, ip);
      case ConfigureCellRadio(id, ip) => effects, verdict := ConfigureCellRadio(id, ip);
      case SendWifiMsg(id, dst, channel, msg, length) => effects, verdict := SendWifiMsg(id, dst, channel, msg, length);
      case SendCellMsg(id, dst, msg, length) => effects, verdict := SendCellMsg(id, dst, msg, length);
    }
  }
}
