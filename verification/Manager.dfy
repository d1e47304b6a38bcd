// MosaicNodeManager and the proxy apps on values. A method is a function from the fields before the call to
// the fields after it, the effects it has on ns-3, and whether it ended the process.
module Manager {
  import opened Wrappers
  import opened Types

  datatype Device = WIFI | CELL | ETH

  // MosaicProxyApp. The callback that SetRecvCallback installs is RecvWifiMsg for WIFI, else RecvCellMsg.
  datatype App = App(device: Device, active: bool, sendCount: nat, recvCount: nat)

  // node->GetApplication(index)
  datatype AppRef = AppRef(node: nat, index: nat)

  datatype NodeKind = RadioNode | WiredNode | ENodeB

  // What a manager method does to the rest of ns-3.
  datatype Effect =
    | X2Linked(enbs: seq<nat>)
    | NodeMade(node: nat, kind: NodeKind)
    | Positioned(node: nat, pos: Vector)
    | WifiOff(node: nat)
    | TxPower(node: nat, power: real)
    | AddressAdded(node: nat, device: nat, ip: Ipv4, prefix: nat)
    | Attached(node: nat)
    | DefaultRoute(node: nat, gateway: Ipv4)
    | Sent(node: nat, app: nat, dst: Ipv4, msg: nat, length: nat)
    | Fired(tag: nat)        // not of the manager: an ns-3 event is invoked

  datatype State = State(
    toNs3: map<nat, nat>,          // m_mosaic2nsdrei
    toMosaic: map<nat, nat>,       // m_nsdrei2mosaic
    radio: set<nat>,               // m_isRadioNode
    wired: set<nat>,               // m_isWiredNode
    wifiConfigured: set<nat>,      // m_isWifiRadioConfigured
    cellConfigured: set<nat>,      // m_isCellRadioConfigured
    deactivated: set<nat>,         // m_isDeactivated
    nodes: map<nat, NodeKind>,     // the NodeList entries made by the manager
    nextNode: nat,                 // the id the next Node object gets
    enbs: seq<nat>,                // m_enbNodes
    radioNodes: seq<nat>,          // m_radioNodes
    spare: seq<nat>,               // m_extraRadioNodes
    numExtra: nat,                 // m_numExtraRadioNodes
    apps: map<AppRef, App>,
    activations: seq<nat>)         // journal: the ids that ActivateRadioNode served, oldest first

  datatype Verdict = Fine | Exit(why: Reason)
  datatype Outcome = Outcome(m: State, effects: seq<Effect>, verdict: Verdict)

  const GATEWAY: Ipv4 := 0x0500_0001  // 5.0.0.1, the PGW on the backbone

  function Initial(firstNode: nat, numExtra: nat): State {
    State(map[], map[], {}, {}, {}, {}, {}, map[], firstNode, [], [], [], numExtra, map[], [])
  }

  // ---------- node creation ----------

  function CreateNodeB(m: State, pos: Vector): Outcome {
    var n := m.nextNode;
    Outcome(m.(nodes := m.nodes[n := ENodeB], nextNode := n + 1, enbs := m.enbs + [n]),
            [NodeMade(n, ENodeB), Positioned(n, pos)], Fine)
  }

  function Register(m: State, id: nat, n: nat): State {
    m.(toNs3 := m.toNs3[id := n], toMosaic := m.toMosaic[n := id])
  }

  function CreateWiredNode(m: State, id: nat): Outcome {
    if id in m.toNs3 then Outcome(m, [], Exit(DuplicateId))
    else
      var n := m.nextNode;
      var m1 := Register(m, id, n);
      Outcome(m1.(wired := m.wired + {n}, nodes := m.nodes[n := WiredNode], nextNode := n + 1,
                  apps := m.apps[AppRef(n, 0) := App(ETH, false, 0, 0)]),
              [NodeMade(n, WiredNode)], Fine)
  }

  function CreateRadioNodeHelper(m: State): State {
    var n := m.nextNode;
    m.(nodes := m.nodes[n := RadioNode], nextNode := n + 1,
       apps := m.apps[AppRef(n, 0) := App(WIFI, false, 0, 0)][AppRef(n, 1) := App(CELL, false, 0, 0)])
  }

  function CreateRadioNode(m: State, id: nat, pos: Vector): Outcome {
    if id in m.toNs3 then Outcome(m, [], Exit(DuplicateId))
    else
      var n := m.nextNode;
      var m1 := Register(CreateRadioNodeHelper(m), id, n);
      var o := UpdateNodePosition(m1.(radio := m.radio + {n}, radioNodes := m.radioNodes + [n]), id, pos);
      o.(effects := [NodeMade(n, RadioNode)] + o.effects)
  }

  // The loop of OnStart: k more spare radio nodes.
  function MakeSpares(m: State, k: nat): (State, seq<Effect>)
    decreases k
  {
    if k == 0 then (m, [])
    else
      var (m1, es) := MakeSpares(m, k - 1);
      (CreateRadioNodeHelper(m1).(spare := m1.spare + [m1.nextNode]), es + [NodeMade(m1.nextNode, RadioNode)])
  }

  function OnStart(m: State): Outcome {
    var (m1, es) := MakeSpares(m, m.numExtra);
    Outcome(m1, [X2Linked(m.enbs)] + es, Fine)
  }

  // The loop of ActivateRadioNode: the first spare node, from index i on, that has no MOSAIC id yet.
  function FirstFree(m: State, i: nat): (r: nat)
    requires i <= |m.spare|
    ensures i <= r <= |m.spare|
    ensures r < |m.spare| ==> m.spare[r] !in m.toMosaic
    ensures forall j :: i <= j < r ==> m.spare[j] in m.toMosaic
    decreases |m.spare| - i
  {
    if i == |m.spare| || m.spare[i] !in m.toMosaic then i else FirstFree(m, i + 1)
  }

  function ActivateRadioNode(m: State, id: nat, pos: Vector): Outcome {
    if id in m.toNs3 then Outcome(m, [], Exit(DuplicateId))
    else
      var i := FirstFree(m, 0);
      if i == |m.spare| then Outcome(m, [], Exit(PoolExhausted))
      else
        var n := m.spare[i];
        UpdateNodePosition(
          Register(m, id, n).(radio := m.radio + {n}, radioNodes := m.radioNodes + [n],
                              activations := m.activations + [id]), id, pos)
  }

  // ---------- commands on an existing node ----------

  function UpdateNodePosition(m: State, id: nat, pos: Vector): Outcome {
    if id !in m.toNs3 then Outcome(m, [], Exit(UnknownId))
    else
      var n := m.toNs3[id];
      if n in m.deactivated then Outcome(m, [], Fine)
      else if n !in m.nodes || m.nodes[n] == WiredNode then
        // CreateWiredNode installs no mobility model: a null pointer is used
        Outcome(m, [], Exit(NullMobility))
      else Outcome(m, [Positioned(n, pos)], Fine)
  }

  function SetActive(m: State, r: AppRef, on: bool): State
    requires r in m.apps
  {
    m.(apps := m.apps[r := m.apps[r].(active := on)])
  }

  // The loop over numApps fetches application 0 every time.
  function RemoveNode(m: State, id: nat): Outcome {
    if id !in m.toNs3 then Outcome(m, [], Exit(UnknownId))
    else
      var n := m.toNs3[id];
      if n in m.deactivated then Outcome(m, [], Fine)
      else if n in m.radio && (n !in m.nodes || m.nodes[n] != RadioNode) then Outcome(m, [], Fine)
      else
        var es := if n in m.radio then [WifiOff(n)] else [];
        if AppRef(n, 0) !in m.apps then Outcome(m, es, Exit(MissingApp))
        else Outcome(SetActive(m, AppRef(n, 0), false).(deactivated := m.deactivated + {n}), es, Fine)
  }

  function ConfigureWifiRadio(m: State, id: nat, power: real, ip: Ipv4): Outcome {
    if id !in m.toNs3 then Outcome(m, [], Exit(UnknownId))
    else
      var n := m.toNs3[id];
      if n in m.deactivated || n in m.wifiConfigured then Outcome(m, [], Fine)
      else
        var m1 := m.(wifiConfigured := m.wifiConfigured + {n});
        if n !in m.radio then Outcome(m1, [], Exit(WifiOnWired))
        else if AppRef(n, 0) !in m.apps then Outcome(m1, [], Exit(MissingApp))
        else
          var m2 := SetActive(m1, AppRef(n, 0), true);
          if power > -1.0 && (n !in m.nodes || m.nodes[n] != RadioNode) then Outcome(m2, [], Fine)
          else Outcome(m2, (if power > -1.0 then [TxPower(n, power)] else []) + [AddressAdded(n, 1, ip, 8)], Fine)
  }

  predicate PartOf10(ip: Ipv4) { ip / 0x100_0000 == 10 }
  predicate PartOf105(ip: Ipv4) { ip / 0x1_0000 == 10 * 0x100 + 5 }
  predicate PartOf106(ip: Ipv4) { ip / 0x1_0000 == 10 * 0x100 + 6 }

  function ConfigureCellRadio(m: State, id: nat, ip: Ipv4): Outcome {
    if id !in m.toNs3 then Outcome(m, [], Exit(UnknownId))
    else
      var n := m.toNs3[id];
      if n in m.deactivated || n in m.cellConfigured then Outcome(m, [], Fine)
      else
        var m1 := m.(cellConfigured := m.cellConfigured + {n});
        if !PartOf10(ip) then Outcome(m1, [], Exit(BadAddress))
        else if n in m.radio then
          if PartOf105(ip) || PartOf106(ip) then Outcome(m1, [], Exit(BadAddress))
          else if AppRef(n, 1) !in m.apps then Outcome(m1, [], Exit(MissingApp))
          else Outcome(SetActive(m1, AppRef(n, 1), true), [AddressAdded(n, 2, ip, 8), Attached(n)], Fine)
        else if n in m.wired then
          if !PartOf105(ip) && !PartOf106(ip) then Outcome(m1, [], Exit(BadAddress))
          else if AppRef(n, 0) !in m.apps then Outcome(m1, [], Exit(MissingApp))
          else Outcome(SetActive(m1, AppRef(n, 0), true), [AddressAdded(n, 1, ip, 16), DefaultRoute(n, GATEWAY)], Fine)
        else Outcome(m1, [], Exit(InvalidState))
  }

  // MosaicProxyApp::TransmitPacket on a node's application; m_sendCount has 16 bits.
  function TransmitPacket(m: State, r: AppRef, dst: Ipv4, msg: nat, length: nat): Outcome {
    if r !in m.apps then Outcome(m, [], Fine)  // logged and ignored
    else if !m.apps[r].active then Outcome(m, [], Fine)
    else
      var a := m.apps[r];
      Outcome(m.(apps := m.apps[r := a.(sendCount := (a.sendCount + 1) % 0x1_0000)]),
              [Sent(r.node, r.index, dst, msg, length)], Fine)
  }

  function SendWifiMsg(m: State, id: nat, dst: Ipv4, channel: nat, msg: nat, length: nat): Outcome {
    if id !in m.toNs3 then Outcome(m, [], Exit(UnknownId))
    else
      var n := m.toNs3[id];
      if n in m.deactivated then Outcome(m, [], Fine)
      else if channel != PROTO_CCH then Outcome(m, [], Exit(BadChannel))
      else if n !in m.radio then Outcome(m, [], Exit(WifiOnWired))
      else TransmitPacket(m, AppRef(n, 0), dst, msg, length)
  }

  function SendCellMsg(m: State, id: nat, dst: Ipv4, msg: nat, length: nat): Outcome {
    if id !in m.toNs3 then Outcome(m, [], Exit(UnknownId))
    else
      var n := m.toNs3[id];
      if n in m.deactivated then Outcome(m, [], Fine)
      else if n in m.radio then TransmitPacket(m, AppRef(n, 1), dst, msg, length)
      else if n in m.wired then TransmitPacket(m, AppRef(n, 0), dst, msg, length)
      else Outcome(m, [], Fine)
  }

  function Apply(m: State, c: Call): Outcome {
    match c
    case CreateRadioNode(id, pos) => CreateRadioNode(m, id, pos)
    case CreateWiredNode(id) => CreateWiredNode(m, id)
    case CreateNodeB(pos) => CreateNodeB(m, pos)
    case ActivateRadioNode(id, pos) => ActivateRadioNode(m, id, pos)
    case UpdateNodePosition(id, pos) => UpdateNodePosition(m, id, pos)
    case RemoveNode(id) => RemoveNode(m, id)
    case ConfigureWifiRadio(id, power, ip) => ConfigureWifiRadio(m, id, power, ip)
    case ConfigureCellRadio(id, ip) => ConfigureCellRadio(m, id, ip)
    case SendWifiMsg(id, dst, channel, msg, length) => SendWifiMsg(m, id, dst, channel, msg, length)
    case SendCellMsg(id, dst, msg, length) => SendCellMsg(m, id, dst, msg, length)
  }

  // ---------- a packet arrives ----------

  datatype Delivery = Ignored | Forwarded(wifi: bool, id: nat) | Lost(why: Reason)

  // MosaicProxyApp::Receive and the callback RecvWifiMsg or RecvCellMsg behind it.
  function Receive(m: State, r: AppRef): (State, Delivery) {
    if r !in m.apps || !m.apps[r].active then (m, Ignored)
    else
      var a := m.apps[r];
      var m1 := m.(apps := m.apps[r := a.(recvCount := a.recvCount + 1)]);
      if r.node in m.deactivated then (m1, Ignored)
      else if r.node !in m.toMosaic then (m1, Lost(UnknownNs3Node))
      else (m1, Forwarded(a.device == WIFI, m.toMosaic[r.node]))
  }

  // ---------- the invariant of every reachable state ----------

  // The two id maps are inverse to each other.
  ghost predicate InverseMaps(m: State) {
    && (forall id :: id in m.toNs3 ==> m.toNs3[id] in m.toMosaic && m.toMosaic[m.toNs3[id]] == id)
    && (forall n :: n in m.toMosaic ==> m.toMosaic[n] in m.toNs3 && m.toNs3[m.toMosaic[n]] == n)
  }

  // A node with a MOSAIC id is exactly one of radio or wired, and was built as such.
  ghost predicate Partition(m: State) {
    && (forall n :: n in m.toMosaic <==> n in m.radio || n in m.wired)
    && (forall n :: n in m.radio ==> n in m.nodes && m.nodes[n] == RadioNode)
    && (forall n :: n in m.wired ==> n in m.nodes && m.nodes[n] == WiredNode)
    && m.deactivated <= m.toMosaic.Keys
    && (forall n :: n in m.nodes ==> n < m.nextNode)
  }

  // The device that application `index` of a node of this kind is bound to.
  function DeviceOf(kind: NodeKind, index: nat): Option<Device> {
    match kind
    case RadioNode => if index == 0 then Some(WIFI) else if index == 1 then Some(CELL) else None
    case WiredNode => if index == 0 then Some(ETH) else None
    case ENodeB => None
  }

  // Each node has exactly the applications of its kind; an active one belongs to a node with a MOSAIC id.
  ghost predicate AppsInv(m: State) {
    && (forall n, i :: n in m.nodes && DeviceOf(m.nodes[n], i).Some? ==> AppRef(n, i) in m.apps)
    && (forall r :: r in m.apps ==>
          && r.node in m.nodes && DeviceOf(m.nodes[r.node], r.index) == Some(m.apps[r].device)
          && (m.apps[r].active ==> r.node in m.toMosaic))
  }

  // The used spare nodes are a prefix of the pool, one for each successful activation.
  ghost predicate PoolInv(m: State) {
    && |m.activations| <= |m.spare|
    && (forall i, j :: 0 <= i < j < |m.spare| ==> m.spare[i] != m.spare[j])
    && (forall i :: 0 <= i < |m.spare| ==> m.spare[i] in m.nodes && m.nodes[m.spare[i]] == RadioNode)
    && (forall i :: 0 <= i < |m.activations| ==>
          m.activations[i] in m.toNs3 && m.toNs3[m.activations[i]] == m.spare[i])
    && (forall i :: |m.activations| <= i < |m.spare| ==> m.spare[i] !in m.toMosaic)
  }

  ghost predicate Inv(m: State) {
    InverseMaps(m) && Partition(m) && AppsInv(m) && PoolInv(m)
  }
}
