// Every manager operation keeps its invariant; identity, the spare pool, removal and reception.
module ManagerTheory {
  import opened Wrappers
  import opened Types
  import opened Manager

  // ---------- every operation keeps the invariant ----------

  // A new Node object with the inactive applications of its kind.
  lemma NewNodeKeeps(m: State, m': State, kind: NodeKind)
    requires Inv(m)
    requires m' == m.(nodes := m.nodes[m.nextNode := kind], nextNode := m.nextNode + 1, apps := m'.apps, enbs := m'.enbs)
    requires forall r :: r in m.apps ==> r in m'.apps && m'.apps[r] == m.apps[r]
    requires forall r :: r in m'.apps && r !in m.apps ==>
               r.node == m.nextNode && DeviceOf(kind, r.index) == Some(m'.apps[r].device) && !m'.apps[r].active
    requires forall i :: DeviceOf(kind, i).Some? ==> AppRef(m.nextNode, i) in m'.apps
    ensures Inv(m') && m.nextNode !in m.toMosaic && m.nextNode !in m.spare
  {
    assert m.nextNode !in m.nodes;
    assert AppsInv(m');
    assert PoolInv(m');
  }

  lemma HelperKeeps(m: State)
    requires Inv(m)
    ensures Inv(CreateRadioNodeHelper(m)) && m.nextNode !in m.toMosaic && m.nextNode !in m.spare
  {
    NewNodeKeeps(m, CreateRadioNodeHelper(m), RadioNode);
  }

  lemma AddSpareKeeps(m: State)
    requires Inv(m)
    ensures Inv(CreateRadioNodeHelper(m).(spare := m.spare + [m.nextNode]))
  {
    HelperKeeps(m);
    var m1 := CreateRadioNodeHelper(m);
    var m' := m1.(spare := m.spare + [m.nextNode]);
    assert InverseMaps(m') && Partition(m') && AppsInv(m');
  }

  lemma {:induction false} MakeSparesKeeps(m: State, k: nat)
    requires Inv(m)
    ensures var m' := MakeSpares(m, k).0;
            && Inv(m') && |m'.spare| == |m.spare| + k && m'.activations == m.activations
            && m'.toNs3 == m.toNs3 && m'.toMosaic == m.toMosaic && m'.enbs == m.enbs && m'.deactivated == m.deactivated
            && m'.numExtra == m.numExtra
    decreases k
  {
    if k > 0 {
      MakeSparesKeeps(m, k - 1);
      AddSpareKeeps(MakeSpares(m, k - 1).0);
    }
  }

  // Giving node n the new MOSAIC id keeps the identity part; n is fresh or the next spare node.
  lemma RegisterKeeps(m: State, m': State, id: nat, n: nat)
    requires Inv(m) && id !in m.toNs3 && n in m.nodes && n !in m.toMosaic
    requires m'.toNs3 == m.toNs3[id := n] && m'.toMosaic == m.toMosaic[n := id]
    requires m'.nodes == m.nodes && m'.nextNode == m.nextNode && m'.apps == m.apps && m'.deactivated == m.deactivated
    requires m.nodes[n] == RadioNode ==> m'.radio == m.radio + {n} && m'.wired == m.wired
    requires m.nodes[n] == WiredNode ==> m'.wired == m.wired + {n} && m'.radio == m.radio
    requires m.nodes[n] != ENodeB && m'.spare == m.spare
    requires if n in m.spare
             then |m.activations| < |m.spare| && n == m.spare[|m.activations|] && m'.activations == m.activations + [id]
             else m'.activations == m.activations
    ensures Inv(m')
  {
    assert InverseMaps(m');
    assert Partition(m');
    assert AppsInv(m');
    assert PoolInv(m');
  }

  lemma CreateRadioKeeps(m: State, id: nat, pos: Vector)
    requires Inv(m)
    ensures Inv(Manager.CreateRadioNode(m, id, pos).m)
  {
    if id !in m.toNs3 {
      HelperKeeps(m);
      RegisterKeeps(CreateRadioNodeHelper(m), Manager.CreateRadioNode(m, id, pos).m, id, m.nextNode);
    }
  }

  lemma CreateWiredKeeps(m: State, id: nat)
    requires Inv(m)
    ensures Inv(Manager.CreateWiredNode(m, id).m)
  {
    if id !in m.toNs3 {
      var n := m.nextNode;
      var m1 := m.(nodes := m.nodes[n := WiredNode], nextNode := n + 1, apps := m.apps[AppRef(n, 0) := App(ETH, false, 0, 0)]);
      NewNodeKeeps(m, m1, WiredNode);
      RegisterKeeps(m1, Manager.CreateWiredNode(m, id).m, id, n);
    }
  }

  lemma CreateNodeBKeeps(m: State, pos: Vector)
    requires Inv(m)
    ensures Inv(Manager.CreateNodeB(m, pos).m)
  {
    NewNodeKeeps(m, Manager.CreateNodeB(m, pos).m, ENodeB);
  }

  // Activation takes the first unused spare node, which is the one right behind the used prefix.
  lemma FirstFreeIsNext(m: State)
    requires Inv(m)
    ensures FirstFree(m, 0) == |m.activations|
  {
    forall i | 0 <= i < |m.activations| ensures m.spare[i] in m.toMosaic {
      assert m.toNs3[m.activations[i]] == m.spare[i];
    }
    if |m.activations| < |m.spare| {
      assert m.spare[|m.activations|] !in m.toMosaic;
    }
  }

  lemma ActivateKeeps(m: State, id: nat, pos: Vector)
    requires Inv(m)
    ensures Inv(Manager.ActivateRadioNode(m, id, pos).m)
  {
    FirstFreeIsNext(m);
    if id !in m.toNs3 && |m.activations| < |m.spare| {
      RegisterKeeps(m, Manager.ActivateRadioNode(m, id, pos).m, id, m.spare[|m.activations|]);
    }
  }

  // The other commands touch only flags: of nodes with a MOSAIC id.
  lemma FlagsKeep(m: State, m': State)
    requires Inv(m)
    requires m' == m.(apps := m'.apps, deactivated := m'.deactivated, wifiConfigured := m'.wifiConfigured,
                      cellConfigured := m'.cellConfigured)
    requires m'.apps.Keys == m.apps.Keys && m'.deactivated <= m.toMosaic.Keys
    requires forall r :: r in m.apps ==>
               m'.apps[r].device == m.apps[r].device && (m'.apps[r].active ==> r.node in m.toMosaic)
    ensures Inv(m')
  {
    assert AppsInv(m');
    assert PoolInv(m');
  }

  lemma CommandKeeps(m: State, c: Call)
    requires Inv(m)
    requires c.UpdateNodePosition? || c.RemoveNode? || c.ConfigureWifiRadio? || c.ConfigureCellRadio?
             || c.SendWifiMsg? || c.SendCellMsg?
    ensures Inv(Apply(m, c).m)
  {
    if c.id in m.toNs3 {
      SoundNode(m, c.id);
      CommandTouchesFlags(m, c);
      FlagsKeep(m, Apply(m, c).m);
    }
  }

  // What the invariant says about the node behind a MOSAIC id.
  ghost predicate Sound(m: State, id: nat) {
    && id in m.toNs3
    && var n := m.toNs3[id];
    && n in m.toMosaic && n in m.nodes && n < m.nextNode
    && (n in m.radio <==> m.nodes[n] == RadioNode) && (n in m.wired <==> m.nodes[n] == WiredNode)
    && (n in m.radio <==> n !in m.wired)
    && AppRef(n, 0) in m.apps && (n in m.radio <==> AppRef(n, 1) in m.apps)
  }

  lemma SoundNode(m: State, id: nat)
    requires Inv(m) && id in m.toNs3
    ensures Sound(m, id)
  {
    var n := m.toNs3[id];
    assert DeviceOf(RadioNode, 0).Some? && DeviceOf(RadioNode, 1).Some? && DeviceOf(WiredNode, 0).Some?;
  }

  lemma CommandTouchesFlags(m: State, c: Call)
    requires c.UpdateNodePosition? || c.RemoveNode? || c.ConfigureWifiRadio? || c.ConfigureCellRadio?
             || c.SendWifiMsg? || c.SendCellMsg?
    requires Sound(m, c.id) && m.deactivated <= m.toMosaic.Keys
    requires forall r :: r in m.apps ==> m.apps[r].active ==> r.node in m.toMosaic
    ensures var m' := Apply(m, c).m;
      && m' == m.(apps := m'.apps, deactivated := m'.deactivated, wifiConfigured := m'.wifiConfigured,
                  cellConfigured := m'.cellConfigured)
      && m'.apps.Keys == m.apps.Keys && m.deactivated <= m'.deactivated <= m.toMosaic.Keys
      && forall r :: r in m.apps ==>
           m'.apps[r].device == m.apps[r].device && m'.apps[r].recvCount == m.apps[r].recvCount
           && (m'.apps[r].active ==> r.node in m.toMosaic)
  {
    hide Manager.CreateRadioNode, Manager.CreateWiredNode, Manager.CreateNodeB, Manager.ActivateRadioNode;
  }

  lemma ApplyKeeps(m: State, c: Call)
    requires Inv(m)
    ensures Inv(Apply(m, c).m)
  {
    match c
    case CreateRadioNode(id, pos) => CreateRadioKeeps(m, id, pos);
    case CreateWiredNode(id) => CreateWiredKeeps(m, id);
    case CreateNodeB(pos) => CreateNodeBKeeps(m, pos);
    case ActivateRadioNode(id, pos) => ActivateKeeps(m, id, pos);
    case _ => CommandKeeps(m, c);
  }

  // The manager's own exits are never those of the kernel's assertions, of SendTo, or of a reception.
  lemma ManagerReasons(m: State, c: Call)
    ensures var v := Apply(m, c).verdict;
            v.Exit? ==> v.why !in {ClockAssertion, NegativeTime, SendFailed, UnknownNs3Node}
  {
  }

  // A node keeps the MOSAIC id it has.
  lemma MapsGrow(m: State, c: Call)
    requires m.nextNode !in m.toMosaic
    ensures var m' := Apply(m, c).m;
            && (forall n :: n in m.toMosaic ==> n in m'.toMosaic && m'.toMosaic[n] == m.toMosaic[n])
            && (forall id :: id in m.toNs3 ==> id in m'.toNs3 && m'.toNs3[id] == m.toNs3[id])
  {
    if !Creates(c) && !c.CreateNodeB? {
      CommandKeepsMaps(m, c);
    }
  }

  lemma MapsSameForNodeB(m: State, c: Call)
    requires c.CreateNodeB?
    ensures Apply(m, c).m.toNs3 == m.toNs3 && Apply(m, c).verdict == Fine
  {
  }

  // The pool is filled in OnStart only, and only activations use it up.
  lemma PoolSizeKept(m: State, c: Call)
    ensures var m' := Apply(m, c).m;
            && m'.spare == m.spare && m'.numExtra == m.numExtra
            && (!c.ActivateRadioNode? ==> m'.activations == m.activations)
  {
    if c.ConfigureCellRadio? {
      CellConfigurationKeepsMaps(m, c.id, c.ip);
    }
    hide Manager.ConfigureCellRadio;
  }

  lemma CommandKeepsMaps(m: State, c: Call)
    requires !Creates(c) && !c.CreateNodeB?
    ensures Apply(m, c).m.toMosaic == m.toMosaic && Apply(m, c).m.toNs3 == m.toNs3
  {
    hide Manager.CreateRadioNode, Manager.CreateWiredNode, Manager.CreateNodeB, Manager.ActivateRadioNode;
    if c.ConfigureCellRadio? {
      CellConfigurationKeepsMaps(m, c.id, c.ip);
    }
    hide Manager.ConfigureCellRadio;
  }

  lemma CellConfigurationKeepsMaps(m: State, id: nat, ip: Ipv4)
    ensures var m' := Manager.ConfigureCellRadio(m, id, ip).m;
            && m'.toMosaic == m.toMosaic && m'.toNs3 == m.toNs3
            && m'.spare == m.spare && m'.numExtra == m.numExtra && m'.activations == m.activations
  {
  }

  predicate Creates(c: Call) {
    c.CreateRadioNode? || c.CreateWiredNode? || c.ActivateRadioNode?
  }

  // The addresses that the routes of the PGW serve.
  predicate AcceptedAddress(isRadio: bool, ip: Ipv4) {
    PartOf10(ip) && (if isRadio then !PartOf105(ip) && !PartOf106(ip) else PartOf105(ip) || PartOf106(ip))
  }

  // The node is known and takes commands.
  predicate Alive(m: State, id: nat) {
    id in m.toNs3 && m.toNs3[id] !in m.deactivated
  }

  // The exits a command can reach, and exactly when, in any reachable state.
  lemma ExitConditions(m: State, c: Call)
    requires Inv(m)
    ensures var v := Apply(m, c).verdict;
      && (v.Exit? ==> v.why in {UnknownId, DuplicateId, PoolExhausted, NullMobility, BadChannel, WifiOnWired, BadAddress})
      && (v == Exit(UnknownId) <==> !Creates(c) && !c.CreateNodeB? && c.id !in m.toNs3)
      && (v == Exit(DuplicateId) <==> Creates(c) && c.id in m.toNs3)
      && (v == Exit(PoolExhausted) <==>
            c.ActivateRadioNode? && c.id !in m.toNs3 && |m.activations| == |m.spare|)
      && (v == Exit(NullMobility) <==> c.UpdateNodePosition? && Alive(m, c.id) && m.toNs3[c.id] in m.wired)
      && (v == Exit(BadChannel) <==> c.SendWifiMsg? && Alive(m, c.id) && c.channel != PROTO_CCH)
      && (v == Exit(WifiOnWired) <==>
            (c.ConfigureWifiRadio? || (c.SendWifiMsg? && c.channel == PROTO_CCH))
            && Alive(m, c.id) && m.toNs3[c.id] in m.wired && (c.ConfigureWifiRadio? ==> m.toNs3[c.id] !in m.wifiConfigured))
      && (v == Exit(BadAddress) <==>
            c.ConfigureCellRadio? && Alive(m, c.id) && m.toNs3[c.id] !in m.cellConfigured
            && !AcceptedAddress(m.toNs3[c.id] in m.radio, c.ip))
  {
    hide Inv, Apply;
    if Creates(c) {
      CreationExits(m, c);
    } else if !c.CreateNodeB? && c.id in m.toNs3 {
      SoundNode(m, c.id);
      CommandExits(m, c);
    } else {
      OtherExits(m, c);
    }
  }

  // The node that a creating call enters is new to the tables, and radio unless the call makes a wired one.
  lemma NewIdKind(m: State, c: Call)
    requires Inv(m) && Creates(c) && Apply(m, c).verdict == Fine
    ensures var m' := Apply(m, c).m;
      && c.id in m'.toNs3 && m'.toNs3 == m.toNs3[c.id := m'.toNs3[c.id]]
      && m'.toNs3[c.id] !in m.toMosaic && m'.toNs3[c.id] !in m.radio
      && m'.radio == m.radio + if c.CreateWiredNode? then {} else {m'.toNs3[c.id]}
  {
    IdentityFacts(m);
    if c.ActivateRadioNode? {
      FirstFreeIsNext(m);
    }
  }

  lemma OtherExits(m: State, c: Call)
    requires !Creates(c) && (c.CreateNodeB? || c.id !in m.toNs3)
    ensures Apply(m, c).verdict == if c.CreateNodeB? then Fine else Exit(UnknownId)
  {
  }

  lemma CommandExits(m: State, c: Call)
    requires !Creates(c) && !c.CreateNodeB? && Sound(m, c.id)
    ensures var v := Apply(m, c).verdict;
      && (v.Exit? ==> v.why in {NullMobility, WifiOnWired, BadChannel, BadAddress})
      && (v == Exit(NullMobility) <==> c.UpdateNodePosition? && Alive(m, c.id) && m.toNs3[c.id] in m.wired)
      && (v == Exit(BadChannel) <==> c.SendWifiMsg? && Alive(m, c.id) && c.channel != PROTO_CCH)
      && (v == Exit(WifiOnWired) <==>
            (c.ConfigureWifiRadio? || (c.SendWifiMsg? && c.channel == PROTO_CCH))
            && Alive(m, c.id) && m.toNs3[c.id] in m.wired && (c.ConfigureWifiRadio? ==> m.toNs3[c.id] !in m.wifiConfigured))
      && (v == Exit(BadAddress) <==>
            c.ConfigureCellRadio? && Alive(m, c.id) && m.toNs3[c.id] !in m.cellConfigured
            && !AcceptedAddress(m.toNs3[c.id] in m.radio, c.ip))
  {
    hide Manager.CreateRadioNode, Manager.CreateWiredNode, Manager.CreateNodeB, Manager.ActivateRadioNode;
  }

  lemma CreationExits(m: State, c: Call)
    requires Inv(m) && Creates(c)
    ensures var o := Apply(m, c);
      && (o.verdict == Exit(DuplicateId) <==> c.id in m.toNs3)
      && (o.verdict == Exit(PoolExhausted) <==>
            c.ActivateRadioNode? && c.id !in m.toNs3 && |m.activations| == |m.spare|)
      && (o.verdict == Fine || o.verdict == Exit(DuplicateId) || o.verdict == Exit(PoolExhausted))
      && (o.verdict == Fine ==> o.m.toNs3.Keys == m.toNs3.Keys + {c.id})
      && (o.verdict == Fine ==> o.m.activations == m.activations + if c.ActivateRadioNode? then [c.id] else [])
  {
    if c.ActivateRadioNode? {
      FirstFreeIsNext(m);
      if |m.activations| < |m.spare| {
        assert m.spare[|m.activations|] !in m.deactivated;
      }
      ActivationExits(m, c.id, c.pos);
    } else {
      assert m.nextNode !in m.deactivated;
      MakingExits(m, c);
    }
  }

  lemma ActivationExits(m: State, id: nat, pos: Vector)
    requires var i := FirstFree(m, 0);
             && i == |m.activations| <= |m.spare|
             && (i < |m.spare| ==> m.spare[i] !in m.deactivated && m.spare[i] in m.nodes && m.nodes[m.spare[i]] == RadioNode)
    ensures var o := Manager.ActivateRadioNode(m, id, pos);
      && (o.verdict == Exit(DuplicateId) <==> id in m.toNs3)
      && (o.verdict == Exit(PoolExhausted) <==> id !in m.toNs3 && |m.activations| == |m.spare|)
      && (o.verdict == Fine || o.verdict == Exit(DuplicateId) || o.verdict == Exit(PoolExhausted))
      && (o.verdict == Fine ==> o.m.toNs3.Keys == m.toNs3.Keys + {id} && o.m.activations == m.activations + [id])
  {
  }

  lemma MakingExits(m: State, c: Call)
    requires (c.CreateRadioNode? || c.CreateWiredNode?) && m.nextNode !in m.deactivated
    ensures var o := Apply(m, c);
      && (o.verdict == if c.id in m.toNs3 then Exit(DuplicateId) else Fine)
      && (o.verdict == Fine ==> o.m.toNs3.Keys == m.toNs3.Keys + {c.id} && o.m.activations == m.activations)
  {
  }

  // ---------- reception ----------

  // A packet never reaches the exit of GetMosaicNodeId, and a forwarded one carries the receiver's own id.
  lemma ReceptionNeverAborts(m: State, r: AppRef)
    requires Inv(m)
    ensures var (m', d) := Receive(m, r);
      && Inv(m') && !d.Lost?
      && (d.Forwarded? ==> d.id in m.toNs3 && m.toNs3[d.id] == r.node && r.node !in m.deactivated)
      && (d.Forwarded? && d.wifi ==> r.node in m.radio)
  {
    if r in m.apps && m.apps[r].active {
      FlagsKeep(m, Receive(m, r).0);
    }
  }

  lemma ReceiverHasItsId(m: State, r: AppRef)
    ensures var (m', d) := Receive(m, r);
      && (d.Forwarded? ==> r.node in m.toMosaic && d.id == m.toMosaic[r.node])
      && m'.toMosaic == m.toMosaic && m'.deactivated == m.deactivated
  {
  }

  lemma IdentityFacts(m: State)
    requires Inv(m)
    ensures m.nextNode !in m.toMosaic && m.nextNode !in m.nodes
    ensures forall n :: n in m.toMosaic ==> m.toMosaic[n] in m.toNs3 && m.toNs3[m.toMosaic[n]] == n
  {
  }

  // ---------- removal ----------

  ghost predicate About(e: Effect, n: nat) {
    match e
    case Positioned(x, _) => x == n
    case WifiOff(x) => x == n
    case TxPower(x, _) => x == n
    case AddressAdded(x, _, _, _) => x == n
    case Attached(x) => x == n
    case DefaultRoute(x, _) => x == n
    case Sent(x, _, _, _, _) => x == n
    case _ => false
  }

  lemma CommandLeavesOthers(m: State, c: Call, n: nat)
    requires !Creates(c) && !c.CreateNodeB? && Sound(m, c.id)
    requires m.toNs3[c.id] == n ==> n in m.deactivated
    ensures forall e :: e in Apply(m, c).effects ==> !About(e, n)
    ensures n in m.deactivated ==> n in Apply(m, c).m.deactivated
  {
    hide Manager.CreateRadioNode, Manager.CreateWiredNode, Manager.CreateNodeB, Manager.ActivateRadioNode;
  }

  // Nothing moves, configures or transmits from a deactivated node, and it stays deactivated.
  lemma DeactivatedIsUntouched(m: State, c: Call, n: nat)
    requires Inv(m) && n in m.deactivated
    ensures n in Apply(m, c).m.deactivated
    ensures forall e :: e in Apply(m, c).effects ==> !About(e, n)
  {
    if Creates(c) {
      FirstFreeIsNext(m);
      if c.ActivateRadioNode? && |m.activations| < |m.spare| {
        assert m.spare[|m.activations|] !in m.toMosaic;
      }
    } else if !c.CreateNodeB? && c.id in m.toNs3 {
      SoundNode(m, c.id);
      CommandLeavesOthers(m, c, n);
    }
  }

  lemma {:induction false} SparesAreNobody(m: State, k: nat, n: nat)
    ensures forall e :: e in MakeSpares(m, k).1 ==> !About(e, n)
    decreases k
  {
    if k > 0 {
      SparesAreNobody(m, k - 1, n);
    }
  }

  // The disable loop fetches application 0 on every round. It therefore switches off all applications of the
  // node exactly when the node is wired or its cell application was off already.
  lemma RemovalDisablesAllAppsIff(m: State, id: nat)
    requires Inv(m) && id in m.toNs3 && m.toNs3[id] !in m.deactivated
    ensures var n := m.toNs3[id];
            var m' := Manager.RemoveNode(m, id).m;
            (forall i :: AppRef(n, i) in m'.apps && i <= 1 ==> !m'.apps[AppRef(n, i)].active)
            <==> AppRef(n, 1) !in m.apps || !m.apps[AppRef(n, 1)].active
  {
    var n := m.toNs3[id];
    var m' := Manager.RemoveNode(m, id).m;
    assert n in m.toMosaic;
    assert AppRef(n, 0) in m'.apps && !m'.apps[AppRef(n, 0)].active;
    assert AppRef(n, 1) in m.apps <==> AppRef(n, 1) in m'.apps;
  }

  // The gate that does hold: after RemoveNode neither application forwards anything.
  lemma RemovalSilencesTheNode(m: State, id: nat, i: nat)
    requires Inv(m) && id in m.toNs3
    ensures Manager.RemoveNode(m, id).verdict == Fine
    ensures var n := m.toNs3[id];
            n in Manager.RemoveNode(m, id).m.deactivated
            && Receive(Manager.RemoveNode(m, id).m, AppRef(n, i)).1 == Ignored
  {
    assert m.toNs3[id] in m.toMosaic;
  }
}
