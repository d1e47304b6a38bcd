// What each manager call makes ns-3 do, and the lists of nodes it keeps.
module ManagerEffects {
  import opened Types
  import opened Manager
  import opened ManagerTheory

  // ---------- commands on an existing node ----------

  // A position update moves the radio node it names, unless that is deactivated, and changes nothing else.
  lemma PositionUpdateMoves(m: State, id: nat, pos: Vector)
    requires Inv(m) && id in m.toNs3 && m.toNs3[id] in m.radio
    ensures Apply(m, UpdateNodePosition(id, pos))
            == Outcome(m, if Alive(m, id) then [Positioned(m.toNs3[id], pos)] else [], Fine)
  {
    SoundNode(m, id);
  }

  // A call for a deactivated node has no effect and ends nothing; nor has a second configuration for a medium.
  lemma NothingToDo(m: State, c: Call)
    requires Inv(m) && !Creates(c) && !c.CreateNodeB? && c.id in m.toNs3
    requires !Alive(m, c.id)
             || (c.ConfigureWifiRadio? && m.toNs3[c.id] in m.wifiConfigured)
             || (c.ConfigureCellRadio? && m.toNs3[c.id] in m.cellConfigured)
    ensures Apply(m, c) == Outcome(m, [], Fine)
  {
    hide Inv, Manager.CreateRadioNode, Manager.CreateWiredNode, Manager.CreateNodeB, Manager.ActivateRadioNode;
  }

  // The first Wi-Fi configuration of a radio node sets the power, unless it is -1 or less, and adds the address to the
  // Wi-Fi device; from then on the node is configured and its application 0 is on.
  lemma WifiConfigurationTakesEffect(m: State, id: nat, power: real, ip: Ipv4)
    requires Inv(m) && Alive(m, id) && m.toNs3[id] in m.radio && m.toNs3[id] !in m.wifiConfigured
    ensures var n, o := m.toNs3[id], Apply(m, ConfigureWifiRadio(id, power, ip));
      && o.effects == (if power > -1.0 then [TxPower(n, power), AddressAdded(n, 1, ip, 8)] else [AddressAdded(n, 1, ip, 8)])
      && o.verdict == Fine && AppRef(n, 0) in m.apps
      && o.m == m.(wifiConfigured := m.wifiConfigured + {n}, apps := m.apps[AppRef(n, 0) := m.apps[AppRef(n, 0)].(active := true)])
  {
    SoundNode(m, id);
    hide Inv;
  }

  // The first cell configuration with an accepted address: a radio node gets the address on its LTE device and is
  // attached; a wired node gets it on its CSMA device, with the PGW as default route.
  lemma CellConfigurationTakesEffect(m: State, id: nat, ip: Ipv4)
    requires Inv(m) && Alive(m, id) && m.toNs3[id] !in m.cellConfigured && AcceptedAddress(m.toNs3[id] in m.radio, ip)
    ensures var n, o := m.toNs3[id], Apply(m, ConfigureCellRadio(id, ip));
            var app := AppRef(n, if n in m.radio then 1 else 0);
      && o.effects == (if n in m.radio then [AddressAdded(n, 2, ip, 8), Attached(n)]
                       else [AddressAdded(n, 1, ip, 16), DefaultRoute(n, GATEWAY)])
      && o.verdict == Fine && app in m.apps
      && o.m == m.(cellConfigured := m.cellConfigured + {n}, apps := m.apps[app := m.apps[app].(active := true)])
  {
    SoundNode(m, id);
    hide Inv;
  }

  // Removal switches the Wi-Fi device of a radio node off, and deactivates the node.
  lemma RemovalSwitchesOff(m: State, id: nat)
    requires Inv(m) && Alive(m, id)
    ensures var n, o := m.toNs3[id], Apply(m, RemoveNode(id));
      && o.effects == (if n in m.radio then [WifiOff(n)] else [])
      && o.verdict == Fine && AppRef(n, 0) in m.apps
      && o.m == m.(deactivated := m.deactivated + {n}, apps := m.apps[AppRef(n, 0) := m.apps[AppRef(n, 0)].(active := false)])
  {
    SoundNode(m, id);
    hide Inv;
  }

  // ---------- creation ----------

  // A new radio node is made and placed; an activated one is only placed; a wired one is only made.
  lemma CreationPlacesTheNode(m: State, c: Call)
    requires Inv(m) && Creates(c) && Apply(m, c).verdict == Fine
    ensures var o := Apply(m, c);
      && c.id in o.m.toNs3
      && var n := o.m.toNs3[c.id];
      && n !in m.toMosaic
      && (c.CreateRadioNode? ==>
            n !in m.nodes && o.m.nodes == m.nodes[n := RadioNode]
            && o.effects == [NodeMade(n, RadioNode), Positioned(n, c.pos)])
      && (c.CreateWiredNode? ==>
            n !in m.nodes && o.m.nodes == m.nodes[n := WiredNode] && o.effects == [NodeMade(n, WiredNode)])
      && (c.ActivateRadioNode? ==>
            |m.activations| < |m.spare| && n == m.spare[|m.activations|] && o.m.nodes == m.nodes
            && o.effects == [Positioned(n, c.pos)])
  {
    IdentityFacts(m);
    NoDeactivatedStrangers(m);
    if c.ActivateRadioNode? {
      FirstFreeIsNext(m);
      SpareNodes(m);
    }
    hide Inv;
  }

  lemma NoDeactivatedStrangers(m: State)
    requires Inv(m)
    ensures forall n :: n in m.deactivated ==> n in m.toMosaic
  {
  }

  lemma SpareNodes(m: State)
    requires Inv(m)
    ensures forall i :: 0 <= i < |m.spare| ==> m.spare[i] in m.nodes && m.nodes[m.spare[i]] == RadioNode
    ensures forall i :: |m.activations| <= i < |m.spare| ==> m.spare[i] !in m.toMosaic
  {
  }

  // A new eNB is made, placed and entered as the last of the eNBs.
  lemma NodeBIsEntered(m: State, pos: Vector)
    requires Inv(m)
    ensures var n, o := m.nextNode, Apply(m, Call.CreateNodeB(pos));
      && n !in m.nodes && o.m.nodes == m.nodes[n := ENodeB] && o.m.enbs == m.enbs + [n]
      && o.effects == [NodeMade(n, ENodeB), Positioned(n, pos)] && o.verdict == Fine
  {
    IdentityFacts(m);
  }

  // ---------- the lists of nodes ----------

  ghost predicate Lists(s: seq<nat>, t: set<nat>) {
    (forall i, j :: 0 <= i < j < |s| ==> s[i] != s[j]) && forall n :: n in s <==> n in t
  }

  ghost function OfKind(m: State, kind: NodeKind): set<nat> {
    set n | n in m.nodes && m.nodes[n] == kind
  }

  // m_enbNodes lists the eNBs made so far, m_radioNodes the radio nodes with a MOSAIC id, each once; the other radio
  // nodes are spare ones.
  ghost predicate ListsInv(m: State) {
    && Lists(m.enbs, OfKind(m, ENodeB)) && Lists(m.radioNodes, m.radio)
    && forall n :: n in OfKind(m, RadioNode) ==> n in m.radio || n in m.spare
  }

  lemma ListsMore(s: seq<nat>, t: set<nat>, n: nat)
    requires Lists(s, t) && n !in t
    ensures Lists(s + [n], t + {n})
  {
    forall i | 0 <= i < |s| ensures s[i] != n {
      assert s[i] in s;
    }
  }

  lemma KindOfMore(m: State, m': State, n: nat, kind: NodeKind)
    requires n !in m.nodes && m'.nodes == m.nodes[n := kind]
    ensures forall k :: OfKind(m', k) == OfKind(m, k) + if k == kind then {n} else {}
  {
  }

  lemma CreationKeepsLists(m: State, c: Call)
    requires Inv(m) && ListsInv(m) && Creates(c) && Apply(m, c).verdict == Fine
    ensures ListsInv(Apply(m, c).m)
  {
    CreationPlacesTheNode(m, c);
    NewIdKind(m, c);
    CreationOfLists(m, c);
    hide Inv, Apply, Lists;
    var m' := Apply(m, c).m;
    var n := m'.toNs3[c.id];
    if !c.ActivateRadioNode? {
      KindOfMore(m, m', n, if c.CreateRadioNode? then RadioNode else WiredNode);
    }
    if !c.CreateWiredNode? {
      ListsMore(m.radioNodes, m.radio, n);
    }
  }

  lemma CreationOfLists(m: State, c: Call)
    requires Inv(m) && Creates(c) && Apply(m, c).verdict == Fine
    ensures var m' := Apply(m, c).m;
      && m'.enbs == m.enbs && m'.spare == m.spare
      && c.id in m'.toNs3 && m'.radioNodes == m.radioNodes + if c.CreateWiredNode? then [] else [m'.toNs3[c.id]]
  {
    if c.ActivateRadioNode? {
      FirstFreeIsNext(m);
    }
    hide Inv;
  }

  lemma FailedCreation(m: State, c: Call)
    requires Inv(m) && Creates(c) && Apply(m, c).verdict != Fine
    ensures Apply(m, c) == Outcome(m, [], Apply(m, c).verdict)
  {
    CreationExits(m, c);
    if c.ActivateRadioNode? {
      FirstFreeIsNext(m);
    }
    hide Inv;
  }

  lemma CommandKeepsLists(m: State, c: Call)
    requires !Creates(c) && !c.CreateNodeB?
    ensures var m' := Apply(m, c).m;
      && m'.nodes == m.nodes && m'.enbs == m.enbs && m'.radioNodes == m.radioNodes && m'.radio == m.radio
      && m'.spare == m.spare
  {
    if c.ConfigureCellRadio? {
      CellKeepsLists(m, c.id, c.ip);
    }
    hide Manager.CreateRadioNode, Manager.CreateWiredNode, Manager.CreateNodeB, Manager.ActivateRadioNode,
         Manager.ConfigureCellRadio;
  }

  lemma SetActiveKeepsRest(m: State, r: AppRef, on: bool)
    requires r in m.apps
    ensures SetActive(m, r, on) == m.(apps := SetActive(m, r, on).apps)
  {
  }

  lemma CellKeepsLists(m: State, id: nat, ip: Ipv4)
    ensures var m' := Manager.ConfigureCellRadio(m, id, ip).m;
      && m'.nodes == m.nodes && m'.enbs == m.enbs && m'.radioNodes == m.radioNodes && m'.radio == m.radio
      && m'.spare == m.spare
  {
    hide SetActive;
    if id in m.toNs3 {
      var n := m.toNs3[id];
      var m1 := m.(cellConfigured := m.cellConfigured + {n});
      if AppRef(n, 0) in m.apps { SetActiveKeepsRest(m1, AppRef(n, 0), true); }
      if AppRef(n, 1) in m.apps { SetActiveKeepsRest(m1, AppRef(n, 1), true); }
    }
  }

  lemma CallKeepsLists(m: State, c: Call)
    requires Inv(m) && ListsInv(m)
    ensures ListsInv(Apply(m, c).m)
  {
    if Creates(c) {
      if Apply(m, c).verdict == Fine {
        CreationKeepsLists(m, c);
      } else {
        FailedCreation(m, c);
      }
    } else if c.CreateNodeB? {
      NodeBIsEntered(m, c.pos);
      KindOfMore(m, Apply(m, c).m, m.nextNode, ENodeB);
      ListsMore(m.enbs, OfKind(m, ENodeB), m.nextNode);
    } else {
      CommandKeepsLists(m, c);
    }
    hide Inv, Apply, Lists;
  }

  // OnStart makes the spare radio nodes one after another, and tells ns-3 of each.
  lemma {:induction false} SparesAreMade(m: State, k: nat)
    requires Inv(m)
    ensures var (m', es) := MakeSpares(m, k);
      && |m'.spare| == |m.spare| + k && m'.spare[..|m.spare|] == m.spare && |es| == k
      && (forall i :: 0 <= i < k ==> es[i] == NodeMade(m'.spare[|m.spare| + i], RadioNode))
      && m'.enbs == m.enbs && m'.radioNodes == m.radioNodes && m'.radio == m.radio
      && (forall n :: n in m'.nodes && n !in m.nodes ==> m'.nodes[n] == RadioNode && n in m'.spare)
      && (forall n :: n in m.nodes ==> n in m'.nodes && m'.nodes[n] == m.nodes[n])
      && (forall i :: |m.spare| <= i < |m'.spare| ==> m'.spare[i] !in m.nodes)
    decreases k
  {
    hide Inv;
    if k > 0 {
      SparesAreMade(m, k - 1);
      MakeSparesKeeps(m, k - 1);
      IdentityFacts(MakeSpares(m, k - 1).0);
    }
  }

  lemma LaunchKeepsLists(m: State)
    requires Inv(m) && ListsInv(m)
    ensures ListsInv(OnStart(m).m)
  {
    hide Inv, MakeSpares;
    SparesAreMade(m, m.numExtra);
    var m' := OnStart(m).m;
    assert OfKind(m', ENodeB) == OfKind(m, ENodeB);
    assert forall n :: n in m.spare ==> n in m'.spare by {
      forall n | n in m.spare ensures n in m'.spare {
        var i :| 0 <= i < |m.spare| && m.spare[i] == n;
        assert m'.spare[..|m.spare|][i] == n;
      }
    }
  }
}
