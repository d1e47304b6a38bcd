// What ns-3 was told and what MOSAIC was told agree with the manager's tables, at every moment of a run: nothing is done
// twice, nothing is left out.
module Ledger {
  import opened Types
  import opened Federation
  import opened Steps
  import opened Walks
  import Bridge
  import Gates
  import Kernel
  import Manager
  import ManagerTheory
  import ManagerEffects
  import ManagerRuns

  // ---------- what ns-3 was told ----------

  // The effects that count: a node made, configured for Wi-Fi or cell, switched off, a message handed to a socket.
  datatype Mark =
    | Made(node: nat, kind: Manager.NodeKind)
    | WifiSet(node: nat)
    | CellSet(node: nat)
    | Off(node: nat)
    | Transmitted(app: Manager.AppRef)

  function MarkOf(e: Manager.Effect): multiset<Mark> {
    match e
    case NodeMade(n, kind) => multiset{Made(n, kind)}
    case AddressAdded(n, device, _, prefix) => if device == 1 && prefix == 8 then multiset{WifiSet(n)} else multiset{}
    case Attached(n) => multiset{CellSet(n)}
    case DefaultRoute(n, _) => multiset{CellSet(n)}
    case WifiOff(n) => multiset{Off(n)}
    case Sent(n, app, _, _, _) => multiset{Transmitted(Manager.AppRef(n, app))}
    case _ => multiset{}
  }

  function MarksIn(effects: seq<Manager.Effect>): multiset<Mark> {
    if effects == [] then multiset{} else MarksIn(effects[..|effects| - 1]) + MarkOf(effects[|effects| - 1])
  }

  function Marks(history: seq<Stimulus>): multiset<Mark> {
    if history == [] then multiset{}
    else Marks(history[..|history| - 1]) + MarksIn(history[|history| - 1].effects)
  }

  // Each node was made once, as what it is; configured once per medium if the tables say so; switched off once if it is a
  // removed radio node; and each application has transmitted as often as it has counted, in 16 bits.
  predicate Entry(m: Manager.State, marks: multiset<Mark>, k: Mark) {
    match k
    case Made(n, kind) => marks[k] == if n in m.nodes && m.nodes[n] == kind then 1 else 0
    case WifiSet(n) => marks[k] == if n in m.wifiConfigured then 1 else 0
    case CellSet(n) => marks[k] == if n in m.cellConfigured then 1 else 0
    case Off(n) => marks[k] == if n in m.deactivated && n in m.radio then 1 else 0
    case Transmitted(r) =>
      if r in m.apps then m.apps[r].sendCount == marks[k] % 0x1_0000 else marks[k] == 0
  }

  ghost predicate Balanced(m: Manager.State, marks: multiset<Mark>) {
    forall k :: Entry(m, marks, k)
  }

  lemma MarksOfNone()
    ensures MarksIn([]) == multiset{}
  {
  }

  lemma MarksOfOne(e: Manager.Effect)
    ensures MarksIn([e]) == MarkOf(e)
  {
    assert [e][..0] == [];
  }

  lemma MarksOfTwo(e: Manager.Effect, f: Manager.Effect)
    ensures MarksIn([e, f]) == MarkOf(e) + MarkOf(f)
  {
    assert [e, f][..1] == [e];
    MarksOfOne(e);
  }

  lemma MarksOfMore(es: seq<Manager.Effect>, e: Manager.Effect)
    ensures MarksIn(es + [e]) == MarksIn(es) + MarkOf(e)
  {
    assert (es + [e])[..|es|] == es;
  }

  lemma {:induction false} MarksOfAll(e: Manager.Effect, es: seq<Manager.Effect>)
    ensures MarksIn([e] + es) == MarkOf(e) + MarksIn(es)
  {
    if es == [] {
      assert [e] + es == [e];
      MarksOfOne(e);
    } else {
      assert ([e] + es)[..|es|] == [e] + es[..|es| - 1];
      MarksOfAll(e, es[..|es| - 1]);
    }
  }

  lemma MarksAfter(h: seq<Stimulus>, s: Stimulus)
    ensures Marks(h + [s]) == Marks(h) + MarksIn(s.effects)
  {
    assert (h + [s])[..|h|] == h;
  }

  // ---------- each call keeps the balance ----------

  ghost predicate AppsGrow(m: Manager.State, m': Manager.State) {
    && (forall r :: r in m.apps ==> r in m'.apps && m'.apps[r] == m.apps[r])
    && (forall r :: r in m'.apps && r !in m.apps ==> m'.apps[r].sendCount == 0 && m'.apps[r].recvCount == 0)
    && m'.wifiConfigured == m.wifiConfigured && m'.cellConfigured == m.cellConfigured && m'.deactivated == m.deactivated
  }

  lemma PlacingKeepsTables(m: Manager.State, id: nat, pos: Vector)
    ensures Manager.UpdateNodePosition(m, id, pos).m == m
  {
  }

  lemma ActivationApps(m: Manager.State, id: nat, pos: Vector)
    ensures AppsGrow(m, Manager.ActivateRadioNode(m, id, pos).m)
  {
  }

  lemma RadioApps(m: Manager.State, id: nat, pos: Vector)
    requires forall r :: r in m.apps ==> r.node < m.nextNode
    ensures AppsGrow(m, Manager.CreateRadioNode(m, id, pos).m)
  {
    hide Manager.UpdateNodePosition;
    var n := m.nextNode;
    PlacingKeepsTables(Manager.Register(Manager.CreateRadioNodeHelper(m), id, n).(
      radio := m.radio + {n}, radioNodes := m.radioNodes + [n]), id, pos);
  }

  lemma CreationApps(m: Manager.State, c: Call)
    requires Manager.Inv(m) && ManagerTheory.Creates(c) && Manager.Apply(m, c).verdict == Manager.Fine
    ensures AppsGrow(m, Manager.Apply(m, c).m)
  {
    hide Manager.Inv;
    Gates.NoAppsAhead(m);
    match c
    case CreateRadioNode(id, pos) => RadioApps(m, id, pos);
    case CreateWiredNode(id) =>
    case ActivateRadioNode(id, pos) => ActivationApps(m, id, pos);
    hide Manager.CreateRadioNode, Manager.ActivateRadioNode;
  }

  // The tables after some nodes have become radio nodes with an id, and perhaps a node n was made.
  ghost predicate Grown(m: Manager.State, m': Manager.State) {
    && (forall r :: r in m.apps ==> r in m'.apps && m'.apps[r] == m.apps[r])
    && (forall r :: r in m'.apps && r !in m.apps ==> m'.apps[r].sendCount == 0)
    && m'.wifiConfigured == m.wifiConfigured && m'.cellConfigured == m.cellConfigured && m'.deactivated == m.deactivated
    && (forall n :: n in m.deactivated ==> (n in m'.radio <==> n in m.radio))
  }

  lemma OldNodesBalance(m: Manager.State, m': Manager.State, marks: multiset<Mark>)
    requires Balanced(m, marks) && Grown(m, m') && m'.nodes == m.nodes
    ensures Balanced(m', marks)
  {
    forall k ensures Entry(m', marks, k) {
      assert Entry(m, marks, k);
    }
  }

  lemma NewNodeBalances(m: Manager.State, m': Manager.State, n: nat, kind: Manager.NodeKind, marks: multiset<Mark>)
    requires Balanced(m, marks) && Grown(m, m') && n !in m.nodes && m'.nodes == m.nodes[n := kind]
    ensures Balanced(m', marks + multiset{Made(n, kind)})
  {
    forall k ensures Entry(m', marks + multiset{Made(n, kind)}, k) {
      assert Entry(m, marks, k);
    }
  }

  lemma CreationGrows(m: Manager.State, c: Call)
    requires Manager.Inv(m) && ManagerTheory.Creates(c) && Manager.Apply(m, c).verdict == Manager.Fine
    ensures Grown(m, Manager.Apply(m, c).m)
  {
    CreationApps(m, c);
    ManagerTheory.NewIdKind(m, c);
    ManagerEffects.NoDeactivatedStrangers(m);
    hide Manager.Inv, Manager.Apply;
  }

  lemma CreationBalances(m: Manager.State, c: Call, marks: multiset<Mark>)
    requires Manager.Inv(m) && Balanced(m, marks) && ManagerTheory.Creates(c)
    requires Manager.Apply(m, c).verdict == Manager.Fine
    ensures var o := Manager.Apply(m, c); Balanced(o.m, marks + MarksIn(o.effects))
  {
    hide Manager.Inv, Manager.Apply, MarksIn, Balanced, Grown;
    ManagerEffects.CreationPlacesTheNode(m, c);
    CreationGrows(m, c);
    var o := Manager.Apply(m, c);
    var n := o.m.toNs3[c.id];
    if c.CreateRadioNode? {
      MarksOfTwo(Manager.NodeMade(n, Manager.RadioNode), Manager.Positioned(n, c.pos));
      assert multiset{Made(n, Manager.RadioNode)} + multiset{} == multiset{Made(n, Manager.RadioNode)};
      NewNodeBalances(m, o.m, n, Manager.RadioNode, marks);
    } else if c.CreateWiredNode? {
      MarksOfOne(Manager.NodeMade(n, Manager.WiredNode));
      NewNodeBalances(m, o.m, n, Manager.WiredNode, marks);
    } else {
      MarksOfOne(Manager.Positioned(n, c.pos));
      assert marks + multiset{} == marks;
      OldNodesBalance(m, o.m, marks);
    }
  }

  lemma NodeBBalances(m: Manager.State, pos: Vector, marks: multiset<Mark>)
    requires Manager.Inv(m) && Balanced(m, marks)
    ensures var o := Manager.CreateNodeB(m, pos); Balanced(o.m, marks + MarksIn(o.effects))
  {
    hide Manager.Inv, MarksIn, Balanced;
    var n := m.nextNode;
    ManagerTheory.IdentityFacts(m);
    MarksOfTwo(Manager.NodeMade(n, Manager.ENodeB), Manager.Positioned(n, pos));
    assert multiset{Made(n, Manager.ENodeB)} + multiset{} == multiset{Made(n, Manager.ENodeB)};
    NewNodeBalances(m, Manager.CreateNodeB(m, pos).m, n, Manager.ENodeB, marks);
  }

  lemma RemovalBalances(m: Manager.State, id: nat, marks: multiset<Mark>)
    requires Manager.Inv(m) && Balanced(m, marks) && ManagerTheory.Alive(m, id)
    ensures var o := Manager.RemoveNode(m, id); Balanced(o.m, marks + MarksIn(o.effects))
  {
    hide Manager.Inv, MarksIn, ManagerTheory.Sound, Manager.RemoveNode;
    ManagerEffects.RemovalSwitchesOff(m, id);
    var o := Manager.RemoveNode(m, id);
    MarksOfOne(Manager.WifiOff(m.toNs3[id]));
    MarksOfNone();
    forall k ensures Entry(o.m, marks + MarksIn(o.effects), k) {
      assert Entry(m, marks, k);
    }
  }

  lemma WifiBalances(m: Manager.State, id: nat, power: real, ip: Ipv4, marks: multiset<Mark>)
    requires Manager.Inv(m) && Balanced(m, marks) && ManagerTheory.Alive(m, id)
    requires m.toNs3[id] in m.radio && m.toNs3[id] !in m.wifiConfigured
    ensures var o := Manager.ConfigureWifiRadio(m, id, power, ip); Balanced(o.m, marks + MarksIn(o.effects))
  {
    hide Manager.Inv, MarksIn, ManagerTheory.Sound, Manager.ConfigureWifiRadio;
    ManagerEffects.WifiConfigurationTakesEffect(m, id, power, ip);
    var o, n := Manager.ConfigureWifiRadio(m, id, power, ip), m.toNs3[id];
    MarksOfOne(Manager.AddressAdded(n, 1, ip, 8));
    MarksOfTwo(Manager.TxPower(n, power), Manager.AddressAdded(n, 1, ip, 8));
    forall k ensures Entry(o.m, marks + MarksIn(o.effects), k) {
      assert Entry(m, marks, k);
    }
  }

  lemma CellBalances(m: Manager.State, id: nat, ip: Ipv4, marks: multiset<Mark>)
    requires Manager.Inv(m) && Balanced(m, marks) && ManagerTheory.Alive(m, id) && m.toNs3[id] !in m.cellConfigured
    requires ManagerTheory.AcceptedAddress(m.toNs3[id] in m.radio, ip)
    ensures var o := Manager.ConfigureCellRadio(m, id, ip); Balanced(o.m, marks + MarksIn(o.effects))
  {
    hide Manager.Inv, MarksIn, ManagerTheory.Sound, Manager.ConfigureCellRadio;
    ManagerEffects.CellConfigurationTakesEffect(m, id, ip);
    var o, n := Manager.ConfigureCellRadio(m, id, ip), m.toNs3[id];
    MarksOfTwo(Manager.AddressAdded(n, 2, ip, 8), Manager.Attached(n));
    MarksOfTwo(Manager.AddressAdded(n, 1, ip, 16), Manager.DefaultRoute(n, Manager.GATEWAY));
    forall k ensures Entry(o.m, marks + MarksIn(o.effects), k) {
      assert Entry(m, marks, k);
    }
  }

  lemma TransmissionBalances(m: Manager.State, r: Manager.AppRef, dst: Ipv4, msg: nat, length: nat, marks: multiset<Mark>)
    requires Balanced(m, marks)
    ensures var o := Manager.TransmitPacket(m, r, dst, msg, length); Balanced(o.m, marks + MarksIn(o.effects))
  {
    var o := Manager.TransmitPacket(m, r, dst, msg, length);
    MarksOfOne(Manager.Sent(r.node, r.index, dst, msg, length));
    MarksOfNone();
    hide MarksIn;
    forall k ensures Entry(o.m, marks + MarksIn(o.effects), k) {
      assert Entry(m, marks, k);
    }
  }

  lemma NothingBalances(m: Manager.State, marks: multiset<Mark>)
    requires Balanced(m, marks)
    ensures Balanced(m, marks + MarksIn([]))
  {
    assert marks + MarksIn([]) == marks;
  }

  lemma CommandBalances(m: Manager.State, c: Call, marks: multiset<Mark>)
    requires Manager.Inv(m) && Balanced(m, marks) && !ManagerTheory.Creates(c) && !c.CreateNodeB?
    requires Manager.Apply(m, c).verdict == Manager.Fine
    ensures var o := Manager.Apply(m, c); Balanced(o.m, marks + MarksIn(o.effects))
  {
    ManagerTheory.ExitConditions(m, c);
    ManagerTheory.SoundNode(m, c.id);
    var n := m.toNs3[c.id];
    hide Manager.Inv, Balanced, MarksIn;
    if !ManagerTheory.Alive(m, c.id) || (c.ConfigureWifiRadio? && n in m.wifiConfigured)
       || (c.ConfigureCellRadio? && n in m.cellConfigured) {
      ManagerEffects.NothingToDo(m, c);
      NothingBalances(m, marks);
    } else {
      match c
      case UpdateNodePosition(id, pos) => PositionBalances(m, id, pos, marks);
      case RemoveNode(id) => RemovalBalances(m, id, marks);
      case ConfigureWifiRadio(id, power, ip) => WifiBalances(m, id, power, ip, marks);
      case ConfigureCellRadio(id, ip) => CellBalances(m, id, ip, marks);
      case SendWifiMsg(id, dst, channel, msg, length) =>
        TransmissionBalances(m, Manager.AppRef(n, 0), dst, msg, length, marks);
      case SendCellMsg(id, dst, msg, length) =>
        TransmissionBalances(m, Manager.AppRef(n, if n in m.radio then 1 else 0), dst, msg, length, marks);
    }
  }

  lemma PositionBalances(m: Manager.State, id: nat, pos: Vector, marks: multiset<Mark>)
    requires Manager.Inv(m) && Balanced(m, marks) && ManagerTheory.Alive(m, id) && m.toNs3[id] in m.radio
    ensures var o := Manager.UpdateNodePosition(m, id, pos); Balanced(o.m, marks + MarksIn(o.effects))
  {
    ManagerEffects.PositionUpdateMoves(m, id, pos);
    MarksOfOne(Manager.Positioned(m.toNs3[id], pos));
    assert marks + multiset{} == marks;
    hide Manager.Inv, MarksIn;
  }

  lemma CallBalances(m: Manager.State, c: Call, marks: multiset<Mark>)
    requires Manager.Inv(m) && Balanced(m, marks) && Manager.Apply(m, c).verdict == Manager.Fine
    ensures var o := Manager.Apply(m, c); Balanced(o.m, marks + MarksIn(o.effects))
  {
    hide Manager.Inv, Balanced, MarksIn;
    if ManagerTheory.Creates(c) {
      CreationBalances(m, c, marks);
    } else if c.CreateNodeB? {
      NodeBBalances(m, c.pos, marks);
    } else {
      CommandBalances(m, c, marks);
    }
  }

  lemma {:induction false} SparesBalance(m: Manager.State, k: nat, marks: multiset<Mark>)
    requires Manager.Inv(m) && Balanced(m, marks)
    ensures var (m', es) := Manager.MakeSpares(m, k); Balanced(m', marks + MarksIn(es))
    decreases k
  {
    hide Manager.Inv, Balanced, MarksIn, Manager.CreateRadioNodeHelper;
    if k == 0 {
      NothingBalances(m, marks);
    } else {
      var (m1, es) := Manager.MakeSpares(m, k - 1);
      SparesBalance(m, k - 1, marks);
      ManagerTheory.MakeSparesKeeps(m, k - 1);
      MarksOfMore(es, Manager.NodeMade(m1.nextNode, Manager.RadioNode));
      OneSpareBalances(m1, marks + MarksIn(es));
      assert marks + (MarksIn(es) + multiset{Made(m1.nextNode, Manager.RadioNode)})
          == (marks + MarksIn(es)) + multiset{Made(m1.nextNode, Manager.RadioNode)};
    }
  }

  lemma OneSpareBalances(m: Manager.State, marks: multiset<Mark>)
    requires Manager.Inv(m) && Balanced(m, marks)
    ensures Balanced(Manager.CreateRadioNodeHelper(m).(spare := m.spare + [m.nextNode]),
                     marks + multiset{Made(m.nextNode, Manager.RadioNode)})
  {
    var m' := Manager.CreateRadioNodeHelper(m).(spare := m.spare + [m.nextNode]);
    ManagerTheory.IdentityFacts(m);
    assert forall r :: r in m.apps ==> r.node in m.nodes;
    hide Manager.Inv, Balanced;
    NewNodeBalances(m, m', m.nextNode, Manager.RadioNode, marks);
  }

  lemma LaunchBalances(m: Manager.State, marks: multiset<Mark>)
    requires Manager.Inv(m) && Balanced(m, marks)
    ensures var o := Manager.OnStart(m); Balanced(o.m, marks + MarksIn(o.effects))
  {
    hide Manager.Inv, Balanced, MarksIn, Manager.MakeSpares;
    SparesBalance(m, m.numExtra, marks);
    var es := Manager.MakeSpares(m, m.numExtra).1;
    MarksOfAll(Manager.X2Linked(m.enbs), es);
    assert marks + (multiset{} + MarksIn(es)) == marks + MarksIn(es);
  }

  // ---------- over every run ----------

  ghost predicate InBalance(w: World) {
    Manager.Inv(w.m) && (w.status.Running? ==> Balanced(w.m, Marks(w.history)))
  }

  lemma NoteBalances(w: World, m: Manager.State, effects: seq<Manager.Effect>)
    requires Manager.Inv(m) && Balanced(m, Marks(w.history) + MarksIn(effects))
    ensures InBalance(Note(w.(m := m), effects))
  {
    hide Manager.Inv, Balanced;
    if effects == [] {
      assert Marks(w.history) + MarksIn(effects) == Marks(w.history);
    } else {
      MarksAfter(w.history, Stimulus(w.k.currentTs, w.k.uid, effects));
    }
  }

  lemma PerformBalances(w: World, c: Call)
    requires InBalance(w) && w.status.Running?
    ensures InBalance(Perform(w, c))
  {
    hide Manager.Inv, Balanced, Manager.Apply, Marks, MarksIn;
    ManagerTheory.ApplyKeeps(w.m, c);
    var o := Manager.Apply(w.m, c);
    if o.verdict == Manager.Fine {
      CallBalances(w.m, c, Marks(w.history));
      NoteBalances(w, o.m, o.effects);
    }
  }

  lemma FiringBalances(w: World, tag: nat)
    requires InBalance(w) && w.status.Running?
    ensures InBalance(Note(w, [Manager.Fired(tag)]))
  {
    MarksOfOne(Manager.Fired(tag));
    assert Marks(w.history) + multiset{} == Marks(w.history);
    hide Manager.Inv, Balanced, Marks, MarksIn;
    NoteBalances(w, w.m, [Manager.Fired(tag)]);
  }

  lemma ReceptionBalances(m: Manager.State, r: Manager.AppRef, marks: multiset<Mark>)
    requires Balanced(m, marks)
    ensures Balanced(Manager.Receive(m, r).0, marks)
  {
    var m' := Manager.Receive(m, r).0;
    forall k ensures Entry(m', marks, k) {
      assert Entry(m, marks, k);
    }
  }

  lemma BeginBalances(w: World)
    requires InBalance(w) && w.k.events != [] && w.status.Running?
    ensures InBalance(Begin(w))
  {
    hide Manager.Inv, Balanced, Perform, Note, Marks, Kernel.Pop;
    var w1 := w.(k := Kernel.Pop(w.k));
    match w.k.events[0].job
    case Deferred(c) => PerformBalances(w1, c);
    case Timer(tag) => FiringBalances(w1, tag);
    case StopCall =>
  }

  lemma LaunchKeepsBalance(w: World)
    requires InBalance(w) && w.status.Running?
    ensures InBalance(Launch(w))
  {
    hide Manager.Inv, Balanced, Note, Marks, MarksIn, Manager.MakeSpares;
    LaunchBalances(w.m, Marks(w.history));
    ManagerTheory.MakeSparesKeeps(w.m, w.m.numExtra);
    NoteBalances(w, Manager.OnStart(w.m).m, Manager.OnStart(w.m).effects);
  }

  lemma StepBalances(w: World, s: Step)
    requires InBalance(w) && Enabled(w, s, false)
    ensures InBalance(Take(w, s))
  {
    hide Manager.Inv, Balanced, Begin, Perform, Launch, Marks, Manager.Receive, Kernel.Insert, Bridge.WriteNextTime;
    ManagerRuns.StepKeepsManager(w, s, false);
    match s
    case DoAct(a) => if a.Deliver? { ReceptionBalances(w.m, a.app, Marks(w.history)); }
    case DoBegin => BeginBalances(w);
    case DoPerform(c) => PerformBalances(w, c);
    case DoLaunch => LaunchKeepsBalance(w);
    case _ =>
  }

  // At every moment, while the process runs: every node was made exactly once, as the kind it is; it was configured in
  // ns-3 exactly once for each medium the tables say, and never for another; its Wi-Fi was switched off exactly if it is a
  // removed radio node; and m_sendCount is the number of packets handed to the socket, in 16 bits.
  lemma NothingIsDoneTwice(w: World, ss: seq<Step>, k: Mark)
    requires InBalance(w) && Possible(w, ss, false) && Walk(w, ss).status.Running?
    ensures Entry(Walk(w, ss).m, Marks(Walk(w, ss).history), k)
  {
    var I := (x: World) => InBalance(x);
    forall x, s | I(x) && Enabled(x, s, false) ensures I(Take(x, s)) {
      StepBalances(x, s);
    }
    WalkKeeps(w, ss, I, false);
    hide Walk, Possible, Manager.Inv, Entry;
  }

  // ---------- what MOSAIC was told of receptions ----------

  predicate IsFor(r: Bridge.Report, wifi: bool, id: nat) {
    Bridge.IsReception(r) && r.node == id && (wifi <==> r.RecvWifi?)
  }

  // How many receptions of this medium were reported for this id.
  function Reported(log: seq<Bridge.Report>, wifi: bool, id: nat): nat {
    if log == [] then 0
    else Reported(log[..|log| - 1], wifi, id) + if IsFor(log[|log| - 1], wifi, id) then 1 else 0
  }

  lemma ReportedAfter(log: seq<Bridge.Report>, r: Bridge.Report)
    ensures forall wifi, id :: Reported(log + [r], wifi, id) == Reported(log, wifi, id) + if IsFor(r, wifi, id) then 1 else 0
  {
    assert (log + [r])[..|log|] == log;
  }

  predicate IsWifi(m: Manager.State, r: Manager.AppRef)
    requires r in m.apps
  {
    m.apps[r].device == Manager.WIFI
  }

  // Each application of a live node has counted the receptions reported for its node and medium; before it has an id
  // there are none.
  ghost predicate Tallied(m: Manager.State, log: seq<Bridge.Report>) {
    && (forall wifi, id :: id !in m.toNs3 ==> Reported(log, wifi, id) == 0)
    && (forall r :: r in m.apps && r.node !in m.toMosaic ==> m.apps[r].recvCount == 0)
    && (forall r :: r in m.apps && r.node in m.toMosaic && r.node !in m.deactivated ==>
          m.apps[r].recvCount == Reported(log, IsWifi(m, r), m.toMosaic[r.node]))
  }

  // An application is the only one of its node and medium.
  lemma OneAppPerMedium(m: Manager.State, r: Manager.AppRef, q: Manager.AppRef)
    requires Manager.Inv(m) && r in m.apps && q in m.apps && r.node == q.node && (IsWifi(m, r) <==> IsWifi(m, q))
    ensures r == q
  {
    var kind := m.nodes[r.node];
    assert Manager.DeviceOf(kind, r.index).Some? && Manager.DeviceOf(kind, q.index).Some?;
  }

  lemma DeliveryTallies(m: Manager.State, log: seq<Bridge.Report>, r: Manager.AppRef, report: Bridge.Report)
    requires Manager.Inv(m) && Tallied(m, log) && Manager.Receive(m, r).1.Forwarded?
    requires var d := Manager.Receive(m, r).1; IsFor(report, d.wifi, d.id)
    ensures Tallied(Manager.Receive(m, r).0, log + [report])
  {
    DeliveredTo(m, r);
    hide Manager.Inv, Manager.Receive, Reported;
    var m' := Manager.Receive(m, r).0;
    ReportedAfter(log, report);
    forall q | q in m'.apps && q.node in m'.toMosaic && q.node !in m'.deactivated
      ensures m'.apps[q].recvCount == Reported(log + [report], IsWifi(m', q), m'.toMosaic[q.node])
    {
      assert IsWifi(m', q) == IsWifi(m, q);
      if q != r && q.node == r.node && IsWifi(m, q) == IsWifi(m, r) {
        OneAppPerMedium(m, q, r);
      }
    }
  }

  lemma DeliveredTo(m: Manager.State, r: Manager.AppRef)
    requires Manager.Inv(m) && Manager.Receive(m, r).1.Forwarded?
    ensures var (m', d) := Manager.Receive(m, r);
      && r in m.apps && r.node in m.toMosaic && r.node !in m.deactivated
      && d.wifi == IsWifi(m, r) && d.id == m.toMosaic[r.node] && d.id in m.toNs3
      && (forall n :: n in m.toMosaic && n != r.node ==> m.toMosaic[n] != d.id)
      && m' == m.(apps := m.apps[r := m.apps[r].(recvCount := m.apps[r].recvCount + 1)])
  {
  }

  lemma IgnoredTallies(m: Manager.State, log: seq<Bridge.Report>, r: Manager.AppRef)
    requires Manager.Inv(m) && Tallied(m, log) && Manager.Receive(m, r).1.Ignored?
    ensures Tallied(Manager.Receive(m, r).0, log)
  {
    ManagerEffects.NoDeactivatedStrangers(m);
    hide Manager.Inv, Reported;
    var m' := Manager.Receive(m, r).0;
    forall q | q in m'.apps && q.node in m'.toMosaic && q.node !in m'.deactivated
      ensures m'.apps[q].recvCount == Reported(log, IsWifi(m', q), m'.toMosaic[q.node])
    {
      assert IsWifi(m', q) == IsWifi(m, q);
    }
  }

  lemma OtherReportsTally(m: Manager.State, log: seq<Bridge.Report>, r: Bridge.Report)
    requires Tallied(m, log) && !Bridge.IsReception(r)
    ensures Tallied(m, log + [r])
  {
    ReportedAfter(log, r);
    hide Reported;
  }

  // Applications keep their device and count, and nodes lose neither id nor deactivation.
  ghost predicate Settled(m: Manager.State, m': Manager.State) {
    && (forall r :: r in m.apps ==>
          r in m'.apps && m'.apps[r].recvCount == m.apps[r].recvCount && m'.apps[r].device == m.apps[r].device)
    && (forall r :: r in m'.apps && r !in m.apps ==> m'.apps[r].recvCount == 0 && r.node !in m.toMosaic)
    && m.deactivated <= m'.deactivated && m.toNs3.Keys <= m'.toNs3.Keys
    && (forall n :: n in m.toMosaic ==> n in m'.toMosaic && m'.toMosaic[n] == m.toMosaic[n])
    && (forall n :: n in m'.toMosaic && n !in m.toMosaic ==> m'.toMosaic[n] !in m.toNs3)
  }

  lemma SettledTallies(m: Manager.State, m': Manager.State, log: seq<Bridge.Report>)
    requires Tallied(m, log) && Settled(m, m')
    ensures Tallied(m', log)
  {
    hide Reported;
    forall r | r in m'.apps && r.node in m'.toMosaic && r.node !in m'.deactivated
      ensures m'.apps[r].recvCount == Reported(log, IsWifi(m', r), m'.toMosaic[r.node])
    {
      if r.node in m.toMosaic {
        assert r in m.apps;
      }
    }
  }

  lemma CreationSettles(m: Manager.State, c: Call)
    requires Manager.Inv(m) && ManagerTheory.Creates(c) && Manager.Apply(m, c).verdict == Manager.Fine
    ensures Settled(m, Manager.Apply(m, c).m)
  {
    CreationApps(m, c);
    CreationMaps(m, c);
    NewAppsAreUnmapped(m, c);
    hide Manager.Inv, Manager.Apply;
  }

  lemma CreationMaps(m: Manager.State, c: Call)
    requires Manager.Inv(m) && ManagerTheory.Creates(c) && Manager.Apply(m, c).verdict == Manager.Fine
    ensures var m' := Manager.Apply(m, c).m;
      && m.toNs3.Keys <= m'.toNs3.Keys
      && (forall n :: n in m.toMosaic ==> n in m'.toMosaic && m'.toMosaic[n] == m.toMosaic[n])
      && (forall n :: n in m'.toMosaic && n !in m.toMosaic ==> m'.toMosaic[n] !in m.toNs3)
  {
    ManagerTheory.IdentityFacts(m);
    ManagerTheory.CreationExits(m, c);
    ManagerTheory.MapsGrow(m, c);
    ManagerTheory.NewIdKind(m, c);
    ManagerTheory.ApplyKeeps(m, c);
    InverseOf(Manager.Apply(m, c).m);
    hide Manager.Inv, Manager.Apply;
  }

  lemma InverseOf(m: Manager.State)
    requires Manager.Inv(m)
    ensures forall n :: n in m.toMosaic ==> m.toMosaic[n] in m.toNs3 && m.toNs3[m.toMosaic[n]] == n
    ensures forall id :: id in m.toNs3 ==> m.toNs3[id] in m.toMosaic && m.toMosaic[m.toNs3[id]] == id
  {
  }

  lemma NewAppsAreUnmapped(m: Manager.State, c: Call)
    requires Manager.Inv(m) && ManagerTheory.Creates(c) && Manager.Apply(m, c).verdict == Manager.Fine
    ensures forall r :: r in Manager.Apply(m, c).m.apps && r !in m.apps ==> r.node !in m.toMosaic
  {
    ManagerTheory.IdentityFacts(m);
    hide Manager.Inv, Manager.ConfigureWifiRadio, Manager.ConfigureCellRadio, Manager.SendWifiMsg, Manager.SendCellMsg,
         Manager.RemoveNode, Manager.CreateNodeB;
  }

  lemma CommandSettles(m: Manager.State, c: Call)
    requires Manager.Inv(m) && !ManagerTheory.Creates(c) && !c.CreateNodeB? && c.id in m.toNs3
    ensures Settled(m, Manager.Apply(m, c).m)
  {
    hide Manager.Inv, Manager.Apply, ManagerTheory.Sound;
    ManagerTheory.SoundNode(m, c.id);
    ManagerEffects.NoDeactivatedStrangers(m);
    ActiveAppsHaveIds(m);
    ManagerTheory.CommandKeepsMaps(m, c);
    ManagerTheory.CommandTouchesFlags(m, c);
  }

  lemma ActiveAppsHaveIds(m: Manager.State)
    requires Manager.Inv(m)
    ensures forall r :: r in m.apps && m.apps[r].active ==> r.node in m.toMosaic
  {
  }

  lemma CallSettles(m: Manager.State, c: Call)
    requires Manager.Inv(m) && Manager.Apply(m, c).verdict == Manager.Fine
    ensures Settled(m, Manager.Apply(m, c).m)
  {
    if ManagerTheory.Creates(c) {
      CreationSettles(m, c);
    } else if !c.CreateNodeB? {
      ManagerTheory.ExitConditions(m, c);
      CommandSettles(m, c);
    }
    hide Manager.Inv;
  }

  lemma OneSpareSettles(m: Manager.State)
    requires Manager.Inv(m)
    ensures Settled(m, Manager.CreateRadioNodeHelper(m).(spare := m.spare + [m.nextNode]))
  {
    ManagerTheory.IdentityFacts(m);
    Gates.NoAppsAhead(m);
    hide Manager.Inv;
  }

  lemma {:induction false} SparesSettle(m: Manager.State, k: nat)
    requires Manager.Inv(m)
    ensures Settled(m, Manager.MakeSpares(m, k).0)
    decreases k
  {
    hide Manager.Inv, Manager.CreateRadioNodeHelper;
    if k > 0 {
      SparesSettle(m, k - 1);
      ManagerTheory.MakeSparesKeeps(m, k - 1);
      OneSpareSettles(Manager.MakeSpares(m, k - 1).0);
    }
  }

  ghost predicate InTally(w: World) {
    Manager.Inv(w.m) && (w.status.Running? ==> Tallied(w.m, w.b.log))
  }

  lemma DeliverKeepsTally(w: World, app: Manager.AppRef, msg: int)
    requires InTally(w) && w.status.Running?
    ensures InTally(Act(w, Deliver(app, msg)))
  {
    hide Manager.Inv, Tallied, Manager.Receive;
    ManagerTheory.ReceptionNeverAborts(w.m, app);
    var d := Manager.Receive(w.m, app).1;
    var now := w.k.currentTs;
    if d.Forwarded? {
      DeliveryTallies(w.m, w.b.log, app, if d.wifi then Bridge.RecvWifi(now, d.id, msg) else Bridge.RecvCell(now, d.id, msg));
    } else {
      IgnoredTallies(w.m, w.b.log, app);
    }
  }

  lemma WritingKeepsTally(w: World, w': World, t: nat)
    requires InTally(w) && w'.m == w.m && (w'.status.Running? ==> w.status.Running?)
    requires w'.b.log == w.b.log || w'.b.log == Bridge.WriteNextTime(w.b, t).log
    ensures InTally(w')
  {
    hide Manager.Inv, Tallied, Bridge.Trim;
    if w.status.Running? {
      OtherReportsTally(w.m, w.b.log, Bridge.NextEvent(t));
    }
  }

  lemma ActKeepsTally(w: World, a: Action)
    requires InTally(w) && w.status.Running?
    ensures InTally(Act(w, a))
  {
    hide Manager.Inv, Tallied, InTally, Manager.Receive, Kernel.Insert, Kernel.Remove, Bridge.WriteNextTime;
    if a.Deliver? {
      DeliverKeepsTally(w, a.app, a.msg);
    } else {
      var ts := w.k.currentTs + if a.Later? || a.LaterIn? || a.StopLater? then a.delay else 0;
      WritingKeepsTally(w, Act(w, a), if ts >= 0 then ts else 0);
    }
  }

  lemma CallKeepsTally(w: World, w': World, c: Call)
    requires InTally(w) && w.status.Running? && w'.b == w.b && w'.m == Manager.Apply(w.m, c).m
    requires w'.status.Running? ==> Manager.Apply(w.m, c).verdict == Manager.Fine
    ensures InTally(w')
  {
    hide Manager.Inv, Tallied, Settled, Manager.Apply;
    ManagerTheory.ApplyKeeps(w.m, c);
    if w'.status.Running? {
      CallSettles(w.m, c);
      SettledTallies(w.m, w'.m, w.b.log);
    }
  }

  lemma BeginKeepsTally(w: World)
    requires InTally(w) && w.k.events != [] && w.status.Running?
    ensures InTally(Begin(w))
  {
    hide Manager.Inv, Tallied, Manager.Apply, Kernel.Pop;
    if w.k.events[0].job.Deferred? && Begin(w).m != w.m {
      CallKeepsTally(w, Begin(w), w.k.events[0].job.call);
    }
  }

  lemma ReplyKeepsTally(w: World)
    requires InTally(w)
    ensures InTally(Answer(w)) && (w.status.Running? ==> InTally(SkipZero(w)))
  {
    hide Manager.Inv, Tallied;
    if w.status.Running? {
      OtherReportsTally(w.m, w.b.log, Bridge.End(w.k.currentTs));
      OtherReportsTally(w.m, w.b.log, Bridge.Preempted(w.k.currentTs));
    }
  }

  lemma LaunchKeepsTally(w: World)
    requires InTally(w)
    ensures InTally(Launch(w))
  {
    hide Manager.Inv, Tallied, Settled, Manager.MakeSpares;
    ManagerTheory.MakeSparesKeeps(w.m, w.m.numExtra);
    if w.status.Running? {
      SparesSettle(w.m, w.m.numExtra);
      SettledTallies(w.m, Launch(w).m, w.b.log);
    }
  }

  lemma StepKeepsTally(w: World, s: Step)
    requires InTally(w) && Enabled(w, s, false)
    ensures InTally(Take(w, s))
  {
    hide Manager.Inv, Tallied, Act, Begin, Launch, Manager.Apply, Manager.MakeSpares, Kernel.Insert, Bridge.WriteNextTime;
    match s
    case DoAct(a) => ActKeepsTally(w, a);
    case DoBegin => BeginKeepsTally(w);
    case DoPerform(c) => CallKeepsTally(w, Perform(w, c), c);
    case DoSchedule(t, c) => WritingKeepsTally(w, Take(w, s), t);
    case DoLaunch => LaunchKeepsTally(w);
    case DoSubmitOne => WritingKeepsTally(w, Take(w, s), 1);
    case DoAnswer => ReplyKeepsTally(w);
    case DoSkipZero => ReplyKeepsTally(w);
    case _ =>
  }

  // At every moment, while the process runs: an application of a node that is not removed has received exactly as many
  // packets as RECV reports of its medium were written for the node's id.
  lemma EveryReceptionIsReportedOnce(w: World, ss: seq<Step>, id: nat, wifi: bool)
    requires InTally(w) && Possible(w, ss, false) && Walk(w, ss).status.Running?
    requires var m := Walk(w, ss).m; id in m.toNs3 && m.toNs3[id] !in m.deactivated && (wifi ==> m.toNs3[id] in m.radio)
    ensures var x := Walk(w, ss);
            var n := x.m.toNs3[id];
            var app := Manager.AppRef(n, if n in x.m.radio && !wifi then 1 else 0);
            app in x.m.apps && x.m.apps[app].recvCount == Reported(x.b.log, wifi, id)
  {
    var I := (x: World) => InTally(x);
    forall x, s | I(x) && Enabled(x, s, false) ensures I(Take(x, s)) {
      StepKeepsTally(x, s);
    }
    WalkKeeps(w, ss, I, false);
    var m := Walk(w, ss).m;
    ManagerTheory.SoundNode(m, id);
    Gates.DevicesOf(m, m.toNs3[id]);
    InverseOf(m);
    hide Walk, Possible, Manager.Inv, Reported;
  }
}
