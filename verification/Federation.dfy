// The federate as a whole on values: kernel, bridge, node manager and the rest of ns-3 around them.
module Federation {
  import opened Types
  import Kernel
  import Bridge
  import Manager

  // ---------- the rest of ns-3 ----------

  // One handler or manager call as ns-3 sees it: when it ran, the next uid, and its effects.
  datatype Stimulus = Stimulus(now: nat, uid: nat, effects: seq<Manager.Effect>)

  // What ns-3 code does in return. Handles count the ids that Schedule, ScheduleNow and ScheduleDestroy returned
  // to ns-3; it can name no other event.
  datatype Action =
    | Later(delay: int, tag: nat)
    | LaterIn(context: nat, delay: int, tag: nat)
    | AtOnce(tag: nat)
    | AtDestroy
    | StopLater(delay: int)
    | StopNow
    | RemoveEvent(handle: nat)
    | CancelEvent(handle: nat)
    | Deliver(app: Manager.AppRef, msg: int)  // a packet reaches a proxy app's socket
    | SendError                               // SendTo failed inside TransmitPacket

  // ns-3 is deterministic: all it has seen so far determines what it does next.
  type Network = seq<Stimulus> -> seq<Action>

  datatype World = World(
    k: Kernel.State, b: Bridge.State, m: Manager.State,
    history: seq<Stimulus>, handles: seq<EventId>, status: Status)

  function Initial(preemptive: bool, firstNode: nat, numExtra: nat): World {
    World(Kernel.INITIAL, Bridge.Initial(preemptive), Manager.Initial(firstNode, numExtra), [], [], Running)
  }

  function Exit(w: World, why: Reason): World {
    w.(status := Exited(why))
  }

  // ---------- scheduling, with the report to MOSAIC ----------

  ghost function ScheduleIn(w: World, context: nat, delay: int, job: Job): World {
    var ts := w.k.currentTs + delay;
    if ts < 0 then Exit(w, NegativeTime)
    else w.(k := Kernel.Insert(w.k, ts, context, job), b := Bridge.WriteNextTime(w.b, ts))
  }

  ghost function Schedule(w: World, delay: int, job: Job): World {
    ScheduleIn(w, w.k.currentContext, delay, job)
  }

  function ScheduleNow(w: World, job: Job): World {
    w.(k := Kernel.Insert(w.k, w.k.currentTs, w.k.currentContext, job))
  }

  // The id that the scheduling call made in world w returns.
  function NextId(w: World, ts: nat): EventId {
    EventId(w.k.uid, ts, w.k.currentContext, w.k.uid)
  }

  // ---------- one action of ns-3 ----------

  ghost function Act(w: World, a: Action): World {
    match a
    case Later(delay, tag) =>
      var w1 := Schedule(w, delay, Timer(tag));
      if w1.status.Running? then w1.(handles := w.handles + [NextId(w, w.k.currentTs + delay)]) else w1
    case LaterIn(context, delay, tag) => ScheduleIn(w, context, delay, Timer(tag))
    case AtOnce(tag) => ScheduleNow(w, Timer(tag)).(handles := w.handles + [NextId(w, w.k.currentTs)])
    case AtDestroy =>
      var (k, id) := Kernel.ScheduleDestroy(w.k);
      w.(k := k, handles := w.handles + [id])
    case StopLater(delay) => Schedule(w, delay, StopCall)
    case StopNow => w.(k := w.k.(stop := true))
    case RemoveEvent(i) => if i < |w.handles| then w.(k := Kernel.Remove(w.k, w.handles[i])) else w
    case CancelEvent(i) => if i < |w.handles| then w.(k := Kernel.Cancel(w.k, w.handles[i])) else w
    case Deliver(app, msg) =>
      var (m, d) := Manager.Receive(w.m, app);
      var w1 := w.(m := m);
      (match d
       case Ignored => w1
       case Forwarded(wifi, id) =>
         var now := w.k.currentTs;
         w1.(b := Bridge.WriteReceive(w.b, if wifi then Bridge.RecvWifi(now, id, msg) else Bridge.RecvCell(now, id, msg)))
       case Lost(why) => Exit(w1, why))
    case SendError => Exit(w, SendFailed)
  }

  ghost function Acts(w: World, actions: seq<Action>): World
    decreases |actions|
  {
    if actions == [] || !w.status.Running? then w else Acts(Act(w, actions[0]), actions[1..])
  }

  function Note(w: World, effects: seq<Manager.Effect>): World {
    if effects == [] then w else w.(history := w.history + [Stimulus(w.k.currentTs, w.k.uid, effects)])
  }

  // ns-3 reacts when something reached it.
  ghost function Respond(net: Network, before: World, w: World): World {
    if w.status.Running? && |before.history| < |w.history| then Acts(w, net(w.history)) else w
  }

  // ---------- one event ----------

  function Perform(w: World, c: Call): World {
    var o := Manager.Apply(w.m, c);
    var w1 := Note(w.(m := o.m), o.effects);
    if o.verdict.Exit? then Exit(w1, o.verdict.why) else w1
  }

  // ProcessOneEvent up to the point where the handler hands over to ns-3.
  function Begin(w: World): World
    requires w.k.events != []
  {
    var e := w.k.events[0];
    if e.ts < w.k.currentTs then Exit(w, ClockAssertion)
    else
      var w1 := w.(k := Kernel.Pop(w.k));
      if e.uid in w.k.cancelled then w1
      else match e.job
        case Deferred(c) => Perform(w1, c)
        case Timer(tag) => Note(w1, [Manager.Fired(tag)])
        case StopCall => w1.(k := w1.k.(stop := true))
  }

  ghost function RunOne(net: Network, w: World): World
    requires w.k.events != []
  {
    Respond(net, w, Begin(w))
  }

  // ---------- the grant loop ----------

  // The loop condition: an event within the grant, and the simulator not finished.
  predicate Ready(w: World) {
    w.status.Running? && w.k.events != [] && !w.k.stop && w.k.events[0].ts <= w.b.grant
  }

  predicate Interrupted(w: World) {
    w.b.preemptive && w.b.past
  }

  predicate Go(w: World) {
    Ready(w) && !Interrupted(w)
  }

  // At most n rounds of the loop.
  ghost function Loop(net: Network, w: World, n: nat): World
    decreases n
  {
    if n == 0 || !Go(w) then w else Loop(net, RunOne(net, w), n - 1)
  }

  ghost predicate EndsAfter(net: Network, w: World, n: nat) {
    !Go(Loop(net, w, n))
  }

  ghost predicate LoopEnds(net: Network, w: World) {
    exists n: nat :: EndsAfter(net, w, n)
  }

  // The whole loop; a loop that never ends is a state of its own.
  ghost function Drain(net: Network, w: World): World {
    if LoopEnds(net, w) then
      var n: nat :| EndsAfter(net, w, n);
      Loop(net, w, n)
    else w.(status := Diverged)
  }

  // ---------- commands ----------

  datatype AddKind = AddRadio | AddWired | AddNodeB | AddOther

  datatype Command =
    | AddNode(kind: AddKind, time: nat, id: nat, pos: Vector)
    | UpdateNode(time: nat, nodes: seq<(nat, Vector)>)
    | DeleteNode(time: nat, id: nat)
    | AdvanceTime(time: nat)
    | ConfWifiRadio(time: nat, id: nat, single: bool, power: real, ip: Ipv4)
    | SendWifi(time: nat, id: nat, dst: Ipv4, channel: nat, msg: nat, length: nat)
    | ConfCellRadio(time: nat, id: nat, ip: Ipv4)
    | SendCell(time: nat, id: nat, dst: Ipv4, msg: nat, length: nat)
    | ShutDown
    | InitAgain
    | Unknown

  // What dispatchCommand makes of a command.
  datatype Plan =
    | Immediate(call: Call)
    | AtTime(time: nat, calls: seq<Call>)
    | Grant(time: nat)
    | Fail(why: Reason)
    | Hang                  // close the connection without a reply
    | Finish
    | Nothing

  function Moves(nodes: seq<(nat, Vector)>): (r: seq<Call>) {
    if nodes == [] then [] else [UpdateNodePosition(nodes[0].0, nodes[0].1)] + Moves(nodes[1..])
  }

  // ns-3 does not like packets at time zero.
  function SendTime(t: nat): nat {
    if t == 0 then 1 else t
  }

  function PlanOf(started: bool, c: Command): Plan {
    match c
    case AddNode(AddRadio, time, id, pos) =>
      if started then AtTime(time, [ActivateRadioNode(id, pos)]) else Immediate(CreateRadioNode(id, pos))
    case AddNode(AddWired, time, id, pos) =>
      if started then AtTime(time, [CreateWiredNode(id)]) else Immediate(CreateWiredNode(id))
    case AddNode(AddNodeB, time, id, pos) =>
      if started then Fail(LateNodeB) else Immediate(CreateNodeB(pos))
    case AddNode(AddOther, _, _, _) => Hang
    case UpdateNode(time, nodes) => AtTime(time, Moves(nodes))
    case DeleteNode(time, id) => AtTime(time, [RemoveNode(id)])
    case AdvanceTime(time) => Grant(time)
    case ConfWifiRadio(time, id, single, power, ip) =>
      if single then AtTime(time, [ConfigureWifiRadio(id, power, ip)]) else Fail(UnsupportedRadio)
    case SendWifi(time, id, dst, channel, msg, length) =>
      AtTime(SendTime(time), [SendWifiMsg(id, dst, channel, msg, length)])
    case ConfCellRadio(time, id, ip) =>
      if started then AtTime(time, [ConfigureCellRadio(id, ip)]) else Immediate(ConfigureCellRadio(id, ip))
    case SendCell(time, id, dst, msg, length) => AtTime(SendTime(time), [SendCellMsg(id, dst, msg, length)])
    case ShutDown => Finish
    case InitAgain => Nothing
    case Unknown => Hang
  }

  function Ack(w: World): World {
    if w.status.Running? then w.(b := w.b.(acks := w.b.acks + 1)) else w
  }

  function Close(w: World): World {
    w.(b := w.b.(closed := true))
  }

  ghost function ScheduleAll(w: World, time: nat, calls: seq<Call>): World
    decreases |calls|
  {
    if calls == [] then w
    else ScheduleAll(Schedule(w, time - w.k.currentTs, Deferred(calls[0])), time, calls[1..])
  }

  function SetGrant(w: World, t: nat): World {
    w.(b := w.b.(grant := t))
  }

  // MosaicNodeManager::OnStart
  function Launch(w: World): World {
    var o := Manager.OnStart(w.m);
    Note(w.(m := o.m), o.effects)
  }

  function MarkStarted(w: World): World {
    if w.status.Running? then w.(b := w.b.(started := true)) else w
  }

  function StartGrant(w: World): World {
    if w.status.Running? then w.(b := w.b.(grants := w.b.grants + 1, past := false)) else w
  }

  function Reply(w: World, r: Bridge.Report): World {
    w.(b := w.b.(log := w.b.log + [r]))
  }

  // The state at the loop of a positive grant.
  ghost function Open(net: Network, w: World, t: nat): World {
    var w1 := SetGrant(w, t);
    var w2 := if w.b.started then w1 else MarkStarted(Respond(net, w1, Launch(w1)));
    StartGrant(w2)
  }

  function Answer(w: World): World {
    if !w.status.Running? then w
    else Reply(w, if Interrupted(w) then Bridge.Preempted(w.k.currentTs) else Bridge.End(w.k.currentTs))
  }

  function SkipZero(w: World): World {
    Reply(w, Bridge.End(w.k.currentTs))
  }

  ghost function SubmitOne(w: World): World {
    w.(b := Bridge.WriteNextTime(w.b, 1))
  }

  ghost function Advance(net: Network, w: World, t: nat): World {
    if t == 0 then SkipZero(SubmitOne(SetGrant(w, 0)))
    else Answer(Drain(net, Open(net, w, t)))
  }

  function Finishing(w: World): World {
    Close(w).(k := Kernel.Destroy(w.k))
  }

  predicate Listening(w: World) {
    w.status.Running? && !w.b.closed
  }

  ghost function Dispatch(net: Network, w: World, c: Command): World {
    match PlanOf(w.b.started, c)
    case Immediate(call) => Ack(Respond(net, w, Perform(w, call)))
    case AtTime(time, calls) => Ack(ScheduleAll(w, time, calls))
    case Grant(t) => Advance(net, w, t)
    case Fail(why) => Exit(w, why)
    case Hang => Close(w)
    case Finish => Finishing(w)
    case Nothing => w
  }

  // MosaicNs3Bridge::run over the commands that arrive.
  ghost function Run(net: Network, w: World, cs: seq<Command>): World
    decreases |cs|
  {
    if cs == [] || !Listening(w) then w else Run(net, Dispatch(net, w, cs[0]), cs[1..])
  }

  // ---------- assumptions about the environment ----------

  // ns-3 never asks for an event in the past.
  predicate CausalAction(a: Action) {
    (a.Later? || a.LaterIn? || a.StopLater?) ==> a.delay >= 0
  }

  ghost predicate Causal(net: Network) {
    forall h, a :: a in net(h) ==> CausalAction(a)
  }

  // A command for a time before Now does not arrive.
  predicate InTime(w: World, c: Command) {
    var p := PlanOf(w.b.started, c);
    p.AtTime? && p.calls != [] ==> w.k.currentTs <= p.time
  }

  ghost predicate AllInTime(net: Network, w: World, cs: seq<Command>)
    decreases |cs|
  {
    cs == [] || !Listening(w) || (InTime(w, cs[0]) && AllInTime(net, Dispatch(net, w, cs[0]), cs[1..]))
  }
}
