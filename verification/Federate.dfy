// The kernel and the bridge as objects that update their fields in place; each method is proved to do what
// Kernel and Federation say.
module Federate {
  import opened Types
  import opened Federation
  import opened NodeManager
  import Wrappers
  import Kernel
  import Bridge
  import ListScheduler
  import Manager
  import Wire

  // The rest of ns-3, as far as the federate can see it.
  class Ns3 {
    const behaviour: Network
    var history: seq<Stimulus>
    var handles: seq<EventId>

    constructor (behaviour: Network)
      ensures this.behaviour == behaviour && history == [] && handles == []
    {
      this.behaviour, history, handles := behaviour, [], [];
    }
  }

  class MosaicSimulatorImpl {
    var events: seq<Event>
    var destroyEvents: seq<EventId>
    var cancelled: set<nat>
    var stop: bool
    var uid: nat
    var currentUid: nat
    var currentTs: nat
    var currentContext: nat
    var eventCount: nat
    var unscheduledEvents: int
    var bridge: MosaicNs3Bridge?
    ghost var journal: Kernel.Journal

    ghost function State(): Kernel.State
      reads this
    {
      Kernel.State(events, destroyEvents, cancelled, stop, uid, currentUid, currentTs, currentContext, eventCount,
                   unscheduledEvents, journal)
    }

    ghost predicate Attached()
      reads this
    {
      bridge != null && bridge.sim == this
    }

    constructor ()
      ensures State() == Kernel.INITIAL && bridge == null
    {
      events, destroyEvents, cancelled, stop := [], [], {}, false;
      uid, currentUid, currentTs, currentContext := FIRST_UID, 0, 0, NO_CONTEXT;
      eventCount, unscheduledEvents := 0, 0;
      bridge := null;
      journal := Kernel.EMPTY_JOURNAL;
    }

    method AttachBridge(b: MosaicNs3Bridge)
      modifies `bridge
      ensures bridge == b && State() == old(State())
    {
      bridge := b;
    }

    // ---------- the event list ----------

    method DoDispose()
      modifies this
      ensures State() == Kernel.Dispose(old(State())) && bridge == old(bridge)
    {
      while events != []
        invariant bridge == old(bridge)
        invariant Kernel.Dispose(State()) == Kernel.Dispose(old(State()))
        decreases |events|
      {
        ghost var before := State();
        journal := journal.(released := journal.released + multiset{events[0].uid});
        events := events[1..];
        assert Kernel.Uids(before.events) == multiset{before.events[0].uid} + Kernel.Uids(events);
        assert Kernel.Dispose(State()).journal.released == Kernel.Dispose(before).journal.released;
      }
      assert journal.released + Kernel.Uids([]) == journal.released;
    }

    method Destroy()
      modifies this
      ensures State() == Kernel.Destroy(old(State())) && bridge == old(bridge)
    {
      while destroyEvents != []
        invariant bridge == old(bridge)
        invariant Kernel.Destroy(State()) == Kernel.Destroy(old(State()))
        decreases |destroyEvents|
      {
        ghost var before := State();
        var ev := destroyEvents[0];
        destroyEvents := destroyEvents[1..];
        if ev.impl !in cancelled {
          journal := journal.(ran := journal.ran + [ev.impl]);
          assert before.journal.ran + ([ev.impl] + Kernel.Alive(destroyEvents, cancelled))
              == (before.journal.ran + [ev.impl]) + Kernel.Alive(destroyEvents, cancelled);
        } else {
          assert [] + Kernel.Alive(destroyEvents, cancelled) == Kernel.Alive(destroyEvents, cancelled);
        }
      }
      assert journal.ran + [] == journal.ran;
    }

    // Moving the events to another scheduler keeps the list.
    method SetScheduler()
      requires ListScheduler.Sorted(events)
      modifies `events
      ensures State() == old(State())
    {
      var scheduler: seq<Event> := [];
      while events != []
        invariant scheduler + events == old(events)
        decreases |events|
      {
        var next := events[0];
        forall x | x in scheduler ensures ListScheduler.Before(x, next) {
          var i :| 0 <= i < |scheduler| && scheduler[i] == x;
          assert old(events)[i] == x && old(events)[|scheduler|] == next;
        }
        ListScheduler.InsertLast(scheduler, next);
        events := events[1..];
        scheduler := ListScheduler.Insert(scheduler, next);
      }
      events := scheduler;
    }

    method IsFinished() returns (finished: bool)
      ensures finished == (events == [] || stop)
    {
      finished := events == [] || stop;
    }

    method Stop()
      modifies `stop
      ensures State() == old(State()).(stop := true)
    {
      stop := true;
    }

    // ---------- scheduling ----------

    method InsertEvent(ts: nat, context: nat, job: Job)
      modifies `events, `uid, `unscheduledEvents, `journal
      ensures State() == Kernel.Insert(old(State()), ts, context, job)
    {
      var ev := Event(ts, uid, context, job);
      uid := uid + 1;
      unscheduledEvents := unscheduledEvents + 1;
      events := ListScheduler.Insert(events, ev);
      journal := journal.(issued := journal.issued + {IdOf(ev)});
    }

    method Schedule(delay: int, job: Job) returns (id: EventId)
      requires Attached() && bridge.Valid()
      modifies this, bridge
      ensures Attached() && bridge == old(bridge) && bridge.Valid()
      ensures bridge.Snapshot() == Federation.Schedule(old(bridge.Snapshot()), delay, job)
      ensures old(currentTs) + delay >= 0 ==> id == NextId(old(bridge.Snapshot()), old(currentTs) + delay)
    {
      hide MosaicNodeManager.Valid, MosaicNodeManager.State, MosaicNodeManager.Apps, Kernel.Insert, Bridge.WriteNextTime;
      var tAbsolute := currentTs + delay;
      id := EventId(NO_IMPL, 0, 0, 0);
      if tAbsolute < 0 {
        bridge.status := Exited(NegativeTime);  // the assertion fails
        return;
      }
      id := EventId(uid, tAbsolute, currentContext, uid);
      InsertEvent(tAbsolute, currentContext, job);
      bridge.WriteNextTime(tAbsolute);
    }

    method ScheduleWithContext(context: nat, delay: int, job: Job)
      requires Attached() && bridge.Valid()
      modifies this, bridge
      ensures Attached() && bridge == old(bridge) && bridge.Valid()
      ensures bridge.Snapshot() == ScheduleIn(old(bridge.Snapshot()), context, delay, job)
    {
      hide MosaicNodeManager.Valid, MosaicNodeManager.State, MosaicNodeManager.Apps, Kernel.Insert, Bridge.WriteNextTime;
      var ts := currentTs + delay;
      if ts < 0 {
        bridge.status := Exited(NegativeTime);
        return;
      }
      InsertEvent(ts, context, job);
      bridge.WriteNextTime(ts);
    }

    method ScheduleNow(job: Job) returns (id: EventId)
      modifies `events, `uid, `unscheduledEvents, `journal
      ensures State() == Kernel.Insert(old(State()), old(currentTs), old(currentContext), job)
      ensures id == EventId(old(uid), old(currentTs), old(currentContext), old(uid))
    {
      id := EventId(uid, currentTs, currentContext, uid);
      InsertEvent(currentTs, currentContext, job);
    }

    method ScheduleDestroy() returns (id: EventId)
      modifies `destroyEvents, `uid
      ensures (State(), id) == Kernel.ScheduleDestroy(old(State()))
    {
      id := EventId(uid, currentTs, NO_CONTEXT, DESTROY_UID);
      destroyEvents := destroyEvents + [id];
      uid := uid + 1;
    }

    // ---------- queries and removal ----------

    method IsExpired(id: EventId) returns (expired: bool)
      ensures expired == Kernel.IsExpired(State(), id)
    {
      if id.uid == DESTROY_UID {
        if id.impl == NO_IMPL || id.impl in cancelled {
          return true;
        }
        var i := 0;
        while i < |destroyEvents|
          invariant 0 <= i <= |destroyEvents| && id !in destroyEvents[..i]
        {
          if destroyEvents[i] == id {
            return false;
          }
          i := i + 1;
        }
        return true;
      }
      return id.impl == NO_IMPL || id.ts < currentTs || (id.ts == currentTs && id.uid <= currentUid) || id.impl in cancelled;
    }

    method GetDelayLeft(id: EventId) returns (delay: int)
      ensures delay == Kernel.GetDelayLeft(State(), id)
    {
      var expired := IsExpired(id);
      return if expired then 0 else id.ts - currentTs;
    }

    method Cancel(id: EventId)
      modifies `cancelled
      ensures State() == Kernel.Cancel(old(State()), id)
    {
      var expired := IsExpired(id);
      if !expired {
        cancelled := cancelled + {id.impl};
      }
    }

    method Remove(id: EventId)
      modifies this
      ensures State() == Kernel.Remove(old(State()), id) && bridge == old(bridge)
    {
      if id.uid == DESTROY_UID {
        EraseDestroyEvent(id);
        return;
      }
      var expired := IsExpired(id);
      if expired {
        return;
      }
      events := ListScheduler.Remove(events, id.uid);
      cancelled := cancelled + {id.impl};
      unscheduledEvents := unscheduledEvents - 1;
      journal := journal.(removed := journal.removed + {id.uid}, released := journal.released + multiset{id.uid});
    }

    method EraseDestroyEvent(id: EventId)
      modifies `destroyEvents
      ensures destroyEvents == Kernel.EraseFirst(old(destroyEvents), id)
    {
      var i := 0;
      while i < |destroyEvents|
        invariant 0 <= i <= |destroyEvents| && destroyEvents == old(destroyEvents)
        invariant Kernel.EraseFirst(old(destroyEvents), id) == destroyEvents[..i] + Kernel.EraseFirst(destroyEvents[i..], id)
      {
        if destroyEvents[i] == id {
          destroyEvents := destroyEvents[..i] + destroyEvents[i + 1..];
          return;
        }
        i := i + 1;
      }
    }

    // ---------- execution ----------

    // RemoveNext, and the clock set to the event.
    method TakeNext() returns (next: Event)
      requires events != []
      modifies this
      ensures bridge == old(bridge) && next == old(events)[0] && State() == Kernel.Pop(old(State()))
    {
      next := events[0];
      events := events[1..];
      unscheduledEvents := unscheduledEvents - 1;
      eventCount := eventCount + 1;
      currentTs := next.ts;
      currentContext := next.context;
      currentUid := next.uid;
      journal := journal.(executed := journal.executed + [next],
                          ran := journal.ran + if next.uid in cancelled then [] else [next.uid],
                          released := journal.released + multiset{next.uid});
    }

    method ProcessOneEvent()
      requires Attached() && bridge.Valid() && events != []
      modifies this, bridge, bridge.manager, bridge.manager.apps.Values, bridge.ns3
      ensures Attached() && bridge == old(bridge) && bridge.Valid()
      ensures fresh(bridge.manager.apps.Values - old(bridge.manager.apps.Values))
      ensures bridge.Snapshot() == RunOne(bridge.ns3.behaviour, old(bridge.Snapshot()))
    {
      hide MosaicNodeManager.Valid, MosaicNodeManager.State, MosaicNodeManager.Apps, Kernel.Pop, Invoked, RunOne, Kernel.IsExpired;
      RunOneCases(bridge.ns3.behaviour, bridge.Snapshot());
      if events[0].ts < currentTs {
        bridge.status := Exited(ClockAssertion);  // the assertion fails
        return;
      }
      var alive := events[0].uid !in cancelled;
      var next := TakeNext();
      if alive {
        bridge.Invoke(next.job);
      }
    }

    method RunOneEvent()
      requires Attached() && bridge.Valid() && events != []
      modifies this, bridge, bridge.manager, bridge.manager.apps.Values, bridge.ns3
      ensures Attached() && bridge == old(bridge) && bridge.Valid()
      ensures fresh(bridge.manager.apps.Values - old(bridge.manager.apps.Values))
      ensures bridge.Snapshot() == RunOne(bridge.ns3.behaviour, old(bridge.Snapshot()))
    {
      ProcessOneEvent();
    }
  }

  // What EventImpl::Invoke does for each kind of job, including the reaction of ns-3.
  ghost function Invoked(net: Network, w: World, job: Job): World {
    match job
    case Deferred(c) => Respond(net, w, Perform(w, c))
    case Timer(tag) => Respond(net, w, Note(w, [Manager.Fired(tag)]))
    case StopCall => w.(k := w.k.(stop := true))
  }

  lemma RunOneCases(net: Network, w: World)
    requires w.k.events != []
    ensures var e, w1 := w.k.events[0], w.(k := Kernel.Pop(w.k));
            RunOne(net, w) ==
            if e.ts < w.k.currentTs then Exit(w, ClockAssertion)
            else if e.uid in w.k.cancelled then w1
            else Invoked(net, w1, e.job)
  {
    hide Kernel.Pop, Manager.Apply, Acts;
  }

  class MosaicNs3Bridge {
    const sim: MosaicSimulatorImpl
    const manager: MosaicNodeManager
    const ns3: Ns3
    const preemptive: bool
    var started: bool
    var closeConnection: bool
    var currentAdvanceTime: nat
    var didRequestEventInThePast: bool
    var countTimeAdvanceGrant: nat
    var countNextEventRequest: nat
    var reportedTimes: set<nat>
    var output: seq<Wire.Item>  // federateAmbassadorChannel
    var acks: nat               // SUCCESS on ambassadorFederateChannel
    var status: Status          // how the process ended, if it did
    ghost var submitted: set<nat>
    ghost var log: seq<Bridge.Report>

    ghost predicate Valid()
      reads this, sim, manager, manager.apps.Values
    {
      sim.bridge == this && manager.Valid() && output == Wire.RenderAll(log)
    }

    ghost function State(): Bridge.State
      reads this
    {
      Bridge.State(preemptive, started, closeConnection, currentAdvanceTime, didRequestEventInThePast,
                   countTimeAdvanceGrant, countNextEventRequest, reportedTimes, submitted, log, acks)
    }

    ghost function Snapshot(): World
      requires manager.Valid()
      reads this, sim, manager, manager.apps.Values, ns3
    {
      World(sim.State(), State(), manager.State(), ns3.history, ns3.handles, status)
    }

    constructor (behaviour: Network, preemptive: bool, firstNode: nat, numExtra: nat)
      ensures Valid() && fresh(sim) && fresh(manager) && fresh(ns3) && fresh(manager.apps.Values)
      ensures ns3.behaviour == behaviour
      ensures Snapshot() == Federation.Initial(preemptive, firstNode, numExtra)
    {
      sim := new MosaicSimulatorImpl();
      manager := new MosaicNodeManager(firstNode, numExtra);
      ns3 := new Ns3(behaviour);
      this.preemptive := preemptive;
      started, closeConnection, currentAdvanceTime, didRequestEventInThePast := false, false, 0, false;
      countTimeAdvanceGrant, countNextEventRequest := 0, 0;
      reportedTimes, output, acks, status := {}, [], 0, Running;
      submitted, log := {}, [];
      new;
      sim.AttachBridge(this);
    }

    // ---------- writing ----------

    method Write(c: Wire.OutCommand, body: Wire.Item, ghost r: Bridge.Report)
      requires output == Wire.RenderAll(log) && Wire.Render(r) == [Wire.CommandItem(c), body]
      modifies `output, `log
      ensures output == Wire.RenderAll(log) && log == old(log) + [r]
    {
      Wire.RenderMore(log, r);
      output := output + [Wire.CommandItem(c)];
      output := output + [body];
      log := log + [r];
    }

    method WriteNextTime(nextTime: nat)
      requires output == Wire.RenderAll(log)
      modifies `reportedTimes, `submitted, `didRequestEventInThePast, `countNextEventRequest, `output, `log
      ensures output == Wire.RenderAll(log) && State() == Bridge.WriteNextTime(old(State()), nextTime)
    {
      hide Wire.RenderAll, Bridge.Trim;
      if preemptive {
        return;
      }
      submitted := submitted + {nextTime};
      if nextTime in reportedTimes {
        return;
      }
      reportedTimes := reportedTimes + {nextTime};
      TrimReportedTimes();
      if nextTime < currentAdvanceTime {
        didRequestEventInThePast := true;
      }
      countNextEventRequest := countNextEventRequest + 1;
      Write(Wire.NEXT_EVENT, Wire.TimeItem(nextTime), Bridge.NextEvent(nextTime));
    }

    method TrimReportedTimes()
      modifies `reportedTimes
      ensures reportedTimes == Bridge.Trim(old(reportedTimes))
    {
      while |reportedTimes| > 1000
        invariant Bridge.Trim(reportedTimes) == Bridge.Trim(old(reportedTimes))
        decreases |reportedTimes|
      {
        Bridge.MinExistsFor(reportedTimes);
        var first :| first in reportedTimes && forall y :: y in reportedTimes ==> first <= y;
        assert first == Bridge.Min(reportedTimes);
        reportedTimes := reportedTimes - {first};
      }
    }

    method WriteReceiveWifiMessage(recvTime: nat, node: nat, msg: int)
      requires output == Wire.RenderAll(log)
      modifies `didRequestEventInThePast, `countNextEventRequest, `output, `log
      ensures output == Wire.RenderAll(log)
      ensures State() == Bridge.WriteReceive(old(State()), Bridge.RecvWifi(recvTime, node, msg))
    {
      hide Wire.RenderAll;
      if recvTime < currentAdvanceTime {
        didRequestEventInThePast := true;
      }
      countNextEventRequest := countNextEventRequest + 1;
      Write(Wire.RECV_WIFI_MSG, Wire.WifiItem(recvTime, node, msg, PROTO_CCH, 0), Bridge.RecvWifi(recvTime, node, msg));
    }

    method WriteReceiveCellMessage(recvTime: nat, node: nat, msg: int)
      requires output == Wire.RenderAll(log)
      modifies `didRequestEventInThePast, `countNextEventRequest, `output, `log
      ensures output == Wire.RenderAll(log)
      ensures State() == Bridge.WriteReceive(old(State()), Bridge.RecvCell(recvTime, node, msg))
    {
      hide Wire.RenderAll;
      if recvTime < currentAdvanceTime {
        didRequestEventInThePast := true;
      }
      countNextEventRequest := countNextEventRequest + 1;
      Write(Wire.RECV_CELL_MSG, Wire.CellItem(recvTime, node, msg), Bridge.RecvCell(recvTime, node, msg));
    }

    // ---------- ns-3 acts ----------

    method Deliver(app: Manager.AppRef, msg: int)
      requires Valid()
      modifies this, manager.apps.Values
      ensures Valid() && manager.apps == old(manager.apps)
      ensures Snapshot() == Act(old(Snapshot()), Federation.Deliver(app, msg))
    {
      hide MosaicNodeManager.Valid, MosaicNodeManager.State, MosaicNodeManager.Apps, Manager.Receive, Bridge.WriteReceive, Wire.RenderAll;
      var d := manager.PacketArrives(app);
      match d
      case Ignored =>
      case Forwarded(wifi, id) =>
        if wifi {
          WriteReceiveWifiMessage(sim.currentTs, id, msg);
        } else {
          WriteReceiveCellMessage(sim.currentTs, id, msg);
        }
      case Lost(why) => status := Exited(why);
    }

    method ScheduleTimer(delay: int, tag: nat)
      requires Valid()
      modifies this, sim, ns3
      ensures Valid() && Snapshot() == Act(old(Snapshot()), Later(delay, tag))
    {
      hide MosaicNodeManager.Valid, MosaicNodeManager.State, MosaicNodeManager.Apps, Kernel.Insert, Bridge.WriteNextTime, Wire.RenderAll;
      var id := sim.Schedule(delay, Timer(tag));
      if status.Running? {
        ns3.handles := ns3.handles + [id];
      }
    }

    method Execute(a: Action)
      requires Valid()
      modifies this, sim, manager.apps.Values, ns3
      ensures Valid() && manager.apps == old(manager.apps)
      ensures Snapshot() == Act(old(Snapshot()), a)
    {
      hide MosaicNodeManager.Valid, MosaicNodeManager.State, MosaicNodeManager.Apps, Kernel.Insert, Kernel.Remove, Kernel.Cancel,
           Kernel.ScheduleDestroy, ScheduleIn, Manager.Receive, Wire.RenderAll;
      match a
      case Later(delay, tag) => ScheduleTimer(delay, tag);
      case LaterIn(context, delay, tag) => sim.ScheduleWithContext(context, delay, Timer(tag));
      case AtOnce(tag) => {
        var id := sim.ScheduleNow(Timer(tag));
        ns3.handles := ns3.handles + [id];
      }
      case AtDestroy => {
        var id := sim.ScheduleDestroy();
        ns3.handles := ns3.handles + [id];
      }
      case StopLater(delay) => {
        var _ := sim.Schedule(delay, StopCall);
      }
      case StopNow => sim.Stop();
      case RemoveEvent(i) =>
        if i < |ns3.handles| {
          sim.Remove(ns3.handles[i]);
        }
      case CancelEvent(i) =>
        if i < |ns3.handles| {
          sim.Cancel(ns3.handles[i]);
        }
      case Deliver(app, msg) => Deliver(app, msg);
      case SendError => status := Exited(SendFailed);
    }

    method ExecuteAll(actions: seq<Action>)
      requires Valid()
      modifies this, sim, manager.apps.Values, ns3
      ensures Valid() && manager.apps == old(manager.apps)
      ensures Snapshot() == Acts(old(Snapshot()), actions)
    {
      hide MosaicNodeManager.Valid, MosaicNodeManager.State, MosaicNodeManager.Apps, Wire.RenderAll, Act;
      var i := 0;
      while i < |actions| && status.Running?
        invariant 0 <= i <= |actions| && Valid() && manager.apps == old(manager.apps)
        invariant Acts(Snapshot(), actions[i..]) == Acts(old(Snapshot()), actions)
      {
        assert actions[i..][0] == actions[i] && actions[i..][1..] == actions[i + 1..];
        Execute(actions[i]);
        i := i + 1;
      }
    }

    // ns-3 learns of these effects and reacts.
    method Happen(effects: seq<Manager.Effect>)
      requires Valid()
      modifies this, sim, manager.apps.Values, ns3
      ensures Valid() && manager.apps == old(manager.apps)
      ensures Snapshot() == Respond(ns3.behaviour, old(Snapshot()), Note(old(Snapshot()), effects))
    {
      hide MosaicNodeManager.Valid, MosaicNodeManager.State, MosaicNodeManager.Apps, Acts, Wire.RenderAll;
      if effects != [] {
        ns3.history := ns3.history + [Stimulus(sim.currentTs, sim.uid, effects)];
        assert Snapshot() == Note(old(Snapshot()), effects);
        if status.Running? {
          ExecuteAll(ns3.behaviour(ns3.history));
        }
      }
    }

    // A manager call and, unless it ended the process, the reaction to it.
    method PerformCall(c: Call)
      requires Valid()
      modifies this, sim, manager, manager.apps.Values, ns3
      ensures Valid() && fresh(manager.apps.Values - old(manager.apps.Values))
      ensures Snapshot() == Respond(ns3.behaviour, old(Snapshot()), Perform(old(Snapshot()), c))
    {
      hide MosaicNodeManager.Valid, MosaicNodeManager.State, MosaicNodeManager.Apps, Acts, Wire.RenderAll, Manager.Apply;
      var effects, verdict := manager.Invoke(c);
      if verdict.Exit? {
        if effects != [] {
          ns3.history := ns3.history + [Stimulus(sim.currentTs, sim.uid, effects)];
        }
        status := Exited(verdict.why);
      } else {
        Happen(effects);
      }
    }

    method Invoke(job: Job)
      requires Valid()
      modifies this, sim, manager, manager.apps.Values, ns3
      ensures Valid() && fresh(manager.apps.Values - old(manager.apps.Values))
      ensures Snapshot() == Invoked(ns3.behaviour, old(Snapshot()), job)
    {
      hide MosaicNodeManager.Valid, MosaicNodeManager.State, MosaicNodeManager.Apps, Wire.RenderAll, Acts, Perform;
      match job
      case Deferred(c) => PerformCall(c);
      case Timer(tag) => Happen([Manager.Fired(tag)]);
      case StopCall => sim.Stop();
    }

    // ---------- commands ----------

    method WriteSuccess()
      requires Valid()
      modifies `acks
      ensures Valid() && Snapshot() == Ack(old(Snapshot()))
    {
      if status.Running? {
        acks := acks + 1;
      }
    }

    // m_sim->Schedule(tNext - m_sim->Now(), MakeEvent(...)), then SUCCESS.
    method Defer(time: nat, call: Call)
      requires Valid()
      modifies this, sim
      ensures Valid() && Snapshot() == Ack(ScheduleAll(old(Snapshot()), time, [call]))
    {
      hide MosaicNodeManager.Valid, MosaicNodeManager.State, MosaicNodeManager.Apps, Wire.RenderAll, ScheduleIn;
      OneCall(Snapshot(), time, call);
      var _ := sim.Schedule(time - sim.currentTs, Deferred(call));
      WriteSuccess();
    }

    method DeferMoves(time: nat, nodes: seq<(nat, Vector)>)
      requires Valid()
      modifies this, sim
      ensures Valid() && Snapshot() == Ack(ScheduleAll(old(Snapshot()), time, Moves(nodes)))
    {
      hide MosaicNodeManager.Valid, MosaicNodeManager.State, MosaicNodeManager.Apps, Wire.RenderAll, ScheduleIn;
      var i := 0;
      var now := sim.currentTs;
      while i < |nodes|
        invariant 0 <= i <= |nodes| && Valid() && sim.currentTs == now
        invariant ScheduleAll(Snapshot(), time, Moves(nodes[i..])) == ScheduleAll(old(Snapshot()), time, Moves(nodes))
      {
        ghost var w := Snapshot();
        assert nodes[i..][0] == nodes[i] && nodes[i..][1..] == nodes[i + 1..];
        var call := UpdateNodePosition(nodes[i].0, nodes[i].1);
        FirstCall(w, time, call, Moves(nodes[i + 1..]));
        ScheduleKeepsClock(w, time - now, Deferred(call));
        var _ := sim.Schedule(time - now, Deferred(call));
        i := i + 1;
      }
      WriteSuccess();
    }

    method CallNow(call: Call)
      requires Valid()
      modifies this, sim, manager, manager.apps.Values, ns3
      ensures Valid() && fresh(manager.apps.Values - old(manager.apps.Values))
      ensures Snapshot() == Ack(Respond(ns3.behaviour, old(Snapshot()), Perform(old(Snapshot()), call)))
    {
      hide Respond, Perform, Valid, MosaicNodeManager.Valid;
      PerformCall(call);
      WriteSuccess();
    }

    method WriteReply(t: nat, end: bool)
      requires Valid()
      modifies `output, `log
      ensures Valid()
      ensures Snapshot() == Reply(old(Snapshot()), if end then Bridge.End(t) else Bridge.Preempted(t))
    {
      hide MosaicNodeManager.Valid, MosaicNodeManager.State, MosaicNodeManager.Apps, Wire.RenderAll;
      if end {
        Write(Wire.END, Wire.TimeItem(t), Bridge.End(t));
      } else {
        Write(Wire.PREEMPTED, Wire.TimeItem(t), Bridge.Preempted(t));
      }
    }

    method OnStartOnce()
      requires Valid()
      modifies this, sim, manager, manager.apps.Values, ns3
      ensures Valid() && fresh(manager.apps.Values - old(manager.apps.Values))
      ensures Snapshot() == if old(started) then old(Snapshot())
                            else MarkStarted(Respond(ns3.behaviour, old(Snapshot()), Launch(old(Snapshot()))))
    {
      hide MosaicNodeManager.Valid, MosaicNodeManager.State, MosaicNodeManager.Apps, Wire.RenderAll, Acts, Manager.MakeSpares;
      if !started {
        var effects, verdict := manager.OnStart();
        Happen(effects);
        if status.Running? {
          started := true;
        }
      }
    }

    // The loop of ADVANCE_TIME; that it ends is assumed here and proved from bounds on ns-3 elsewhere.
    method RunGrant()
      requires Valid() && LoopEnds(ns3.behaviour, Snapshot())
      modifies this, sim, manager, manager.apps.Values, ns3
      ensures Valid() && fresh(manager.apps.Values - old(manager.apps.Values))
      ensures Snapshot() == Drain(ns3.behaviour, old(Snapshot()))
    {
      hide MosaicNodeManager.Valid, MosaicNodeManager.State, MosaicNodeManager.Apps, Wire.RenderAll, RunOne;
      ghost var net, w := ns3.behaviour, Snapshot();
      ghost var n: nat :| EndsAfter(net, w, n) && Drain(net, w) == Loop(net, w, n);
      ghost var left := n;
      while status.Running? && sim.events != [] && !sim.stop && sim.events[0].ts <= currentAdvanceTime
        invariant Valid() && fresh(manager.apps.Values - old(manager.apps.Values))
        invariant Loop(net, Snapshot(), left) == Loop(net, w, n)
        decreases left
      {
        if preemptive && didRequestEventInThePast {
          break;
        }
        assert left > 0;
        sim.RunOneEvent();
        left := left - 1;
      }
    }

    method OpenGrant(t: nat)
      requires Valid()
      modifies this, sim, manager, manager.apps.Values, ns3
      ensures Valid() && fresh(manager.apps.Values - old(manager.apps.Values))
      ensures Snapshot() == Open(ns3.behaviour, old(Snapshot()), t)
    {
      hide MosaicNodeManager.Valid, MosaicNodeManager.State, MosaicNodeManager.Apps, Wire.RenderAll, Launch, Respond, MarkStarted, StartGrant;
      currentAdvanceTime := t;
      OnStartOnce();
      CountGrant();
    }

    method CountGrant()
      requires Valid()
      modifies `countTimeAdvanceGrant, `didRequestEventInThePast
      ensures Valid() && Snapshot() == StartGrant(old(Snapshot()))
    {
      if status.Running? {
        countTimeAdvanceGrant := countTimeAdvanceGrant + 1;
        didRequestEventInThePast := false;
      }
    }

    method SkipTimeZero()
      requires Valid()
      modifies this
      ensures Valid() && Snapshot() == Advance(ns3.behaviour, old(Snapshot()), 0)
    {
      hide MosaicNodeManager.Valid, MosaicNodeManager.State, MosaicNodeManager.Apps, Wire.RenderAll, Bridge.WriteNextTime;
      currentAdvanceTime := 0;
      WriteNextTime(1);
      WriteReply(sim.currentTs, true);
    }

    method AdvanceTo(t: nat)
      requires Valid()
      requires t > 0 ==> LoopEnds(ns3.behaviour, Open(ns3.behaviour, Snapshot(), t))
      modifies this, sim, manager, manager.apps.Values, ns3
      ensures Valid() && fresh(manager.apps.Values - old(manager.apps.Values))
      ensures Snapshot() == Advance(ns3.behaviour, old(Snapshot()), t)
    {
      hide MosaicNodeManager.Valid, MosaicNodeManager.State, MosaicNodeManager.Apps, Wire.RenderAll, Drain, Open, LoopEnds;
      if t == 0 {
        SkipTimeZero();
        return;
      }
      OpenGrant(t);
      RunGrant();
      if status.Running? {
        WriteReply(sim.currentTs, !(preemptive && didRequestEventInThePast));
      }
    }

    method DispatchAddNode(kind: AddKind, time: nat, id: nat, pos: Vector)
      requires Valid()
      modifies this, sim, manager, manager.apps.Values, ns3
      ensures Valid() && fresh(manager.apps.Values - old(manager.apps.Values))
      ensures Snapshot() == Dispatch(ns3.behaviour, old(Snapshot()), AddNode(kind, time, id, pos))
    {
      hide MosaicNodeManager.Valid, MosaicNodeManager.State, MosaicNodeManager.Apps, Wire.RenderAll, ScheduleAll, Respond, Perform, Ack;
      match kind
      case AddRadio => {
        if !started {
          CallNow(CreateRadioNode(id, pos));
        } else {
          Defer(time, ActivateRadioNode(id, pos));
        }
      }
      case AddWired => {
        if !started {
          CallNow(CreateWiredNode(id));
        } else {
          Defer(time, CreateWiredNode(id));
        }
      }
      case AddNodeB => {
        if !started {
          CallNow(CreateNodeB(pos));
        } else {
          status := Exited(LateNodeB);
        }
      }
      case AddOther => closeConnection := true;
    }

    method DispatchConfCellRadio(time: nat, id: nat, ip: Ipv4)
      requires Valid()
      modifies this, sim, manager, manager.apps.Values, ns3
      ensures Valid() && fresh(manager.apps.Values - old(manager.apps.Values))
      ensures Snapshot() == Dispatch(ns3.behaviour, old(Snapshot()), ConfCellRadio(time, id, ip))
    {
      hide MosaicNodeManager.Valid, MosaicNodeManager.State, MosaicNodeManager.Apps, Wire.RenderAll, ScheduleAll, Respond, Perform, Ack;
      if !started {
        CallNow(ConfigureCellRadio(id, ip));
      } else {
        Defer(time, ConfigureCellRadio(id, ip));
      }
    }

    // The commands that are always deferred.
    method DispatchDeferred(c: Command)
      requires Valid()
      requires c.UpdateNode? || c.DeleteNode? || c.ConfWifiRadio? || c.SendWifi? || c.SendCell?
      modifies this, sim
      ensures Valid() && manager.apps == old(manager.apps)
      ensures Snapshot() == Dispatch(ns3.behaviour, old(Snapshot()), c)
    {
      hide MosaicNodeManager.Valid, MosaicNodeManager.State, MosaicNodeManager.Apps, Wire.RenderAll, ScheduleAll, Ack;
      match c
      case UpdateNode(time, nodes) => DeferMoves(time, nodes);
      case DeleteNode(time, id) => Defer(time, RemoveNode(id));
      case ConfWifiRadio(time, id, single, power, ip) => {
        if single {
          Defer(time, ConfigureWifiRadio(id, power, ip));
        } else {
          status := Exited(UnsupportedRadio);
        }
      }
      case SendWifi(time, id, dst, channel, msg, length) =>
        Defer(if time == 0 then 1 else time, SendWifiMsg(id, dst, channel, msg, length));
      case SendCell(time, id, dst, msg, length) =>
        Defer(if time == 0 then 1 else time, SendCellMsg(id, dst, msg, length));
    }

    method ShutDownNow()
      requires Valid()
      modifies this, sim
      ensures Valid() && manager.apps == old(manager.apps) && Snapshot() == Finishing(old(Snapshot()))
    {
      hide MosaicNodeManager.Valid, MosaicNodeManager.State, MosaicNodeManager.Apps, Wire.RenderAll, Kernel.Destroy;
      closeConnection := true;
      sim.Destroy();
    }

    method DispatchCommand(c: Command)
      requires Valid()
      requires c.AdvanceTime? && c.time > 0 ==> LoopEnds(ns3.behaviour, Open(ns3.behaviour, Snapshot(), c.time))
      modifies this, sim, manager, manager.apps.Values, ns3
      ensures Valid() && fresh(manager.apps.Values - old(manager.apps.Values))
      ensures Snapshot() == Dispatch(ns3.behaviour, old(Snapshot()), c)
    {
      hide MosaicNodeManager.Valid, MosaicNodeManager.State, MosaicNodeManager.Apps, Wire.RenderAll, Open, LoopEnds,
           ScheduleAll, Advance, Respond, Perform, Finishing, Ack, Moves;
      match c
      case AddNode(kind, time, id, pos) => DispatchAddNode(kind, time, id, pos);
      case AdvanceTime(time) => AdvanceTo(time);
      case ConfCellRadio(time, id, ip) => DispatchConfCellRadio(time, id, ip);
      case ShutDown => ShutDownNow();
      case InitAgain =>
      case Unknown => closeConnection := true;
      case _ => DispatchDeferred(c);
    }

    // The commands arrive one after another until the connection closes.
    method Run(commands: seq<Command>)
      requires Valid() && AllGrantsEnd(ns3.behaviour, Snapshot(), commands)
      modifies this, sim, manager, manager.apps.Values, ns3
      ensures Valid()
      ensures Snapshot() == Federation.Run(ns3.behaviour, old(Snapshot()), commands)
      ensures Wire.Parse(output) == Wrappers.Some(Snapshot().b.log)
    {
      hide MosaicNodeManager.Valid, MosaicNodeManager.State, MosaicNodeManager.Apps, Wire.RenderAll, Dispatch, LoopEnds, Open;
      var i := 0;
      ghost var net, w := ns3.behaviour, Snapshot();
      while i < |commands| && status.Running? && !closeConnection
        invariant 0 <= i <= |commands| && Valid() && fresh(manager.apps.Values - old(manager.apps.Values))
        invariant AllGrantsEnd(net, Snapshot(), commands[i..])
        invariant Federation.Run(net, Snapshot(), commands[i..]) == Federation.Run(net, w, commands)
      {
        assert commands[i..][0] == commands[i] && commands[i..][1..] == commands[i + 1..];
        DispatchCommand(commands[i]);
        i := i + 1;
      }
      Wire.ParseRendered(log);
    }
  }

  lemma OneCall(w: World, time: nat, call: Call)
    ensures ScheduleAll(w, time, [call]) == Schedule(w, time - w.k.currentTs, Deferred(call))
  {
    assert ScheduleAll(w, time, [call])
        == ScheduleAll(Schedule(w, time - w.k.currentTs, Deferred(call)), time, [call][1..]);
  }

  lemma FirstCall(w: World, time: nat, call: Call, rest: seq<Call>)
    ensures ScheduleAll(w, time, [call] + rest) == ScheduleAll(Schedule(w, time - w.k.currentTs, Deferred(call)), time, rest)
  {
    assert ([call] + rest)[1..] == rest;
  }

  lemma ScheduleKeepsClock(w: World, delay: int, job: Job)
    ensures Schedule(w, delay, job).k.currentTs == w.k.currentTs
  {
    hide Bridge.WriteNextTime;
  }

  // No grant of the stream meets a simulation that never comes to an end.
  ghost predicate AllGrantsEnd(net: Network, w: World, cs: seq<Command>)
    decreases |cs|
  {
    cs == [] || !Listening(w) ||
    ((cs[0].AdvanceTime? && cs[0].time > 0 ==> LoopEnds(net, Open(net, w, cs[0].time)))
     && AllGrantsEnd(net, Dispatch(net, w, cs[0]), cs[1..]))
  }
}
