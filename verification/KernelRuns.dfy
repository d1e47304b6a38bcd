// The kernel's invariant at every moment of a run of the federate, and what callers get from it.
module KernelRuns {
  import opened Types
  import opened Federation
  import opened Steps
  import opened Walks
  import Kernel
  import KernelTheory
  import ManagerTheory
  import Bridge
  import ListScheduler
  import Manager

  // ns-3 holds only ids the kernel gave it; none of them names a deferred command, so no command is cancelled.
  ghost predicate ClientInv(k: Kernel.State, handles: seq<EventId>) {
    && (forall h :: h in handles ==> h.uid == DESTROY_UID || h in k.journal.issued)
    && (forall e, h :: e in k.events && e.job.Deferred? && h in handles ==> h.uid != e.uid)
    && (forall e :: e in k.events && e.job.Deferred? ==> e.uid !in k.cancelled)
  }

  ghost predicate KernelSound(k: Kernel.State, handles: seq<EventId>) {
    Kernel.Inv(k) && ClientInv(k, handles)
  }

  ghost predicate Sound(w: World) {
    KernelSound(w.k, w.handles) && w.status != Exited(ClockAssertion) && w.status != Exited(NegativeTime)
  }

  // ---------- each kernel operation of a run keeps KernelSound ----------

  lemma FreshUid(k: Kernel.State, handles: seq<EventId>)
    requires KernelSound(k, handles)
    ensures forall h :: h in handles ==> h.uid < k.uid
    ensures forall u :: u in k.cancelled ==> u < k.uid
  {
    forall h | h in handles ensures h.uid < k.uid {
      assert h in k.journal.issued ==> Kernel.Fate(k, h);
    }
  }

  lemma InsertClients(k: Kernel.State, handles: seq<EventId>, ts: nat, context: nat, job: Job)
    requires ClientInv(k, handles)
    requires (forall h :: h in handles ==> h.uid < k.uid) && (forall u :: u in k.cancelled ==> u < k.uid)
    requires forall e :: e in k.events ==> e.uid < k.uid
    ensures ClientInv(Kernel.Insert(k, ts, context, job), handles)
    ensures !job.Deferred? ==>
              ClientInv(Kernel.Insert(k, ts, context, job), handles + [EventId(k.uid, ts, context, k.uid)])
  {
  }

  lemma InsertIsSound(k: Kernel.State, handles: seq<EventId>, ts: nat, context: nat, job: Job)
    requires KernelSound(k, handles) && k.currentTs <= ts
    ensures KernelSound(Kernel.Insert(k, ts, context, job), handles)
    ensures !job.Deferred? ==>
              KernelSound(Kernel.Insert(k, ts, context, job), handles + [EventId(k.uid, ts, context, k.uid)])
  {
    KernelTheory.InsertKeeps(k, ts, context, job);
    FreshUid(k, handles);
    InsertClients(k, handles, ts, context, job);
  }

  lemma DestroyIdIsSound(k: Kernel.State, handles: seq<EventId>)
    requires KernelSound(k, handles)
    ensures KernelSound(Kernel.ScheduleDestroy(k).0, handles + [Kernel.ScheduleDestroy(k).1])
  {
    KernelTheory.ScheduleDestroyKeeps(k);
    assert forall e :: e in k.events ==> e.uid != DESTROY_UID;
  }

  // The id of a handle that is not expired is not the EventImpl of a deferred command.
  lemma HandleIsNoCommand(k: Kernel.State, handles: seq<EventId>, h: EventId)
    requires KernelSound(k, handles) && h in handles && !Kernel.IsExpired(k, h)
    ensures forall e :: e in k.events && e.job.Deferred? ==> e.uid != h.impl
  {
    if h.uid == DESTROY_UID {
      assert h in k.destroyEvents;
      forall e | e in k.events ensures e.uid != h.impl {
        assert IdOf(e) in k.journal.issued;
      }
    } else {
      assert Kernel.Fate(k, h);
    }
  }

  lemma RemoveIsSound(k: Kernel.State, handles: seq<EventId>, h: EventId)
    requires KernelSound(k, handles) && h in handles
    ensures KernelSound(Kernel.Remove(k, h), handles)
  {
    KernelTheory.RemoveKeeps(k, h);
    if !Kernel.IsExpired(k, h) {
      HandleIsNoCommand(k, handles, h);
    }
  }

  lemma CancelIsSound(k: Kernel.State, handles: seq<EventId>, h: EventId)
    requires KernelSound(k, handles) && h in handles
    ensures KernelSound(Kernel.Cancel(k, h), handles)
  {
    KernelTheory.CancelKeeps(k, h);
    if !Kernel.IsExpired(k, h) {
      HandleIsNoCommand(k, handles, h);
    }
  }

  lemma StopIsSound(k: Kernel.State, handles: seq<EventId>)
    requires KernelSound(k, handles)
    ensures KernelSound(k.(stop := true), handles)
  {
    KernelTheory.StopKeeps(k, true);
  }

  lemma PopIsSound(k: Kernel.State, handles: seq<EventId>)
    requires KernelSound(k, handles) && k.events != []
    ensures k.currentTs <= k.events[0].ts
    ensures KernelSound(Kernel.Pop(k), handles)
  {
    KernelTheory.PopKeeps(k);
    assert forall e :: e in Kernel.Pop(k).events ==> e in k.events;
  }

  lemma DestroyIsSound(k: Kernel.State, handles: seq<EventId>)
    requires KernelSound(k, handles)
    ensures KernelSound(Kernel.Destroy(k), handles)
  {
    KernelTheory.DestroyKeeps(k);
  }

  // ---------- every step, hence every walk and every run ----------

  lemma ActIsSound(w: World, a: Action)
    requires Sound(w) && w.status.Running? && CausalAction(a)
    ensures Sound(Act(w, a))
  {
    hide KernelSound, Kernel.Insert, Kernel.Remove, Kernel.Cancel, Kernel.ScheduleDestroy;
    var k, hs, now, context := w.k, w.handles, w.k.currentTs, w.k.currentContext;
    match a
    case Later(delay, tag) => InsertIsSound(k, hs, now + delay, context, Timer(tag));
    case LaterIn(context', delay, tag) => InsertIsSound(k, hs, now + delay, context', Timer(tag));
    case AtOnce(tag) => InsertIsSound(k, hs, now, context, Timer(tag));
    case AtDestroy => DestroyIdIsSound(k, hs);
    case StopLater(delay) => InsertIsSound(k, hs, now + delay, context, StopCall);
    case StopNow => StopIsSound(k, hs);
    case RemoveEvent(i) => if i < |hs| { RemoveIsSound(k, hs, hs[i]); }
    case CancelEvent(i) => if i < |hs| { CancelIsSound(k, hs, hs[i]); }
    case Deliver(app, msg) =>
    case SendError =>
  }

  lemma BeginIsSound(w: World)
    requires Sound(w) && w.k.events != []
    ensures Sound(Begin(w)) && Begin(w).k.currentTs == w.k.events[0].ts
  {
    hide KernelSound, Kernel.IsExpired, Manager.Apply;
    PopIsSound(w.k, w.handles);
    StopIsSound(Kernel.Pop(w.k), w.handles);
    if w.k.events[0].job.Deferred? {
      ManagerTheory.ManagerReasons(w.m, w.k.events[0].job.call);
    }
  }

  lemma StepIsSound(w: World, s: Step)
    requires Sound(w) && Enabled(w, s, true)
    ensures Sound(Take(w, s))
  {
    hide KernelSound, Kernel.Insert, Kernel.Destroy, Manager.Apply, Act, Begin, Bridge.WriteNextTime;
    match s
    case DoAct(a) => ActIsSound(w, a);
    case DoBegin => BeginIsSound(w);
    case DoPerform(c) => ManagerTheory.ManagerReasons(w.m, c);
    case DoSchedule(t, c) => InsertIsSound(w.k, w.handles, t, w.k.currentContext, Deferred(c));
    case DoFinish => DestroyIsSound(w.k, w.handles);
    case _ =>
  }

  lemma SoundIsKept()
    ensures Kept((x: World) => Sound(x), true)
  {
    forall x, s | Sound(x) && Enabled(x, s, true) ensures Sound(Take(x, s)) {
      StepIsSound(x, s);
    }
  }

  // At every moment of a run, in the middle of handlers and grants too, the kernel's invariant holds and no
  // assertion of the kernel has failed: executed keys strictly increase, and the clock never runs backwards.
  lemma WalkIsSound(w: World, ss: seq<Step>)
    requires Sound(w) && Possible(w, ss, true)
    ensures Sound(Walk(w, ss))
  {
    SoundIsKept();
    WalkKeeps(w, ss, (x: World) => Sound(x), true);
  }

  lemma RunIsSound(net: Network, w: World, cs: seq<Command>)
    requires Sound(w) && Causal(net) && AllInTime(net, w, cs)
    ensures Sound(Run(net, w, cs))
  {
    SoundIsKept();
    RunKeeps(net, w, cs, (x: World) => Sound(x), true);
  }

  // ---------- what callers of the kernel see, at any moment ----------

  // Not expired means: still queued and not cancelled. Remove then finds exactly that event, and Now plus
  // GetDelayLeft is its time.
  lemma ExpiryIsMembership(w: World, ss: seq<Step>, id: EventId)
    requires Sound(w) && Possible(w, ss, true) && id in Walk(w, ss).k.journal.issued
    ensures var k := Walk(w, ss).k;
      && (!Kernel.IsExpired(k, id) <==> Kernel.Queued(k, id) && id.impl !in k.cancelled)
      && (!Kernel.IsExpired(k, id) ==> k.currentTs + Kernel.GetDelayLeft(k, id) == id.ts)
      && (!Kernel.IsExpired(k, id) ==>
            forall e :: e in Kernel.Remove(k, id).events <==> e in k.events && IdOf(e) != id)
  {
    WalkIsSound(w, ss);
    var k := Walk(w, ss).k;
    KernelTheory.ExpiredIffGone(k, id);
    if !Kernel.IsExpired(k, id) {
      KernelTheory.RemoveFindsItsEvent(k, id);
    }
  }

  // At any moment each inserted event was executed, removed or is queued, in exactly one of the three ways, and
  // disposing of the kernel then has given back each list reference exactly once.
  lemma RunsConserveEvents(w: World, ss: seq<Step>, id: EventId)
    requires Sound(w) && Possible(w, ss, true) && id in Walk(w, ss).k.journal.issued
    ensures var k := Walk(w, ss).k;
      && |k.journal.issued| == k.eventCount + |k.journal.removed| + |k.events|
      && k.unscheduledEvents == |k.events|
      && (Kernel.Queued(k, id) || Kernel.Executed(k, id) || id.uid in k.journal.removed)
      && !(Kernel.Queued(k, id) && Kernel.Executed(k, id))
      && !(id.uid in k.journal.removed && (Kernel.Queued(k, id) || Kernel.Executed(k, id)))
      && Kernel.Dispose(k).journal.released[id.uid] == 1
  {
    WalkIsSound(w, ss);
    var k := Walk(w, ss).k;
    assert Kernel.Fate(k, id);
    KernelTheory.EveryReferenceReleasedOnce(k, id);
  }

  lemma StepKeepsCancelled(w: World, s: Step, u: nat)
    requires u in w.k.cancelled
    ensures u in Take(w, s).k.cancelled
  {
    hide ListScheduler.Insert, ListScheduler.Remove, Bridge.WriteNextTime, Manager.Apply, Manager.Receive, Manager.MakeSpares;
  }

  // From the moment an event is cancelled or removed its handler never runs, nor did it before.
  lemma CancelledHandlersNeverRun(w: World, ss: seq<Step>, u: nat)
    requires Sound(w) && Possible(w, ss, true) && u in w.k.cancelled
    ensures u !in Walk(w, ss).k.journal.ran
  {
    var I := (x: World) => Sound(x) && u in x.k.cancelled;
    forall x, s | I(x) && Enabled(x, s, true) ensures I(Take(x, s)) {
      StepIsSound(x, s);
      StepKeepsCancelled(x, s, u);
    }
    WalkKeeps(w, ss, I, true);
  }

  // ---------- deferred commands ----------

  ghost predicate Pending(w: World, e: Event) {
    e in w.k.events || (e in w.k.journal.executed && e.uid in w.k.journal.ran)
  }

  lemma ActKeepsCommand(w: World, a: Action, e: Event)
    requires Sound(w) && e.job.Deferred? && Pending(w, e)
    ensures Pending(Act(w, a), e)
  {
    hide Kernel.Inv;
    if a.RemoveEvent? && a.handle < |w.handles| {
      assert w.handles[a.handle] in w.handles;
    }
  }

  lemma BeginKeepsCommand(w: World, e: Event)
    requires Sound(w) && w.k.events != [] && e.job.Deferred? && Pending(w, e)
    ensures Pending(Begin(w), e)
  {
    hide Kernel.Inv, Manager.Apply;
    var k := Kernel.Pop(w.k);
    assert w.k.events[0] == k.journal.executed[|w.k.journal.executed|];
    assert forall x :: x in w.k.events ==> x == w.k.events[0] || x in k.events;
  }

  lemma StepKeepsCommand(w: World, s: Step, e: Event)
    requires Sound(w) && Enabled(w, s, true) && e.job.Deferred? && Pending(w, e)
    ensures Pending(Take(w, s), e)
  {
    hide Kernel.Inv, Act, Begin, Manager.Apply, Bridge.WriteNextTime;
    match s
    case DoAct(a) => ActKeepsCommand(w, a, e);
    case DoBegin => BeginKeepsCommand(w, e);
    case _ =>
  }

  lemma CommandIsKept(e: Event)
    requires e.job.Deferred?
    ensures Kept((x: World) => Sound(x) && Pending(x, e), true)
  {
    forall x, s | Sound(x) && Pending(x, e) && Enabled(x, s, true) ensures Sound(Take(x, s)) && Pending(Take(x, s), e) {
      StepIsSound(x, s);
      StepKeepsCommand(x, s, e);
    }
  }

  // No command is lost: it stays queued until its handler has run.
  lemma CommandIsNotLost(w: World, ss: seq<Step>, e: Event)
    requires Sound(w) && Possible(w, ss, true) && e.job.Deferred? && Pending(w, e)
    ensures Pending(Walk(w, ss), e) && Sound(Walk(w, ss))
  {
    CommandIsKept(e);
    WalkKeeps(w, ss, (x: World) => Sound(x) && Pending(x, e), true);
  }

  // Of two queued commands the one with the earlier time runs first, and with equal times the one that arrived
  // first: deferred commands run in the order of a stable sort by time.
  lemma CommandsRunInStableOrder(w: World, ss: seq<Step>, first: Event, second: Event)
    requires Sound(w) && Possible(w, ss, true)
    requires first in w.k.events && second in w.k.events && first.job.Deferred? && second.job.Deferred?
    requires ListScheduler.Before(first, second) && second in Walk(w, ss).k.journal.executed
    ensures var done := Walk(w, ss).k.journal.executed;
            exists i, j :: 0 <= i < j < |done| && done[i] == first && done[j] == second
  {
    CommandIsNotLost(w, ss, first);
    hide Walk, Possible;
    ExecutedInOrder(Walk(w, ss).k, first, second);
  }

  lemma ExecutedInOrder(k: Kernel.State, first: Event, second: Event)
    requires Kernel.Inv(k) && ListScheduler.Before(first, second) && second in k.journal.executed
    requires first in k.events || first in k.journal.executed
    ensures exists i, j :: 0 <= i < j < |k.journal.executed|
                           && k.journal.executed[i] == first && k.journal.executed[j] == second
  {
    assert Kernel.Fate(k, IdOf(second)) && Kernel.Executed(k, IdOf(second));
    assert first in k.journal.executed;
    var i :| 0 <= i < |k.journal.executed| && k.journal.executed[i] == first;
    var j :| 0 <= j < |k.journal.executed| && k.journal.executed[j] == second;
    assert i > j ==> ListScheduler.Before(second, first);
    assert i < j;
  }

  // ---------- how an event leaves the list ----------

  // ns-3 removes this event, by an id it holds.
  predicate RemovesIt(w: World, a: Action, e: Event) {
    a.RemoveEvent? && a.handle < |w.handles| && w.handles[a.handle] == IdOf(e) && !Kernel.IsExpired(w.k, IdOf(e))
  }

  lemma ActTakesEvent(w: World, a: Action, e: Event)
    requires Sound(w) && e in w.k.events
    ensures e in Act(w, a).k.events <==> !RemovesIt(w, a, e)
  {
    hide KernelSound, Bridge.WriteNextTime, Manager.Receive, Kernel.Remove, Kernel.Cancel, Kernel.IsExpired;
    if a.RemoveEvent? && a.handle < |w.handles| {
      RemovalTakesEvent(w, w.handles[a.handle], e);
    } else if a.CancelEvent? && a.handle < |w.handles| {
      CancelKeepsEvents(w.k, w.handles[a.handle]);
    }
  }

  lemma CancelKeepsEvents(k: Kernel.State, id: EventId)
    ensures Kernel.Cancel(k, id).events == k.events
  {
  }

  lemma RemovalTakesEvent(w: World, h: EventId, e: Event)
    requires Sound(w) && e in w.k.events && h in w.handles
    ensures e in Kernel.Remove(w.k, h).events <==> !(h == IdOf(e) && !Kernel.IsExpired(w.k, h))
  {
    assert IdOf(e) in w.k.journal.issued;
    if h.uid != DESTROY_UID && !Kernel.IsExpired(w.k, h) {
      KernelTheory.RemoveFindsItsEvent(w.k, h);
    }
    hide Kernel.Inv, ListScheduler.Remove;
  }

  lemma StepTakesEvent(w: World, s: Step, e: Event)
    requires Sound(w) && Enabled(w, s, true) && e in w.k.events && e !in Take(w, s).k.events
    ensures (s.DoBegin? && w.k.events[0] == e) || (s.DoAct? && RemovesIt(w, s.action, e))
  {
    hide KernelSound, Act, Manager.Apply, Bridge.WriteNextTime;
    if s.DoAct? {
      ActTakesEvent(w, s.action, e);
    } else if s.DoBegin? {
      assert forall x :: x in w.k.events ==> x == w.k.events[0] || x in w.k.events[1..];
    }
  }

  // An event leaves the list in two ways only: it is the head and is executed, or ns-3 removes it.
  lemma {:induction false} EventLeavesInTwoWays(w: World, ss: seq<Step>, e: Event) returns (i: nat)
    requires Sound(w) && Possible(w, ss, true) && e in w.k.events && e !in Walk(w, ss).k.events
    ensures i < |ss|
    ensures var x := Walk(w, ss[..i]);
      && Sound(x) && e in x.k.events && Walk(w, ss[..i + 1]) == Take(x, ss[i])
      && ((ss[i] == DoBegin && x.k.events[0] == e) || (ss[i].DoAct? && RemovesIt(x, ss[i].action, e)))
    decreases |ss|
  {
    hide KernelSound, Take, Kernel.IsExpired, RemovesIt;
    var w1 := Take(w, ss[0]);
    StepIsSound(w, ss[0]);
    if e in w1.k.events {
      i := EventLeavesInTwoWays(w1, ss[1..], e);
      FirstStep(w, ss, i + 1);
      FirstStep(w, ss, i + 2);
      i := i + 1;
    } else {
      i := 0;
      StepTakesEvent(w, ss[0], e);
      FirstStep(w, ss, 1);
    }
  }

  // What executing the head does: the clock and the context become those of the event, and its handler is called,
  // unless the event is cancelled. The handler of an ns-3 event tells ns-3 to run it, at its time.
  lemma HandlerOfHead(w: World)
    requires Sound(w) && w.k.events != []
    ensures var e, x := w.k.events[0], Begin(w);
      && x.k.currentTs == e.ts && x.k.currentContext == e.context && x.k.currentUid == e.uid
      && x.k.journal.executed == w.k.journal.executed + [e] && x.k.events == w.k.events[1..]
      && x.k.journal.ran == w.k.journal.ran + (if e.uid in w.k.cancelled then [] else [e.uid])
      && (if e.uid in w.k.cancelled then x == w.(k := x.k) && x.k.stop == w.k.stop
          else match e.job
               case Deferred(c) => x == Perform(w.(k := x.k), c)
               case Timer(tag) => x == w.(k := x.k, history := w.history + [Stimulus(e.ts, w.k.uid, [Manager.Fired(tag)])])
               case StopCall => x == w.(k := x.k) && x.k.stop)
  {
    hide Manager.Apply, KernelSound;
    PopIsSound(w.k, w.handles);
  }

  // Commands cannot be removed or cancelled: the handler of a command that left the list was called, with Now equal to
  // the command's time.
  lemma CommandRunsAtItsTime(w: World, ss: seq<Step>, e: Event) returns (i: nat)
    requires Sound(w) && Possible(w, ss, true) && e.job.Deferred?
    requires e in w.k.events && e !in Walk(w, ss).k.events
    ensures i < |ss| && ss[i] == DoBegin
    ensures var x := Walk(w, ss[..i]);
      && x.k.events != [] && x.k.events[0] == e
      && var x1 := x.(k := Kernel.Pop(x.k));
      x1.k.currentTs == e.ts && x1.k.currentContext == e.context && Walk(w, ss[..i + 1]) == Perform(x1, e.job.call)
  {
    i := EventLeavesInTwoWays(w, ss, e);
    var x := Walk(w, ss[..i]);
    NobodyHolds(x, e);
    hide Walk, Possible, Perform;
    HandlerOfHead(x);
    TakeBegins(x);
  }

  // What its handler does reaches ns-3 at the command's time: the effects of the call on the tables of that moment.
  lemma CommandReachesNs3(w: World, ss: seq<Step>, e: Event) returns (i: nat)
    requires Sound(w) && Possible(w, ss, true) && e.job.Deferred?
    requires e in w.k.events && e !in Walk(w, ss).k.events
    ensures i < |ss|
    ensures var x, y := Walk(w, ss[..i]), Walk(w, ss[..i + 1]);
            var o := Manager.Apply(x.m, e.job.call);
      && y.m == o.m && y.status == (if o.verdict.Exit? then Exited(o.verdict.why) else x.status)
      && y.history == x.history + (if o.effects == [] then [] else [Stimulus(e.ts, x.k.uid, o.effects)])
  {
    i := CommandRunsAtItsTime(w, ss, e);
    hide Walk, Manager.Apply;
  }

  lemma NobodyHolds(w: World, e: Event)
    requires Sound(w) && e in w.k.events && e.job.Deferred?
    ensures e.uid !in w.k.cancelled && forall a :: !RemovesIt(w, a, e)
  {
  }

  // What ns-3 neither removed nor cancelled does fire, at its time.
  lemma TimerFiresAtItsTime(w: World, ss: seq<Step>, e: Event) returns (i: nat)
    requires Sound(w) && Possible(w, ss, true) && e.job.Timer? && e in w.k.events
    requires e !in Walk(w, ss).k.events && e.uid !in Walk(w, ss).k.cancelled
    ensures i < |ss| && ss[i] == DoBegin
    ensures var x, y := Walk(w, ss[..i]), Walk(w, ss[..i + 1]);
      && y.k.currentTs == e.ts && y.k.currentContext == e.context
      && y.history == x.history + [Stimulus(e.ts, x.k.uid, [Manager.Fired(e.job.tag)])]
  {
    i := EventLeavesInTwoWays(w, ss, e);
    var x, y := Walk(w, ss[..i]), Walk(w, ss[..i + 1]);
    TailKeepsCancelled(w, ss, i, e.uid);
    TailKeepsCancelled(w, ss, i + 1, e.uid);
    hide Walk, Possible;
    if ss[i] == DoBegin {
      HandlerOfHead(x);
      TakeBegins(x);
    } else {
      RemovalFlags(x, ss[i].action, e);
      assert false;
    }
  }

  lemma RemovalFlags(w: World, a: Action, e: Event)
    requires Sound(w) && e in w.k.events && RemovesIt(w, a, e)
    ensures e.uid in Act(w, a).k.cancelled
  {
    assert IdOf(e) in w.k.journal.issued;
    KernelTheory.RemoveFindsItsEvent(w.k, IdOf(e));
    hide Kernel.Inv, Kernel.Remove;
  }

  lemma {:induction false} WalkKeepsCancelled(w: World, ss: seq<Step>, u: nat)
    requires u in w.k.cancelled
    ensures u in Walk(w, ss).k.cancelled
    decreases |ss|
  {
    hide Take;
    if ss != [] {
      StepKeepsCancelled(w, ss[0], u);
      WalkKeepsCancelled(Take(w, ss[0]), ss[1..], u);
    }
  }

  lemma TailKeepsCancelled(w: World, ss: seq<Step>, i: nat, u: nat)
    requires i <= |ss| && Possible(w, ss, true)
    ensures u in Walk(w, ss[..i]).k.cancelled ==> u in Walk(w, ss).k.cancelled
  {
    WalkSplits(w, ss, i, true);
    if u in Walk(w, ss[..i]).k.cancelled {
      WalkKeepsCancelled(Walk(w, ss[..i]), ss[i..], u);
    }
  }

  lemma TakeBegins(w: World)
    requires w.k.events != []
    ensures Take(w, DoBegin) == Begin(w)
  {
  }

  lemma FirstStep(w: World, ss: seq<Step>, n: nat)
    requires 0 < n <= |ss|
    ensures Walk(w, ss[..n]) == Walk(Take(w, ss[0]), ss[1..][..n - 1])
  {
    hide Take;
    assert ss[..n][1..] == ss[1..][..n - 1];
  }

  // What deferring one call does.
  lemma ScheduleShape(w: World, time: nat, call: Call)
    ensures var w' := Schedule(w, time - w.k.currentTs, Deferred(call));
      && w'.k == Kernel.Insert(w.k, time, w.k.currentContext, Deferred(call))
      && w'.m == w.m && w'.history == w.history && w'.status == w.status && w'.handles == w.handles
      && SameControl(w.b, w'.b)
      && w'.k.currentTs == w.k.currentTs && w'.k.currentContext == w.k.currentContext
      && w'.k.stop == w.k.stop && w'.k.uid == w.k.uid + 1
  {
    hide Bridge.Trim, ListScheduler.Insert;
  }

  lemma {:induction false} ScheduleAllQueues(w: World, time: nat, calls: seq<Call>, i: nat)
    requires i < |calls|
    ensures Event(time, w.k.uid + i, w.k.currentContext, Deferred(calls[i])) in ScheduleAll(w, time, calls).k.events
    ensures forall e :: e in w.k.events ==> e in ScheduleAll(w, time, calls).k.events
    decreases |calls|
  {
    hide Schedule;
    var w1 := Schedule(w, time - w.k.currentTs, Deferred(calls[0]));
    ScheduleShape(w, time, calls[0]);
    if |calls| > 1 {
      ScheduleAllQueues(w1, time, calls[1..], if i == 0 then 0 else i - 1);
    }
  }

  lemma PlannedCallIsQueued(net: Network, w: World, c: Command, i: nat)
    requires Listening(w) && PlanOf(w.b.started, c).AtTime? && i < |PlanOf(w.b.started, c).calls|
    ensures var p := PlanOf(w.b.started, c);
            Event(p.time, w.k.uid + i, w.k.currentContext, Deferred(p.calls[i])) in Dispatch(net, w, c).k.events
  {
    hide Bridge.WriteNextTime;
    var p := PlanOf(w.b.started, c);
    ScheduleAllQueues(w, p.time, p.calls, i);
  }

  // The i-th call that a command asks for, and the time it asks it for, in terms of the fields of the command. Sends at
  // time zero are meant for time one.
  predicate Asks(c: Command, started: bool, i: nat, time: nat, call: Call) {
    match c
    case AddNode(kind, t, id, pos) =>
      started && i == 0 && time == t
      && ((kind == AddRadio && call == ActivateRadioNode(id, pos)) || (kind == AddWired && call == CreateWiredNode(id)))
    case UpdateNode(t, nodes) => i < |nodes| && time == t && call == UpdateNodePosition(nodes[i].0, nodes[i].1)
    case DeleteNode(t, id) => i == 0 && time == t && call == RemoveNode(id)
    case ConfWifiRadio(t, id, single, power, ip) =>
      single && i == 0 && time == t && call == ConfigureWifiRadio(id, power, ip)
    case SendWifi(t, id, dst, channel, msg, length) =>
      i == 0 && time == (if t == 0 then 1 else t) && call == SendWifiMsg(id, dst, channel, msg, length)
    case ConfCellRadio(t, id, ip) => started && i == 0 && time == t && call == ConfigureCellRadio(id, ip)
    case SendCell(t, id, dst, msg, length) =>
      i == 0 && time == (if t == 0 then 1 else t) && call == SendCellMsg(id, dst, msg, length)
    case _ => false
  }

  // The commands that are always deferred, and those that are once OnStart has run.
  predicate Defers(c: Command, started: bool) {
    match c
    case AddNode(kind, _, _, _) => started && (kind == AddRadio || kind == AddWired)
    case ConfCellRadio(_, _, _) => started
    case ConfWifiRadio(_, _, single, _, _) => single
    case _ => c.UpdateNode? || c.DeleteNode? || c.SendWifi? || c.SendCell?
  }

  lemma {:induction false} MovesAreTheNodes(nodes: seq<(nat, Vector)>)
    ensures |Moves(nodes)| == |nodes|
    ensures forall i :: 0 <= i < |nodes| ==> Moves(nodes)[i] == UpdateNodePosition(nodes[i].0, nodes[i].1)
  {
    if nodes != [] {
      MovesAreTheNodes(nodes[1..]);
    }
  }

  // The plan of a command is what its fields ask for, no more and no less.
  lemma PlanIsWhatIsAsked(c: Command, started: bool)
    ensures PlanOf(started, c).AtTime? <==> Defers(c, started)
    ensures var p := PlanOf(started, c);
            forall i: nat, time: nat, call :: Asks(c, started, i, time, call) <==>
                                              p.AtTime? && i < |p.calls| && time == p.time && call == p.calls[i]
  {
    if c.UpdateNode? {
      MovesAreTheNodes(c.nodes);
    }
  }

  // Each call that a command asks for is queued, for exactly the time it asks for, however far Now lags behind.
  lemma CommandIsQueuedForItsTime(net: Network, w: World, c: Command, i: nat, time: nat, call: Call)
    requires Listening(w) && Asks(c, w.b.started, i, time, call)
    ensures Event(time, w.k.uid + i, w.k.currentContext, Deferred(call)) in Dispatch(net, w, c).k.events
  {
    PlanIsWhatIsAsked(c, w.b.started);
    hide Asks, Dispatch, PlanOf;
    PlannedCallIsQueued(net, w, c, i);
  }

  lemma {:induction false} ScheduleAllQueuesNoMore(w: World, time: nat, calls: seq<Call>)
    ensures var w' := ScheduleAll(w, time, calls);
      && (forall e :: e in w'.k.events && e !in w.k.events ==>
            e.ts == time && w.k.uid <= e.uid < w.k.uid + |calls| && e.context == w.k.currentContext
            && e.job == Deferred(calls[e.uid - w.k.uid]))
      && w'.k.uid == w.k.uid + |calls| && w'.m == w.m && w'.history == w.history
    decreases |calls|
  {
    hide Schedule, ListScheduler.Insert;
    if calls != [] {
      var w1 := Schedule(w, time - w.k.currentTs, Deferred(calls[0]));
      ScheduleShape(w, time, calls[0]);
      ScheduleAllQueuesNoMore(w1, time, calls[1..]);
    }
  }

  // A deferred command queues nothing that it does not ask for, and does nothing else to the nodes.
  lemma NothingElseIsQueued(net: Network, w: World, c: Command, e: Event)
    requires Listening(w) && Defers(c, w.b.started)
    ensures var w' := Dispatch(net, w, c);
      && (e in w'.k.events && e !in w.k.events ==>
            w.k.uid <= e.uid && e.context == w.k.currentContext && e.job.Deferred?
            && Asks(c, w.b.started, e.uid - w.k.uid, e.ts, e.job.call))
      && w'.m == w.m && w'.history == w.history
  {
    PlanIsWhatIsAsked(c, w.b.started);
    var p := PlanOf(w.b.started, c);
    hide Asks, Defers, PlanOf, ScheduleAll;
    ScheduleAllQueuesNoMore(w, p.time, p.calls);
  }

  // What a command asks for before the start, to be done at once.
  predicate AsksNow(c: Command, call: Call) {
    match c
    case AddNode(AddRadio, _, id, pos) => call == CreateRadioNode(id, pos)
    case AddNode(AddWired, _, id, _) => call == CreateWiredNode(id)
    case AddNode(AddNodeB, _, _, pos) => call == CreateNodeB(pos)
    case ConfCellRadio(_, id, ip) => call == ConfigureCellRadio(id, ip)
    case _ => false
  }

  // Before the start nodes are made and configured for cell at once, not by an event.
  lemma CommandIsDoneAtOnce(net: Network, w: World, c: Command, call: Call)
    requires Listening(w) && !w.b.started && AsksNow(c, call)
    ensures Dispatch(net, w, c) == Ack(Respond(net, w, Perform(w, call)))
    ensures Perform(w, call).k == w.k && Perform(w, call).b == w.b
    ensures Perform(w, call).m == Manager.Apply(w.m, call).m
    ensures var effects := Manager.Apply(w.m, call).effects;
            effects != [] ==> Perform(w, call).history == w.history + [Stimulus(w.k.currentTs, w.k.uid, effects)]
  {
    hide Manager.Apply, Respond;
  }

  // The commands that end the process or the connection, and no others do it by themselves: an eNB after the start, a
  // Wi-Fi configuration for other than one radio, a shut-down, a command or node type the bridge does not know.
  lemma EndingCommands(net: Network, w: World, c: Command)
    requires Listening(w) && !c.AdvanceTime?
    ensures var w' := Dispatch(net, w, c);
      && (c.AddNode? && c.kind == AddNodeB && w.b.started ==> w' == w.(status := Exited(LateNodeB)))
      && (c.ConfWifiRadio? && !c.single ==> w' == w.(status := Exited(UnsupportedRadio)))
      && (w'.b.closed <==> c.ShutDown? || c.Unknown? || (c.AddNode? && c.kind == AddOther))
      && (c.Unknown? || (c.AddNode? && c.kind == AddOther) ==> w' == w.(b := w.b.(closed := true)))
      && (c.ShutDown? ==> w' == Finishing(w))
      && (c.InitAgain? ==> w' == w)
  {
    PlanIsWhatIsAsked(c, w.b.started);
    var p := PlanOf(w.b.started, c);
    if p.AtTime? {
      ScheduleAllKeepsControl(w, p.time, p.calls);
    } else if p.Immediate? {
      ActsKeepControl(Perform(w, p.call), net(Perform(w, p.call).history));
    }
    hide Manager.Apply, Acts, ScheduleAll, Kernel.Destroy;
  }

  lemma {:induction false} ScheduleAllKeepsOrder(w: World, time: nat, calls: seq<Call>)
    requires ListScheduler.Sorted(w.k.events) && ListScheduler.DistinctUids(w.k.events)
    requires forall e :: e in w.k.events ==> e.uid < w.k.uid
    ensures ListScheduler.Sorted(ScheduleAll(w, time, calls).k.events)
    ensures ScheduleAll(w, time, calls).k.currentTs == w.k.currentTs
    decreases |calls|
  {
    hide Schedule, ListScheduler.Insert, ListScheduler.Sorted, ListScheduler.DistinctUids;
    if calls != [] {
      ScheduleShape(w, time, calls[0]);
      ListScheduler.InsertKeepsOrder(w.k.events, Event(time, w.k.uid, w.k.currentContext, Deferred(calls[0])));
      ScheduleAllKeepsOrder(Schedule(w, time - w.k.currentTs, Deferred(calls[0])), time, calls[1..]);
    }
  }

  lemma RunOneIsSound(net: Network, w: World)
    requires Sound(w) && Causal(net) && Go(w) && w.b.started
    ensures Sound(RunOne(net, w))
  {
    var I := (x: World) => Sound(x);
    forall x, s | I(x) && Inner(s) && Enabled(x, s, true) ensures I(Take(x, s)) {
      StepIsSound(x, s);
    }
    RunOneKeeps(net, w, I, true);
  }

  lemma OpenIsSound(net: Network, w: World, t: nat)
    requires Sound(w) && Causal(net) && Listening(w) && t > 0
    ensures Sound(Open(net, w, t)) && (Open(net, w, t).status.Running? ==> Open(net, w, t).b.started)
  {
    SoundIsKept();
    OpenKeeps(net, w, t, (x: World) => Sound(x), true);
  }

  lemma DispatchIsSound(net: Network, w: World, c: Command)
    requires Sound(w) && Causal(net) && Listening(w) && InTime(w, c)
    ensures Sound(Dispatch(net, w, c))
  {
    SoundIsKept();
    DispatchKeeps(net, w, c, (x: World) => Sound(x), true);
  }

  // A late command becomes the head of the list, everything else stays at or after Now.
  lemma {:induction false} LateCallsAtTheHead(w: World, time: nat, calls: seq<Call>)
    requires time < w.k.currentTs && forall e :: e in w.k.events ==> w.k.currentTs <= e.ts || e.ts == time
    ensures forall e :: e in ScheduleAll(w, time, calls).k.events ==> w.k.currentTs <= e.ts || e.ts == time
    decreases |calls|
  {
    if calls != [] {
      hide Schedule, ListScheduler.Insert;
      ScheduleShape(w, time, calls[0]);
      LateCallsAtTheHead(Schedule(w, time - w.k.currentTs, Deferred(calls[0])), time, calls[1..]);
    }
  }

  lemma {:induction false} ScheduleAllKeepsControl(w: World, time: nat, calls: seq<Call>)
    ensures var w' := ScheduleAll(w, time, calls);
            SameControl(w.b, w'.b) && w'.status == w.status && w'.k.stop == w.k.stop
    decreases |calls|
  {
    hide Schedule, Kernel.Insert;
    if calls != [] {
      ScheduleShape(w, time, calls[0]);
      ScheduleAllKeepsControl(Schedule(w, time - w.k.currentTs, Deferred(calls[0])), time, calls[1..]);
    }
  }

  // The state after a late command: its event is the head of the list.
  lemma LateHead(net: Network, w: World, c: Command)
    requires Sound(w) && Listening(w) && !InTime(w, c)
    ensures var w' := Dispatch(net, w, c);
      && Listening(w') && SameControl(w.b, w'.b.(acks := w.b.acks)) && w'.k.stop == w.k.stop
      && w'.k.events != [] && w'.k.events[0].ts == PlanOf(w.b.started, c).time < w'.k.currentTs
  {
    var p := PlanOf(w.b.started, c);
    var w' := Dispatch(net, w, c);
    ScheduleAllKeepsOrder(w, p.time, p.calls);
    ScheduleAllKeepsControl(w, p.time, p.calls);
    LateCallsAtTheHead(w, p.time, p.calls);
    PlannedCallIsQueued(net, w, c, 0);
    hide ScheduleAll;
    var e := Event(p.time, w.k.uid + 0, w.k.currentContext, Deferred(p.calls[0]));
    var q := w'.k.events;
    var i :| 0 <= i < |q| && q[i] == e;
    assert q[0] in q;
    assert i > 0 ==> ListScheduler.Before(q[0], q[i]);
  }

  // One grant over a list whose head lies in the past.
  lemma GrantOverLateHead(net: Network, w: World, t: nat)
    requires Listening(w) && w.b.started && t > 0 && w.k.events != [] && w.k.events[0].ts < w.k.currentTs
    ensures Dispatch(net, w, AdvanceTime(t)).status ==
            if !w.k.stop && w.k.events[0].ts <= t then Exited(ClockAssertion) else Running
  {
    var w1 := Open(net, w, t);
    var n := if Go(w1) then 1 else 0;
    hide Kernel.Pop, Perform;
    if Go(w1) {
      assert RunOne(net, w1) == Exit(w1, ClockAssertion);
      assert Loop(net, w1, 1) == Loop(net, RunOne(net, w1), 0);
    }
    assert EndsAfter(net, w1, n);
    DrainIs(net, w1, n);
  }

  // The bridge accepts a command for a time before Now. The next grant then fails the clock assertion, if it
  // reaches that time and the simulator is not stopped; and only such a command makes it fail.
  lemma LateCommandsTripTheAssertion(net: Network, w: World, c: Command, t: nat)
    requires Sound(w) && Causal(net) && Listening(w) && w.b.started && t > 0
    requires PlanOf(w.b.started, c).AtTime?
    ensures Dispatch(net, Dispatch(net, w, c), AdvanceTime(t)).status == Exited(ClockAssertion)
            <==> !InTime(w, c) && PlanOf(w.b.started, c).time <= t && !w.k.stop
  {
    var w' := Dispatch(net, w, c);
    hide Advance, KernelSound;
    if InTime(w, c) {
      DispatchIsSound(net, w, c);
      ScheduleAllKeepsControl(w, PlanOf(w.b.started, c).time, PlanOf(w.b.started, c).calls);
      hide ScheduleAll;
      DispatchIsSound(net, w', AdvanceTime(t));
    } else {
      LateHead(net, w, c);
      hide Dispatch;
      GrantOverLateHead(net, w', t);
    }
  }
}
