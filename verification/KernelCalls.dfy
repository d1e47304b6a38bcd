// What the kernel's methods give ns-3 when it calls them in the middle of a run, and what follows for the rest of the run.
module KernelCalls {
  import opened Types
  import opened Federation
  import opened Steps
  import opened Walks
  import Bridge
  import Kernel
  import KernelTheory
  import KernelRuns
  import ListScheduler
  import Manager

  // ---------- scheduling ----------

  // The list has gained this event, with the next uid, and no id is any more or less expired than before.
  ghost predicate Gains(w: World, w': World, e: Event) {
    && e !in w.k.events && (forall x :: x in w'.k.events <==> x in w.k.events || x == e)
    && e.uid == w.k.uid && w'.k.uid == w.k.uid + 1
    && (forall id :: Kernel.IsExpired(w'.k, id) <==> Kernel.IsExpired(w.k, id))
    && w'.k.currentTs == w.k.currentTs && w'.k.stop == w.k.stop
    && w'.m == w.m && w'.history == w.history && w'.status == w.status
  }

  lemma InsertGains(w: World, w': World, ts: nat, context: nat, job: Job)
    requires KernelRuns.Sound(w) && w.k.currentTs <= ts && w'.k == Kernel.Insert(w.k, ts, context, job)
    requires w'.m == w.m && w'.history == w.history && w'.status == w.status
    ensures var e := Event(ts, w.k.uid, context, job);
      && Gains(w, w', e)
      && !Kernel.IsExpired(w'.k, IdOf(e)) && Kernel.GetDelayLeft(w'.k, IdOf(e)) == ts - w.k.currentTs
      && forall x :: x in w.k.events && x.ts <= ts ==> ListScheduler.Before(x, e)
  {
    hide ListScheduler.Sorted, ListScheduler.DistinctUids, Kernel.JournalInv, Kernel.Distinct, Kernel.DistinctImpls;
  }

  // Schedule: an event with this delay and the context of the caller, and an id that is not expired and has exactly
  // this delay left.
  lemma ScheduledEventIsThere(w: World, delay: int, tag: nat)
    requires KernelRuns.Sound(w) && w.status.Running? && delay >= 0
    ensures var w' := Act(w, Later(delay, tag));
            var e := Event(w.k.currentTs + delay, w.k.uid, w.k.currentContext, Timer(tag));
      && Gains(w, w', e) && w'.handles == w.handles + [IdOf(e)]
      && !Kernel.IsExpired(w'.k, IdOf(e)) && Kernel.GetDelayLeft(w'.k, IdOf(e)) == delay
  {
    hide KernelRuns.KernelSound, Gains, Kernel.Insert, Kernel.IsExpired, Kernel.GetDelayLeft, Bridge.WriteNextTime;
    InsertGains(w, Act(w, Later(delay, tag)), w.k.currentTs + delay, w.k.currentContext, Timer(tag));
  }

  // ScheduleWithContext: the same in the given context, without an id.
  lemma ScheduledElsewhere(w: World, context: nat, delay: int, tag: nat)
    requires KernelRuns.Sound(w) && w.status.Running? && delay >= 0
    ensures var w' := Act(w, LaterIn(context, delay, tag));
      && Gains(w, w', Event(w.k.currentTs + delay, w.k.uid, context, Timer(tag))) && w'.handles == w.handles
  {
    hide KernelRuns.KernelSound, Gains, Kernel.Insert, Kernel.IsExpired, Kernel.GetDelayLeft, Bridge.WriteNextTime;
    InsertGains(w, Act(w, LaterIn(context, delay, tag)), w.k.currentTs + delay, context, Timer(tag));
  }

  // ScheduleNow: an event for this instant, behind all others of this instant, and nothing is reported.
  lemma ScheduledForNow(w: World, tag: nat)
    requires KernelRuns.Sound(w) && w.status.Running?
    ensures var w' := Act(w, AtOnce(tag));
            var e := Event(w.k.currentTs, w.k.uid, w.k.currentContext, Timer(tag));
      && Gains(w, w', e) && w'.handles == w.handles + [IdOf(e)] && w'.b == w.b
      && !Kernel.IsExpired(w'.k, IdOf(e)) && Kernel.GetDelayLeft(w'.k, IdOf(e)) == 0
      && forall x :: x in w.k.events && x.ts <= w.k.currentTs ==> ListScheduler.Before(x, e)
  {
    hide KernelRuns.KernelSound, Gains, Kernel.Insert, Kernel.IsExpired, Kernel.GetDelayLeft, Bridge.WriteNextTime;
    InsertGains(w, Act(w, AtOnce(tag)), w.k.currentTs, w.k.currentContext, Timer(tag));
  }

  // Stop(Time): an event that stops the simulator when it is executed.
  lemma StopIsScheduled(w: World, delay: int)
    requires KernelRuns.Sound(w) && w.status.Running? && delay >= 0
    ensures var w' := Act(w, StopLater(delay));
            Gains(w, w', Event(w.k.currentTs + delay, w.k.uid, w.k.currentContext, StopCall)) && w'.handles == w.handles
  {
    hide KernelRuns.KernelSound, Gains, Kernel.Insert, Kernel.IsExpired, Kernel.GetDelayLeft, Bridge.WriteNextTime;
    InsertGains(w, Act(w, StopLater(delay)), w.k.currentTs + delay, w.k.currentContext, StopCall);
  }

  // A negative absolute time ends the process, and nothing is inserted.
  lemma NegativeTimesEndTheProcess(w: World, delay: int, tag: nat)
    requires w.status.Running?
    ensures Act(w, Later(delay, tag)).status == Exited(NegativeTime) <==> w.k.currentTs + delay < 0
    ensures w.k.currentTs + delay < 0 ==> Act(w, Later(delay, tag)).k == w.k
  {
  }

  // ---------- stopping ----------

  lemma StopStops(w: World)
    ensures Act(w, StopNow).k.stop && Act(w, StopNow) == w.(k := Act(w, StopNow).k)
    ensures Act(w, StopNow).k.events == w.k.events
  {
  }

  // Once the simulator is stopped no event is executed any more, whatever is granted.
  lemma StopIsFinal(w: World, ss: seq<Step>)
    requires w.k.stop && Possible(w, ss, false)
    ensures Walk(w, ss).k.stop && Walk(w, ss).k.journal.executed == w.k.journal.executed
    ensures Walk(w, ss).k.eventCount == w.k.eventCount
  {
    var I := (x: World) => x.k.stop && x.k.journal.executed == w.k.journal.executed && x.k.eventCount == w.k.eventCount;
    forall x, s | I(x) && Enabled(x, s, false) ensures I(Take(x, s)) {
      StepKeepsStop(x, s);
    }
    WalkKeeps(w, ss, I, false);
  }

  lemma StepKeepsStop(w: World, s: Step)
    requires w.k.stop && Enabled(w, s, false)
    ensures var k' := Take(w, s).k;
            k'.stop && k'.journal.executed == w.k.journal.executed && k'.eventCount == w.k.eventCount
  {
    hide ListScheduler.Insert, ListScheduler.Remove, Bridge.WriteNextTime, Manager.Apply, Manager.Receive, Manager.MakeSpares;
  }

  // A failing SendTo ends the process.
  lemma SendErrorEndsTheProcess(w: World)
    ensures Act(w, SendError) == w.(status := Exited(SendFailed))
  {
  }

  // ---------- cancelling and removing ----------

  // Cancel or Remove by an id whose event is queued: from then on, in the rest of the run, its handler is never called.
  lemma StoppedForGood(w: World, a: Action, ss: seq<Step>)
    requires KernelRuns.Sound(w) && w.status.Running? && (a.CancelEvent? || a.RemoveEvent?) && a.handle < |w.handles|
    requires Kernel.Queued(w.k, w.handles[a.handle]) && Possible(Act(w, a), ss, true)
    ensures var id, w' := w.handles[a.handle], Act(w, a);
      && Kernel.IsExpired(w'.k, id) && (Kernel.Queued(w'.k, id) <==> a.CancelEvent? || id.impl in w.k.cancelled)
      && KernelTheory.OthersExpireAlike(w.k, w'.k, id)
      && id.uid !in Walk(w', ss).k.journal.ran
  {
    var id, w' := w.handles[a.handle], Act(w, a);
    KernelRuns.ActIsSound(w, a);
    QueuedIsIssued(w.k, id);
    if a.CancelEvent? {
      KernelTheory.CancelStopsItsEvent(w.k, id);
    } else {
      RemovedOrFlagged(w.k, id);
    }
    hide Kernel.Inv, Kernel.Remove, Kernel.Cancel, Kernel.IsExpired, KernelTheory.OthersExpireAlike;
    KernelRuns.CancelledHandlersNeverRun(w', ss, id.impl);
  }

  lemma QueuedIsIssued(k: Kernel.State, id: EventId)
    requires Kernel.Inv(k) && Kernel.Queued(k, id)
    ensures id in k.journal.issued && id.impl == id.uid && id.uid != DESTROY_UID
  {
  }

  lemma RemovedOrFlagged(k: Kernel.State, id: EventId)
    requires Kernel.Inv(k) && id in k.journal.issued && Kernel.Queued(k, id)
    ensures var k' := Kernel.Remove(k, id);
      && id.impl in k'.cancelled && Kernel.IsExpired(k', id) && KernelTheory.OthersExpireAlike(k, k', id)
      && (Kernel.Queued(k', id) <==> id.impl in k.cancelled)
  {
    KernelTheory.ExpiredIffGone(k, id);
    KernelTheory.RemoveSparesOthers(k, id);
    assert Kernel.Fate(k, id);
    if !Kernel.IsExpired(k, id) {
      KernelTheory.RemoveFindsItsEvent(k, id);
    }
  }

  // ---------- destroy events ----------

  // ScheduleDestroy: an id that is not expired, last in the list of destroy events.
  lemma DestroyEventIsThere(w: World)
    requires KernelRuns.Sound(w) && w.status.Running?
    ensures var w' := Act(w, AtDestroy);
      && |w'.handles| == |w.handles| + 1 && w'.handles[..|w.handles|] == w.handles
      && var id := w'.handles[|w.handles|];
      && id.uid == DESTROY_UID && !Kernel.IsExpired(w'.k, id)
      && w'.k.destroyEvents == w.k.destroyEvents + [id] && w'.k.events == w.k.events
      && KernelTheory.OthersExpireAlike(w.k, w'.k, id)
  {
    KernelTheory.ScheduleDestroyAdds(w.k);
    hide Kernel.ScheduleDestroy;
  }

  // This EventImpl is gone for the destroy list: flagged, or in no list and never called.
  ghost predicate Forgotten(k: Kernel.State, impl: nat) {
    && impl < k.uid && impl !in k.journal.ran
    && (impl in k.cancelled
        || ((forall d :: d in k.destroyEvents ==> d.impl != impl) && (forall e :: e in k.events ==> e.uid != impl)))
  }

  lemma ActKeepsForgotten(w: World, a: Action, impl: nat)
    requires Forgotten(w.k, impl)
    ensures Forgotten(Act(w, a).k, impl)
  {
    hide Bridge.WriteNextTime, Manager.Receive, Kernel.IsExpired;
  }

  lemma BeginKeepsForgotten(w: World, impl: nat)
    requires Forgotten(w.k, impl) && w.k.events != []
    ensures Forgotten(Begin(w).k, impl)
  {
    assert w.k.events[0] in w.k.events && forall e :: e in w.k.events[1..] ==> e in w.k.events;
    hide Manager.Apply;
  }

  lemma StepKeepsForgotten(w: World, s: Step, impl: nat)
    requires Forgotten(w.k, impl) && KernelRuns.Sound(w) && Enabled(w, s, true)
    ensures Forgotten(Take(w, s).k, impl)
  {
    match s
    case DoAct(a) => ActKeepsForgotten(w, a, impl);
    case DoBegin => BeginKeepsForgotten(w, impl);
    case DoFinish => {
      KernelTheory.DestroyCallsTheRest(w.k);
      DestroyKeepsForgotten(w.k, impl);
    }
    case _ =>
    hide Act, Begin, Kernel.Inv, Kernel.Destroy, Bridge.WriteNextTime, Manager.Apply, Manager.MakeSpares;
  }

  lemma DestroyKeepsForgotten(k: Kernel.State, impl: nat)
    requires Forgotten(k, impl) && Kernel.Inv(k)
    ensures Forgotten(Kernel.Destroy(k), impl)
  {
    KernelTheory.AliveMeaning(k.destroyEvents, k.cancelled);
  }

  // A destroy event that is cancelled or removed is not called when the simulator is destroyed, nor ever.
  lemma DestroyEventStoppedForGood(w: World, a: Action, ss: seq<Step>)
    requires KernelRuns.Sound(w) && w.status.Running? && (a.CancelEvent? || a.RemoveEvent?) && a.handle < |w.handles|
    requires w.handles[a.handle] in w.k.destroyEvents && Possible(Act(w, a), ss, true)
    ensures var id, w' := w.handles[a.handle], Act(w, a);
      && Kernel.IsExpired(w'.k, id) && KernelTheory.OthersExpireAlike(w.k, w'.k, id)
      && id.impl !in Walk(w', ss).k.journal.ran
  {
    var id, w' := w.handles[a.handle], Act(w, a);
    if a.CancelEvent? {
      KernelTheory.CancelStopsItsEvent(w.k, id);
    } else {
      KernelTheory.RemoveOfDestroyEvent(w.k, id);
    }
    KernelRuns.ActIsSound(w, a);
    ForgottenAtOnce(w.k, id, a.CancelEvent?);
    hide KernelRuns.KernelSound, Kernel.Remove, Kernel.Cancel, Forgotten;
    var I := (x: World) => KernelRuns.Sound(x) && Forgotten(x.k, id.impl);
    forall x, s | I(x) && Enabled(x, s, true) ensures I(Take(x, s)) {
      KernelRuns.StepIsSound(x, s);
      StepKeepsForgotten(x, s, id.impl);
    }
    WalkKeeps(w', ss, I, true);
    ForgottenMeansNotCalled(Walk(w', ss).k, id.impl);
  }

  lemma ForgottenMeansNotCalled(k: Kernel.State, impl: nat)
    requires Forgotten(k, impl)
    ensures impl !in k.journal.ran
  {
  }

  lemma ForgottenAtOnce(k: Kernel.State, id: EventId, cancel: bool)
    requires Kernel.Inv(k) && id in k.destroyEvents
    ensures Forgotten(if cancel then Kernel.Cancel(k, id) else Kernel.Remove(k, id), id.impl)
  {
    hide Kernel.Inv, Kernel.Cancel, Kernel.Remove;
    DestroyEventFacts(k, id);
    if cancel {
      KernelTheory.CancelStopsItsEvent(k, id);
    } else {
      KernelTheory.RemoveOfDestroyEvent(k, id);
      RemoveKeepsUid(k, id);
      var k' := Kernel.Remove(k, id);
      var i :| 0 <= i < |k.destroyEvents| && k.destroyEvents[i] == id
               && k'.destroyEvents == k.destroyEvents[..i] + k.destroyEvents[i + 1..];
    }
  }

  lemma RemoveKeepsUid(k: Kernel.State, id: EventId)
    ensures Kernel.Remove(k, id).uid == k.uid
  {
  }

  lemma DestroyEventFacts(k: Kernel.State, id: EventId)
    requires Kernel.Inv(k) && id in k.destroyEvents
    ensures id.impl < k.uid && id.impl !in k.journal.ran
    ensures forall e :: e in k.events ==> e.uid != id.impl
    ensures forall i, j :: 0 <= i < j < |k.destroyEvents| ==> k.destroyEvents[i].impl != k.destroyEvents[j].impl
  {
    forall e | e in k.events ensures e.uid != id.impl {
      assert IdOf(e) in k.journal.issued;
    }
  }

  // SHUT_DOWN at any moment: the destroy events still in the list are called, those that are cancelled excepted.
  lemma ShutDownCallsDestroyEvents(w: World, ss: seq<Step>)
    requires KernelRuns.Sound(w) && Possible(w, ss, true)
    ensures var x := Walk(w, ss);
            var k' := Finishing(x).k;
      && (forall d :: d in x.k.destroyEvents ==> (d.impl in k'.journal.ran <==> d.impl !in x.k.cancelled))
      && x.k.journal.ran <= k'.journal.ran && Kernel.Distinct(k'.journal.ran)
      && (forall i :: |x.k.journal.ran| <= i < |k'.journal.ran| ==>
            exists d :: d in x.k.destroyEvents && d.impl == k'.journal.ran[i])
      && Finishing(x).b.closed
  {
    KernelRuns.WalkIsSound(w, ss);
    KernelTheory.DestroyCallsTheRest(Walk(w, ss).k);
    hide Walk, Kernel.Destroy, Kernel.Inv;
  }
}
