// MosaicSimulatorImpl on values: its fields, and each method as a function of the fields before the call.
module Kernel {
  import opened Types
  import ListScheduler

  // What happened to events so far. No operation reads it; it is there to state properties over runs.
  datatype Journal = Journal(
    issued: set<EventId>,      // every event ever inserted in the list
    executed: seq<Event>,      // events taken out by ProcessOneEvent, oldest first
    ran: seq<nat>,             // EventImpls whose handler was called, oldest first
    removed: set<nat>,         // uids taken out by Remove
    released: multiset<nat>)   // uids whose list reference was given back (Unref)

  datatype State = State(
    events: seq<Event>, destroyEvents: seq<EventId>, cancelled: set<nat>, stop: bool,
    uid: nat, currentUid: nat, currentTs: nat, currentContext: nat,
    eventCount: nat, unscheduledEvents: int, journal: Journal)

  const EMPTY_JOURNAL := Journal({}, [], [], {}, multiset{})
  const INITIAL := State([], [], {}, false, FIRST_UID, 0, 0, NO_CONTEXT, 0, 0, EMPTY_JOURNAL)

  // ---------- operations ----------

  function Insert(k: State, ts: nat, context: nat, job: Job): State {
    var e := Event(ts, k.uid, context, job);
    k.(events := ListScheduler.Insert(k.events, e), uid := k.uid + 1, unscheduledEvents := k.unscheduledEvents + 1,
       journal := k.journal.(issued := k.journal.issued + {IdOf(e)}))
  }

  function ScheduleDestroy(k: State): (State, EventId) {
    var id := EventId(k.uid, k.currentTs, NO_CONTEXT, DESTROY_UID);
    (k.(destroyEvents := k.destroyEvents + [id], uid := k.uid + 1), id)
  }

  predicate IsExpired(k: State, id: EventId) {
    if id.uid == DESTROY_UID then
      id.impl == NO_IMPL || id.impl in k.cancelled || id !in k.destroyEvents
    else
      || id.impl == NO_IMPL
      || id.ts < k.currentTs
      || (id.ts == k.currentTs && id.uid <= k.currentUid)
      || id.impl in k.cancelled
  }

  function GetDelayLeft(k: State, id: EventId): int {
    if IsExpired(k, id) then 0 else id.ts - k.currentTs
  }

  function Cancel(k: State, id: EventId): State {
    if IsExpired(k, id) then k else k.(cancelled := k.cancelled + {id.impl})
  }

  function EraseFirst(ids: seq<EventId>, id: EventId): (r: seq<EventId>)
    ensures forall x :: x in r ==> x in ids
    ensures forall x :: x in ids && x != id ==> x in r
  {
    if ids == [] then [] else if ids[0] == id then ids[1..] else
      assert forall x :: x in ids <==> x == ids[0] || x in ids[1..];
      [ids[0]] + EraseFirst(ids[1..], id)
  }

  function Remove(k: State, id: EventId): State {
    if id.uid == DESTROY_UID then k.(destroyEvents := EraseFirst(k.destroyEvents, id))
    else if IsExpired(k, id) then k
    else
      k.(events := ListScheduler.Remove(k.events, id.uid), cancelled := k.cancelled + {id.impl},
         unscheduledEvents := k.unscheduledEvents - 1,
         journal := k.journal.(removed := k.journal.removed + {id.uid},
                               released := k.journal.released + multiset{id.uid}))
  }

  // The part of ProcessOneEvent before the handler: take the head out and set the clock.
  function Pop(k: State): State
    requires k.events != []
  {
    var e := k.events[0];
    k.(events := k.events[1..], unscheduledEvents := k.unscheduledEvents - 1, eventCount := k.eventCount + 1,
       currentTs := e.ts, currentContext := e.context, currentUid := e.uid,
       journal := k.journal.(
         executed := k.journal.executed + [e],
         ran := k.journal.ran + if e.uid in k.cancelled then [] else [e.uid],
         released := k.journal.released + multiset{e.uid}))
  }

  // The impls of ids that are not cancelled, in order.
  function Alive(ids: seq<EventId>, cancelled: set<nat>): seq<nat> {
    if ids == [] then []
    else (if ids[0].impl in cancelled then [] else [ids[0].impl]) + Alive(ids[1..], cancelled)
  }

  function Destroy(k: State): State {
    k.(destroyEvents := [], journal := k.journal.(ran := k.journal.ran + Alive(k.destroyEvents, k.cancelled)))
  }

  function Uids(q: seq<Event>): multiset<nat> {
    if q == [] then multiset{} else multiset{q[0].uid} + Uids(q[1..])
  }

  function Dispose(k: State): State {
    k.(events := [], journal := k.journal.(released := k.journal.released + Uids(k.events)))
  }

  // ---------- the invariant of every reachable state ----------

  ghost predicate Queued(k: State, id: EventId) {
    exists e :: e in k.events && IdOf(e) == id
  }

  ghost predicate Executed(k: State, id: EventId) {
    exists e :: e in k.journal.executed && IdOf(e) == id
  }

  predicate Later(k: State, ts: nat, uid: nat) {
    ListScheduler.KeyBefore(k.currentTs, k.currentUid, ts, uid)
  }

  // Every queued key lies strictly above the key of the event executed last.
  ghost predicate QueueInv(k: State) {
    && ListScheduler.Sorted(k.events) && ListScheduler.DistinctUids(k.events)
    && k.currentUid < k.uid && FIRST_UID <= k.uid
    && (forall e :: e in k.events ==> Later(k, e.ts, e.uid) && FIRST_UID <= e.uid < k.uid && IdOf(e) in k.journal.issued)
  }

  // Each issued event is in exactly one of three places: the list, the executed ones, the removed ones.
  ghost predicate Fate(k: State, id: EventId) {
    && FIRST_UID <= id.uid < k.uid && id.impl == id.uid
    && (Queued(k, id) ==> !Executed(k, id) && id.uid !in k.journal.removed && k.journal.released[id.uid] == 0)
    && (!Queued(k, id) ==> k.journal.released[id.uid] == 1)
    && (Executed(k, id) ==> !Later(k, id.ts, id.uid) && id.uid !in k.journal.removed)
    && (Executed(k, id) ==> id.uid in k.journal.ran || id.uid in k.cancelled)
    && (id.uid in k.journal.removed ==> id.uid in k.cancelled)
    && (Queued(k, id) || Executed(k, id) || id.uid in k.journal.removed)
  }

  ghost predicate JournalInv(k: State) {
    && (forall id :: id in k.journal.issued ==> Fate(k, id))
    && (forall id, id' :: id in k.journal.issued && id' in k.journal.issued && id.uid == id'.uid ==> id == id')
    && (forall u :: u in k.journal.released || u in k.journal.removed ==> u < k.uid)
    && (forall e :: e in k.journal.executed ==> IdOf(e) in k.journal.issued)
    && ListScheduler.Sorted(k.journal.executed)
    && |k.journal.executed| == k.eventCount
    && k.unscheduledEvents == |k.events|
    && |k.journal.issued| == k.eventCount + |k.journal.removed| + |k.events|
  }

  ghost predicate Distinct(s: seq<nat>) {
    forall i, j :: 0 <= i < j < |s| ==> s[i] != s[j]
  }

  ghost predicate DistinctImpls(ids: seq<EventId>) {
    forall i, j :: 0 <= i < j < |ids| ==> ids[i].impl != ids[j].impl
  }

  // The lists of handlers called, of destroy events and of cancelled handlers do not overlap.
  ghost predicate HandlerInv(k: State) {
    && (forall u :: u in k.journal.ran ==> u < k.uid && u !in k.cancelled)
    && Distinct(k.journal.ran)
    && (forall u :: u in k.cancelled ==> u < k.uid)
    && DistinctImpls(k.destroyEvents)
    && (forall d :: d in k.destroyEvents ==>
          d.uid == DESTROY_UID && FIRST_UID <= d.impl < k.uid && d.impl !in k.journal.ran
          && forall id :: id in k.journal.issued ==> id.impl != d.impl)
    && (forall id :: id in k.journal.issued && Queued(k, id) ==> id.uid !in k.journal.ran)
  }

  ghost predicate Inv(k: State) {
    QueueInv(k) && JournalInv(k) && HandlerInv(k)
  }
}
