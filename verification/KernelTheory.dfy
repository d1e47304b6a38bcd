// Every operation keeps the kernel's invariant, and what the invariant means for the kernel's callers.
module KernelTheory {
  import opened Types
  import opened Kernel
  import ListScheduler

  lemma InitialInv()
    ensures Inv(INITIAL)
  {
  }

  // ---------- insertion ----------

  lemma InsertFates(k: State, ts: nat, context: nat, job: Job)
    requires Inv(k) && k.currentTs <= ts
    ensures var k' := Insert(k, ts, context, job);
            forall id :: id in k'.journal.issued ==> Fate(k', id) && (Queued(k', id) ==> id.uid !in k'.journal.ran)
  {
    var e := Event(ts, k.uid, context, job);
    var k' := Insert(k, ts, context, job);
    forall id | id in k'.journal.issued ensures Fate(k', id) && (Queued(k', id) ==> id.uid !in k'.journal.ran) {
      if id == IdOf(e) {
        assert e in k'.events;
        assert forall x :: x in k.journal.executed ==> IdOf(x) in k.journal.issued;
      } else {
        assert Fate(k, id);
        assert Queued(k', id) <==> Queued(k, id);
        assert Executed(k', id) <==> Executed(k, id);
      }
    }
  }

  // An event scheduled at or after Now keeps the invariant.
  lemma InsertKeeps(k: State, ts: nat, context: nat, job: Job)
    requires Inv(k) && k.currentTs <= ts
    ensures Inv(Insert(k, ts, context, job))
  {
    var k' := Insert(k, ts, context, job);
    ListScheduler.InsertKeepsOrder(k.events, Event(ts, k.uid, context, job));
    InsertFates(k, ts, context, job);
  }

  // Schedule accepts any absolute time >= 0. The kernel survives exactly when the delay is not negative:
  // a past event goes to the head of the list, where the assertion of the next ProcessOneEvent fails.
  lemma ScheduleIsSafeIffNotInThePast(k: State, ts: nat, context: nat, job: Job)
    requires Inv(k)
    ensures Inv(Insert(k, ts, context, job)) <==> k.currentTs <= ts
    ensures Insert(k, ts, context, job).events[0].ts < k.currentTs <==> ts < k.currentTs
  {
    var e := Event(ts, k.uid, context, job);
    var k' := Insert(k, ts, context, job);
    assert k'.events[0] in k'.events;
    if k.currentTs <= ts {
      InsertKeeps(k, ts, context, job);
    } else {
      assert e in k'.events && !Later(k', e.ts, e.uid);
      if k.events != [] {
        assert k.events[0] in k.events;
      }
    }
  }

  lemma ScheduleDestroyKeeps(k: State)
    requires Inv(k)
    ensures Inv(ScheduleDestroy(k).0)
  {
    var k' := ScheduleDestroy(k).0;
    forall id | id in k'.journal.issued ensures Fate(k', id) && (Queued(k', id) ==> id.uid !in k'.journal.ran) {
      assert Fate(k, id);
      assert Queued(k', id) <==> Queued(k, id);
      assert Executed(k', id) <==> Executed(k, id);
    }
  }

  // ---------- taking the next event out ----------

  lemma PopFates(k: State)
    requires Inv(k) && k.events != []
    ensures forall id :: id in k.journal.issued ==>
              Fate(Pop(k), id) && (Queued(Pop(k), id) ==> Queued(k, id) && id.uid !in Pop(k).journal.ran)
  {
    var e, k' := k.events[0], Pop(k);
    ListScheduler.HeadIsLeast(k.events);
    assert e in k.events;
    forall id | id in k.journal.issued
      ensures Fate(k', id) && (Queued(k', id) ==> Queued(k, id) && id.uid !in k'.journal.ran)
    {
      assert Fate(k, id);
      assert Fate(k, IdOf(e)) && Queued(k, IdOf(e));
      if id == IdOf(e) {
        assert k'.journal.executed[|k.journal.executed|] == e;
        assert Executed(k', id);
        assert !Queued(k', id) by {
          forall x | x in k'.events ensures x.uid != e.uid {
          }
        }
      } else {
        assert id.uid != e.uid;
        assert Executed(k', id) <==> Executed(k, id);
        if Queued(k, id) {
          var x :| x in k.events && IdOf(x) == id;
          assert x in k.events[1..];
        }
        assert Queued(k', id) <==> Queued(k, id);
      }
    }
  }

  lemma PopKeepsQueue(k: State)
    requires Inv(k) && k.events != []
    ensures k.currentTs <= k.events[0].ts && QueueInv(Pop(k))
  {
    ListScheduler.HeadIsLeast(k.events);
    assert k.events[0] in k.events;
  }

  lemma PopKeepsJournal(k: State)
    requires Inv(k) && k.events != []
    ensures JournalInv(Pop(k))
  {
    var e, k' := k.events[0], Pop(k);
    PopFates(k);
    assert e in k.events && Later(k, e.ts, e.uid);
    forall x | x in k.journal.executed ensures ListScheduler.Before(x, e) {
      assert Fate(k, IdOf(x)) && Executed(k, IdOf(x));
    }
    assert ListScheduler.Sorted(k'.journal.executed);
    forall x | x in k'.journal.executed ensures IdOf(x) in k'.journal.issued {
    }
  }

  lemma PopKeepsHandlers(k: State)
    requires Inv(k) && k.events != []
    ensures HandlerInv(Pop(k))
  {
    var e, k' := k.events[0], Pop(k);
    PopFates(k);
    assert e in k.events && IdOf(e) in k.journal.issued;
    assert Queued(k, IdOf(e));
    assert forall i :: 0 <= i < |k.journal.ran| ==> k.journal.ran[i] in k.journal.ran;
    assert e.uid !in k.journal.ran;
    assert forall u :: u in k'.journal.ran ==> u in k.journal.ran || u == e.uid;
  }

  // The assertion ts >= m_currentTs holds, and the executed keys keep strictly increasing.
  lemma PopKeeps(k: State)
    requires Inv(k) && k.events != []
    ensures k.currentTs <= k.events[0].ts
    ensures Inv(Pop(k))
  {
    PopKeepsQueue(k);
    PopKeepsJournal(k);
    PopKeepsHandlers(k);
  }

  // ---------- Remove, Cancel, Destroy ----------

  // Ids a caller can hold: one the kernel returned, or a null one.
  ghost predicate Known(k: State, id: EventId) {
    id.uid == DESTROY_UID || id.impl == NO_IMPL || id in k.journal.issued
  }

  // IsExpired answers from two numbers and a flag what is a question about the list.
  lemma ExpiredIffGone(k: State, id: EventId)
    requires Inv(k) && id in k.journal.issued
    ensures !IsExpired(k, id) <==> Queued(k, id) && id.impl !in k.cancelled
    ensures !IsExpired(k, id) ==> k.currentTs + GetDelayLeft(k, id) == id.ts && GetDelayLeft(k, id) >= 0
    ensures IsExpired(k, id) ==> GetDelayLeft(k, id) == 0
  {
    assert Fate(k, id);
    if Queued(k, id) {
      var e :| e in k.events && IdOf(e) == id;
    }
  }

  lemma CancelKeeps(k: State, id: EventId)
    requires Inv(k) && Known(k, id)
    ensures Inv(Cancel(k, id))
  {
    var k' := Cancel(k, id);
    if !IsExpired(k, id) {
      if id in k.journal.issued {
        ExpiredIffGone(k, id);
        assert Fate(k, id);
      }
      forall x | x in k'.journal.issued ensures Fate(k', x) && (Queued(k', x) ==> x.uid !in k'.journal.ran) {
        assert Fate(k, x);
        assert Queued(k', x) <==> Queued(k, x);
        assert Executed(k', x) <==> Executed(k, x);
      }
    }
  }

  // The expiry of an id other than this one is the same before and after.
  ghost predicate OthersExpireAlike(k: State, k': State, id: EventId) {
    && (forall x :: x in k.journal.issued && x != id ==> (IsExpired(k', x) <==> IsExpired(k, x)))
    && (forall d :: d in k.destroyEvents && d != id ==> (IsExpired(k', d) <==> IsExpired(k, d)))
  }

  // Cancel leaves its event in the list, but expired and flagged, and concerns no other event.
  lemma CancelStopsItsEvent(k: State, id: EventId)
    requires Inv(k) && ((id in k.journal.issued && Queued(k, id)) || id in k.destroyEvents)
    ensures id.impl in Cancel(k, id).cancelled && IsExpired(Cancel(k, id), id)
    ensures Cancel(k, id) == k.(cancelled := k.cancelled + {id.impl})
    ensures OthersExpireAlike(k, Cancel(k, id), id)
  {
    if id in k.journal.issued && Queued(k, id) {
      ExpiredIffGone(k, id);
      assert Fate(k, id);
    }
    forall x | x in k.journal.issued && x != id ensures x.impl != id.impl || IsExpired(k, x) {
      assert Fate(k, x);
      assert id in k.journal.issued ==> Fate(k, id);
    }
    if id.impl in k.cancelled {
      assert k.cancelled + {id.impl} == k.cancelled;
    }
  }

  // An event that was executed or removed, or one that is flagged already, cannot be cancelled any more.
  lemma CancelOfGoneEvent(k: State, id: EventId)
    requires Inv(k) && id in k.journal.issued && !Queued(k, id)
    ensures Cancel(k, id) == k && Remove(k, id) == k
  {
    ExpiredIffGone(k, id);
    assert Fate(k, id);
  }

  lemma {:induction false} EraseFirstKeepsDistinct(ids: seq<EventId>, id: EventId)
    requires DistinctImpls(ids)
    ensures DistinctImpls(EraseFirst(ids, id))
    ensures id !in EraseFirst(ids, id)
  {
    if ids != [] && ids[0] != id {
      EraseFirstKeepsDistinct(ids[1..], id);
      var r := EraseFirst(ids[1..], id);
      forall j | 0 <= j < |r| ensures ids[0].impl != r[j].impl {
        assert r[j] in ids[1..];
      }
    }
  }

  // Remove takes out exactly the event it was asked for, and always finds it.
  lemma RemoveFindsItsEvent(k: State, id: EventId)
    requires Inv(k) && id in k.journal.issued && !IsExpired(k, id)
    ensures |Remove(k, id).events| == |k.events| - 1
    ensures forall e :: e in Remove(k, id).events <==> e in k.events && IdOf(e) != id
    ensures IsExpired(Remove(k, id), id) && id.impl in Remove(k, id).cancelled
  {
    ExpiredIffGone(k, id);
    assert Fate(k, id);
    var e :| e in k.events && IdOf(e) == id;
    ListScheduler.RemoveKeepsOrder(k.events, id.uid);
    forall x | x in k.events ensures x.uid == id.uid <==> IdOf(x) == id {
      assert IdOf(x) in k.journal.issued;
    }
  }

  lemma RemoveSparesOthers(k: State, id: EventId)
    requires Inv(k) && id in k.journal.issued
    ensures OthersExpireAlike(k, Remove(k, id), id) && Remove(k, id).destroyEvents == k.destroyEvents
  {
    hide ListScheduler.Remove, ListScheduler.Sorted, ListScheduler.DistinctUids, Distinct, DistinctImpls;
    assert Fate(k, id);
    forall x | x in k.journal.issued && x != id ensures x.impl != id.impl {
      assert Fate(k, x);
    }
  }

  lemma RemoveFates(k: State, id: EventId)
    requires Inv(k) && id in k.journal.issued && !IsExpired(k, id)
    ensures var k' := Remove(k, id);
            forall x :: x in k.journal.issued ==> Fate(k', x) && (Queued(k', x) ==> x.uid !in k'.journal.ran)
  {
    var k' := Remove(k, id);
    RemoveFindsItsEvent(k, id);
    ExpiredIffGone(k, id);
    forall x | x in k.journal.issued ensures Fate(k', x) && (Queued(k', x) ==> x.uid !in k'.journal.ran) {
      assert Fate(k, x) && Fate(k, id);
      assert Executed(k', x) <==> Executed(k, x);
      assert Queued(k', x) <==> Queued(k, x) && x != id;
    }
  }

  lemma RemoveKeeps(k: State, id: EventId)
    requires Inv(k) && Known(k, id)
    ensures Inv(Remove(k, id))
  {
    var k' := Remove(k, id);
    if id.uid == DESTROY_UID {
      EraseFirstKeepsDistinct(k.destroyEvents, id);
      forall x | x in k'.journal.issued ensures Fate(k', x) && (Queued(k', x) ==> x.uid !in k'.journal.ran) {
        assert Fate(k, x);
        assert Queued(k', x) <==> Queued(k, x);
        assert Executed(k', x) <==> Executed(k, x);
      }
    } else if !IsExpired(k, id) {
      RemoveFates(k, id);
      RemoveFindsItsEvent(k, id);
      ExpiredIffGone(k, id);
      assert Fate(k, id);
      ListScheduler.RemoveKeepsOrder(k.events, id.uid);
    }
  }

  lemma StopKeeps(k: State, stop: bool)
    requires Inv(k)
    ensures Inv(k.(stop := stop))
  {
    var k' := k.(stop := stop);
    forall x | x in k'.journal.issued ensures Fate(k', x) && (Queued(k', x) ==> x.uid !in k'.journal.ran) {
      assert Fate(k, x);
      assert Queued(k', x) <==> Queued(k, x);
      assert Executed(k', x) <==> Executed(k, x);
    }
  }

  lemma {:induction false} AliveMeaning(ids: seq<EventId>, cancelled: set<nat>)
    requires DistinctImpls(ids)
    ensures forall u :: u in Alive(ids, cancelled) <==> u !in cancelled && exists d :: d in ids && d.impl == u
    ensures Distinct(Alive(ids, cancelled))
  {
    if ids != [] {
      AliveMeaning(ids[1..], cancelled);
      var r := Alive(ids[1..], cancelled);
      assert forall j :: 0 <= j < |r| ==> r[j] in r;
      assert forall d :: d in ids <==> d == ids[0] || d in ids[1..];
      forall j | 0 <= j < |r| ensures r[j] != ids[0].impl {
        assert r[j] in r;
        var d :| d in ids[1..] && d.impl == r[j];
        var n :| 1 <= n < |ids| && ids[n] == d;
      }
      forall u ensures u in Alive(ids, cancelled) <==> u !in cancelled && exists d :: d in ids && d.impl == u {
        if u !in cancelled && u == ids[0].impl {
          assert ids[0] in ids;
        }
      }
    }
  }

  // Alive keeps the order of the destroy events.
  lemma {:induction false} AliveInOrder(ids: seq<EventId>, more: seq<EventId>, cancelled: set<nat>)
    ensures Alive(ids + more, cancelled) == Alive(ids, cancelled) + Alive(more, cancelled)
  {
    if ids == [] {
      assert ids + more == more;
    } else {
      assert (ids + more)[1..] == ids[1..] + more;
      AliveInOrder(ids[1..], more, cancelled);
    }
  }

  // ---------- destroy events ----------

  // A new destroy event is not expired; no event shares its EventImpl, and nothing else changes.
  lemma ScheduleDestroyAdds(k: State)
    requires Inv(k)
    ensures var (k', id) := ScheduleDestroy(k);
      && id.uid == DESTROY_UID && !IsExpired(k', id) && k'.destroyEvents == k.destroyEvents + [id]
      && k'.events == k.events && k'.cancelled == k.cancelled && k'.journal == k.journal && k'.currentTs == k.currentTs
      && (forall x :: x in k.journal.issued || x in k.destroyEvents ==> x.impl != id.impl)
      && OthersExpireAlike(k, k', id)
  {
    var (k', id) := ScheduleDestroy(k);
    assert k'.destroyEvents[|k.destroyEvents|] == id;
    forall x | x in k.journal.issued ensures x.impl != id.impl {
      assert Fate(k, x);
    }
  }

  // Remove takes a destroy event out of its list, which keeps its order.
  lemma RemoveOfDestroyEvent(k: State, id: EventId)
    requires Inv(k) && id in k.destroyEvents
    ensures var k' := Remove(k, id);
      && k'.events == k.events && k'.cancelled == k.cancelled && k'.journal == k.journal
      && IsExpired(k', id) && OthersExpireAlike(k, k', id)
      && exists i :: 0 <= i < |k.destroyEvents| && k.destroyEvents[i] == id
                     && k'.destroyEvents == k.destroyEvents[..i] + k.destroyEvents[i + 1..]
  {
    EraseFirstKeepsDistinct(k.destroyEvents, id);
    var i := EraseFirstTakesOne(k.destroyEvents, id);
  }

  lemma {:induction false} EraseFirstTakesOne(ids: seq<EventId>, id: EventId) returns (i: nat)
    requires id in ids
    ensures i < |ids| && ids[i] == id && EraseFirst(ids, id) == ids[..i] + ids[i + 1..]
  {
    if ids[0] == id {
      i := 0;
    } else {
      i := EraseFirstTakesOne(ids[1..], id);
      i := i + 1;
      assert ids[..i] == [ids[0]] + ids[1..][..i - 1];
    }
  }

  // Destroy calls the handler of a destroy event exactly if it is not cancelled, each once, and no other handler;
  // afterwards every destroy event is expired.
  lemma DestroyCallsTheRest(k: State)
    requires Inv(k)
    ensures var k' := Destroy(k);
      && (forall d :: d in k.destroyEvents ==>
            (d.impl in k'.journal.ran <==> d.impl !in k.cancelled) && IsExpired(k', d))
      && k.journal.ran <= k'.journal.ran && Distinct(k'.journal.ran)
      && (forall i :: |k.journal.ran| <= i < |k'.journal.ran| ==>
            exists d :: d in k.destroyEvents && d.impl == k'.journal.ran[i])
      && k'.events == k.events && k'.cancelled == k.cancelled && k'.currentTs == k.currentTs
  {
    DestroyKeeps(k);
    AliveMeaning(k.destroyEvents, k.cancelled);
    var k' := Destroy(k);
    var called := Alive(k.destroyEvents, k.cancelled);
    forall i | |k.journal.ran| <= i < |k'.journal.ran|
      ensures exists d :: d in k.destroyEvents && d.impl == k'.journal.ran[i]
    {
      assert k'.journal.ran[i] in called;
    }
    forall d | d in k.destroyEvents ensures d.impl in k'.journal.ran <==> d.impl !in k.cancelled {
      assert d.impl !in k.journal.ran;
      assert d.impl in k'.journal.ran <==> d.impl in called;
    }
  }

  lemma DestroyKeeps(k: State)
    requires Inv(k)
    ensures Inv(Destroy(k))
  {
    var k' := Destroy(k);
    AliveMeaning(k.destroyEvents, k.cancelled);
    forall x | x in k'.journal.issued ensures Fate(k', x) && (Queued(k', x) ==> x.uid !in k'.journal.ran) {
      assert Fate(k, x);
      assert Queued(k', x) <==> Queued(k, x);
      assert Executed(k', x) <==> Executed(k, x);
    }
    var n := |k.journal.ran|;
    forall i, j | 0 <= i < j < |k'.journal.ran| ensures k'.journal.ran[i] != k'.journal.ran[j] {
      if i < n <= j {
        assert k.journal.ran[i] in k.journal.ran;
        assert k'.journal.ran[j] in Alive(k.destroyEvents, k.cancelled);
      }
    }
  }

  // ---------- conservation ----------

  lemma {:induction false} UidsMeaning(q: seq<Event>)
    requires ListScheduler.DistinctUids(q)
    ensures forall u :: Uids(q)[u] == if exists e :: e in q && e.uid == u then 1 else 0
  {
    if q != [] {
      UidsMeaning(q[1..]);
      assert forall e :: e in q <==> e == q[0] || e in q[1..];
      forall u ensures Uids(q)[u] == if exists e :: e in q && e.uid == u then 1 else 0 {
        if u == q[0].uid {
          assert q[0] in q;
          assert forall e :: e in q[1..] ==> e.uid != u;
        }
      }
    }
  }

  // A run that ends in disposal gives back the list reference of each inserted event exactly once.
  lemma EveryReferenceReleasedOnce(k: State, id: EventId)
    requires Inv(k) && id in k.journal.issued
    ensures Dispose(k).journal.released[id.uid] == 1
  {
    UidsMeaning(k.events);
    assert Fate(k, id);
    if Queued(k, id) {
      var e :| e in k.events && IdOf(e) == id;
    } else {
      forall e | e in k.events ensures e.uid != id.uid {
        assert IdOf(e) in k.journal.issued;
      }
    }
  }

  // Inserted = executed + removed + queued, and m_unscheduledEvents counts the queued ones.
  lemma EventsAreConserved(k: State)
    requires Inv(k)
    ensures |k.journal.issued| == k.eventCount + |k.journal.removed| + |k.events|
    ensures k.unscheduledEvents == |k.events|
    ensures forall id :: id in k.journal.issued ==>
              (if Queued(k, id) then 1 else 0) + (if Executed(k, id) then 1 else 0)
              + (if id.uid in k.journal.removed then 1 else 0) == 1
  {
    forall id | id in k.journal.issued
      ensures (if Queued(k, id) then 1 else 0) + (if Executed(k, id) then 1 else 0)
              + (if id.uid in k.journal.removed then 1 else 0) == 1
    {
      assert Fate(k, id);
    }
  }
}
