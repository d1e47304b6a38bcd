// Orderly command streams never end the process over an unknown id, a duplicate id or an exhausted pool.
module Discipline {
  import opened Types
  import opened Federation
  import opened Steps
  import Bridge
  import Kernel
  import KernelRuns
  import ListScheduler
  import Manager
  import ManagerTheory
  import ManagerRuns

  // ---------- what the sender of commands has to keep ----------

  // How an id was added: after the start, for which time, and as a radio node or not.
  datatype Entry = Entry(late: bool, time: nat, radio: bool)

  // The ids added so far.
  type Book = map<nat, Entry>

  function LateRadios(book: Book): set<nat> {
    set id | id in book && book[id].late && book[id].radio
  }

  function BookAfter(book: Book, started: bool, c: Command): Book {
    if c.AddNode? && (c.kind == AddRadio || c.kind == AddWired)
    then book[c.id := Entry(started, c.time, c.kind == AddRadio)] else book
  }

  predicate Adds(c: Call) {
    c.ActivateRadioNode? || c.CreateWiredNode? || c.CreateRadioNode?
  }

  // A command naming an id comes after its ADD and, if that was deferred, not for an earlier time.
  predicate Introduced(book: Book, id: nat, time: nat) {
    id in book && (book[id].late ==> book[id].time <= time)
  }

  // An id is added once; after the start there are at most numExtra radio nodes more; no command is late.
  predicate Orderly(w: World, book: Book, c: Command) {
    && InTime(w, c)
    && match c
       case AddNode(AddRadio, _, id, _) => id !in book && (w.b.started ==> |LateRadios(book)| < w.m.numExtra)
       case AddNode(AddWired, _, id, _) => id !in book
       case UpdateNode(time, nodes) => forall x :: x in nodes ==> Introduced(book, x.0, time)
       case DeleteNode(time, id) => Introduced(book, id, time)
       case ConfWifiRadio(time, id, _, _, _) => Introduced(book, id, time)
       case SendWifi(time, id, _, _, _, _) => Introduced(book, id, SendTime(time))
       case ConfCellRadio(time, id, _) => Introduced(book, id, time)
       case SendCell(time, id, _, _, _) => Introduced(book, id, SendTime(time))
       case _ => true
  }

  ghost predicate OrderlyRun(net: Network, w: World, book: Book, cs: seq<Command>)
    decreases |cs|
  {
    cs == [] || !Listening(w) ||
    (Orderly(w, book, cs[0]) && OrderlyRun(net, Dispatch(net, w, cs[0]), BookAfter(book, w.b.started, cs[0]), cs[1..]))
  }

  predicate BadId(s: Status) {
    s.Exited? && s.why in {UnknownId, DuplicateId, PoolExhausted}
  }

  // ---------- the invariant ----------

  ghost predicate IsAdd(e: Event, id: nat) {
    e.job.Deferred? && Adds(e.job.call) && e.job.call.id == id
  }

  // The queued commands agree with the book and with the ids mapped so far: an id is mapped, or its ADD is
  // queued, and then before every other queued command for that id.
  ghost predicate QueueAgrees(q: seq<Event>, mapped: set<nat>, book: Book) {
    && mapped <= book.Keys
    && (forall e :: e in q && e.job.Deferred? ==> Deferrable(e.job.call))
    && (forall e :: e in q && e.job.Deferred? && Adds(e.job.call) ==>
          var id := e.job.call.id;
          id in book && id !in mapped && book[id].late && e.ts == book[id].time
          && (e.job.call.ActivateRadioNode? ==> book[id].radio))
    && (forall e, f :: e in q && f in q && e.job.Deferred? && Adds(e.job.call) && IsAdd(f, e.job.call.id) ==> e == f)
    && (forall e :: e in q && e.job.Deferred? && !Adds(e.job.call) ==>
          e.job.call.id in mapped || exists a :: a in q && IsAdd(a, e.job.call.id) && ListScheduler.Before(a, e))
    && (forall id :: id in book ==> id in mapped || exists a :: a in q && IsAdd(a, id))
  }

  ghost predicate PoolAgrees(m: Manager.State, book: Book) {
    && |LateRadios(book)| <= m.numExtra
    && forall id :: id in m.activations ==> id in LateRadios(book)
  }

  ghost predicate Agrees(w: World, book: Book) {
    && KernelRuns.Sound(w) && Manager.Inv(w.m) && !BadId(w.status)
    && QueueAgrees(w.k.events, w.m.toNs3.Keys, book) && PoolAgrees(w.m, book)
    && (w.b.started ==> w.m.numExtra <= |w.m.spare|)
    && (!w.b.started && w.status.Running? ==> forall id :: id in book ==> !book[id].late)
  }

  // ---------- ns-3 in between does not disturb it ----------

  // Events of ns-3 come and go; the deferred commands in the list stay the same.
  lemma SameCommands(q: seq<Event>, q': seq<Event>, mapped: set<nat>, book: Book)
    requires QueueAgrees(q, mapped, book)
    requires forall e: Event :: e.job.Deferred? ==> (e in q <==> e in q')
    ensures QueueAgrees(q', mapped, book)
  {
  }

  lemma ActKeepsCommands(w: World, a: Action)
    requires KernelRuns.Sound(w)
    ensures forall e: Event :: e.job.Deferred? ==> (e in w.k.events <==> e in Act(w, a).k.events)
    ensures var m' := Act(w, a).m;
            && m'.toNs3 == w.m.toNs3 && m'.activations == w.m.activations && m'.numExtra == w.m.numExtra
            && m'.spare == w.m.spare
    ensures BadId(Act(w, a).status) ==> BadId(w.status)
  {
    hide Kernel.Inv, Bridge.WriteNextTime, Kernel.IsExpired;
    if a.RemoveEvent? && a.handle < |w.handles| {
      assert w.handles[a.handle] in w.handles;
    }
  }

  lemma ActKeepsAgreement(w: World, a: Action, book: Book)
    requires Agrees(w, book) && w.status.Running? && CausalAction(a)
    ensures Agrees(Act(w, a), book)
  {
    hide KernelRuns.KernelSound, Manager.Inv, QueueAgrees;
    ActKeepsCommands(w, a);
    KernelRuns.ActIsSound(w, a);
    ManagerRuns.ActKeepsManager(w, a);
    ActKeepsControl(w, a);
    hide Act;
    SameCommands(w.k.events, Act(w, a).k.events, w.m.toNs3.Keys, book);
  }

  // ---------- executing the head of the list ----------

  // The head's ADD makes its id mapped; every command that waited for it may run now.
  lemma HeadAddDone(q: seq<Event>, mapped: set<nat>, book: Book, id: nat)
    requires QueueAgrees(q, mapped, book) && q != [] && IsAdd(q[0], id) && ListScheduler.Sorted(q)
    ensures QueueAgrees(q[1..], mapped + {id}, book)
  {
    ListScheduler.HeadIsLeast(q);
    assert q[0] in q;
    assert forall e :: e in q <==> e == q[0] || e in q[1..];
  }

  lemma HeadOtherDone(q: seq<Event>, mapped: set<nat>, book: Book)
    requires QueueAgrees(q, mapped, book) && q != [] && ListScheduler.Sorted(q)
    requires q[0].job.Deferred? ==> !Adds(q[0].job.call)
    ensures QueueAgrees(q[1..], mapped, book)
    ensures q[0].job.Deferred? ==> q[0].job.call.id in mapped
  {
    ListScheduler.HeadIsLeast(q);
    assert q[0] in q;
    assert forall e :: e in q <==> e == q[0] || e in q[1..];
  }

  lemma {:induction false} DistinctSize(s: seq<nat>, t: set<nat>)
    requires (forall i, j :: 0 <= i < j < |s| ==> s[i] != s[j]) && forall x :: x in s ==> x in t
    ensures |s| <= |t|
  {
    if s != [] {
      DistinctSize(s[1..], t - {s[0]});
    }
  }

  // A late radio node that is not active yet finds a spare node.
  lemma PoolSuffices(m: Manager.State, book: Book, id: nat)
    requires Manager.Inv(m) && PoolAgrees(m, book) && m.numExtra <= |m.spare|
    requires id in LateRadios(book) && id !in m.toNs3
    ensures |m.activations| < |m.spare|
  {
    forall i, j | 0 <= i < j < |m.activations| ensures m.activations[i] != m.activations[j] {
      assert m.toNs3[m.activations[i]] == m.spare[i] && m.toNs3[m.activations[j]] == m.spare[j];
    }
    assert id !in m.activations;
    DistinctSize(m.activations, LateRadios(book) - {id});
  }

  lemma AddSucceeds(m: Manager.State, q: seq<Event>, book: Book)
    requires Manager.Inv(m) && QueueAgrees(q, m.toNs3.Keys, book) && PoolAgrees(m, book) && m.numExtra <= |m.spare|
    requires q != [] && q[0].job.Deferred? && Adds(q[0].job.call) && ListScheduler.Sorted(q)
    ensures var o := Manager.Apply(m, q[0].job.call);
      && o.verdict == Manager.Fine && PoolAgrees(o.m, book) && o.m.spare == m.spare && o.m.numExtra == m.numExtra
      && QueueAgrees(q[1..], o.m.toNs3.Keys, book)
  {
    var c := q[0].job.call;
    assert q[0] in q && Deferrable(c);
    if c.ActivateRadioNode? {
      PoolSuffices(m, book, c.id);
    }
    ManagerTheory.CreationExits(m, c);
    HeadAddDone(q, m.toNs3.Keys, book, c.id);
    hide Manager.Inv, QueueAgrees, Manager.Apply;
    ManagerTheory.PoolSizeKept(m, c);
  }

  lemma CommandSucceeds(m: Manager.State, q: seq<Event>, book: Book)
    requires Manager.Inv(m) && QueueAgrees(q, m.toNs3.Keys, book) && PoolAgrees(m, book)
    requires q != [] && q[0].job.Deferred? && !Adds(q[0].job.call) && ListScheduler.Sorted(q)
    ensures var o := Manager.Apply(m, q[0].job.call);
      && (o.verdict.Exit? ==> !BadId(Exited(o.verdict.why)))
      && PoolAgrees(o.m, book) && o.m.spare == m.spare && o.m.numExtra == m.numExtra
      && QueueAgrees(q[1..], o.m.toNs3.Keys, book)
  {
    var c := q[0].job.call;
    assert q[0] in q && Deferrable(c);
    HeadOtherDone(q, m.toNs3.Keys, book);
    ManagerTheory.ExitConditions(m, c);
    ManagerTheory.CommandKeepsMaps(m, c);
    ManagerTheory.PoolSizeKept(m, c);
    hide Manager.Inv, QueueAgrees, Manager.Apply;
  }

  // What executing the head does to the list, the manager and the status.
  lemma BeginShape(w: World)
    requires KernelRuns.Sound(w) && w.k.events != [] && w.status.Running?
    ensures var e, w' := w.k.events[0], Begin(w);
      && w'.k.events == w.k.events[1..] && w'.b == w.b
      && (if e.job.Deferred? then
            var o := Manager.Apply(w.m, e.job.call);
            w'.m == o.m && w'.status == (if o.verdict.Exit? then Exited(o.verdict.why) else Running)
          else w'.m == w.m && w'.status.Running?)
  {
    hide Kernel.Inv, Manager.Apply;
    KernelRuns.PopIsSound(w.k, w.handles);
    assert w.k.events[0] in w.k.events;
  }

  lemma BeginKeepsAgreement(w: World, book: Book)
    requires Agrees(w, book) && Go(w) && w.b.started
    ensures Agrees(Begin(w), book)
  {
    var e := w.k.events[0];
    KernelRuns.BeginIsSound(w);
    ManagerRuns.BeginKeepsManager(w);
    BeginShape(w);
    assert ListScheduler.Sorted(w.k.events);
    hide KernelRuns.KernelSound, Manager.Inv, QueueAgrees, PoolAgrees, Manager.Apply, Begin;
    if e.job.Deferred? && Adds(e.job.call) {
      AddSucceeds(w.m, w.k.events, book);
    } else {
      HeadOtherDone(w.k.events, w.m.toNs3.Keys, book);
      if e.job.Deferred? {
        CommandSucceeds(w.m, w.k.events, book);
      }
    }
  }

  lemma InnerStepKeepsAgreement(w: World, s: Step, book: Book)
    requires Agrees(w, book) && Inner(s) && Enabled(w, s, true)
    ensures Agrees(Take(w, s), book)
  {
    hide KernelRuns.KernelSound, Manager.Inv, QueueAgrees, PoolAgrees, Act, Begin;
    match s
    case DoAct(a) => ActKeepsAgreement(w, a, book);
    case DoBegin => BeginKeepsAgreement(w, book);
    case DoDiverge =>
  }

  // ---------- commands ----------

  // Any rule about one command keeps Agrees through everything ns-3 does in reaction.
  lemma ReactionKeepsAgreement(net: Network, before: World, w: World, book: Book)
    requires Agrees(w, book) && Causal(net)
    ensures Agrees(Respond(net, before, w), book)
  {
    var I := (x: World) => Agrees(x, book);
    forall x, s | I(x) && Inner(s) && Enabled(x, s, true) ensures I(Take(x, s)) {
      InnerStepKeepsAgreement(x, s, book);
    }
    RespondKeeps(net, before, w, I, true);
  }

  lemma DrainKeepsAgreement(net: Network, w: World, book: Book)
    requires Agrees(w, book) && Causal(net) && (w.status.Running? ==> w.b.started)
    ensures Agrees(Drain(net, w), book)
  {
    var I := (x: World) => Agrees(x, book);
    forall x, s | I(x) && Inner(s) && Enabled(x, s, true) ensures I(Take(x, s)) {
      InnerStepKeepsAgreement(x, s, book);
    }
    DrainKeeps(net, w, I, true);
  }

  lemma QueueAdd(q: seq<Event>, e: Event, mapped: set<nat>, book: Book, entry: Entry)
    requires QueueAgrees(q, mapped, book) && e.job.Deferred? && Adds(e.job.call) && Deferrable(e.job.call)
    requires e.job.call.id !in book && entry.late && entry.time == e.ts && (e.job.call.ActivateRadioNode? ==> entry.radio)
    ensures QueueAgrees(ListScheduler.Insert(q, e), mapped, book[e.job.call.id := entry])
  {
    var q' := ListScheduler.Insert(q, e);
    var book' := book[e.job.call.id := entry];
    assert e in q' && IsAdd(e, e.job.call.id);
    assert forall x :: x in q' && x.job.Deferred? && x != e ==> x.job.call.id in book by {
      forall x | x in q' && x.job.Deferred? && x != e ensures x.job.call.id in book {
        if !Adds(x.job.call) && x.job.call.id !in mapped {
          var a :| a in q && IsAdd(a, x.job.call.id);
        }
      }
    }
  }

  lemma QueueOther(q: seq<Event>, e: Event, mapped: set<nat>, book: Book)
    requires QueueAgrees(q, mapped, book) && e.job.Deferred? && !Adds(e.job.call) && Deferrable(e.job.call)
    requires Introduced(book, e.job.call.id, e.ts) && forall x :: x in q ==> x.uid < e.uid
    ensures QueueAgrees(ListScheduler.Insert(q, e), mapped, book)
  {
    var q' := ListScheduler.Insert(q, e);
    if e.job.call.id !in mapped {
      var a :| a in q && IsAdd(a, e.job.call.id);
      assert a in q' && ListScheduler.Before(a, e);
    }
  }

  lemma UidsAreOld(w: World)
    requires KernelRuns.Sound(w)
    ensures forall x :: x in w.k.events ==> x.uid < w.k.uid
  {
  }

  lemma ScheduleOtherKeepsAgreement(w: World, book: Book, time: nat, call: Call)
    requires Agrees(w, book) && w.k.currentTs <= time
    requires Deferrable(call) && !Adds(call) && Introduced(book, call.id, time)
    ensures Agrees(Schedule(w, time - w.k.currentTs, Deferred(call)), book)
  {
    hide KernelRuns.KernelSound, Manager.Inv, QueueAgrees, PoolAgrees, ScheduleIn, ListScheduler.Insert;
    UidsAreOld(w);
    KernelRuns.ScheduleShape(w, time, call);
    KernelRuns.InsertIsSound(w.k, w.handles, time, w.k.currentContext, Deferred(call));
    QueueOther(w.k.events, Event(time, w.k.uid, w.k.currentContext, Deferred(call)), w.m.toNs3.Keys, book);
  }

  lemma PoolOfMore(m: Manager.State, book: Book, id: nat, entry: Entry)
    requires PoolAgrees(m, book) && id !in book && (entry.late && entry.radio ==> |LateRadios(book)| < m.numExtra)
    ensures PoolAgrees(m, book[id := entry])
  {
    var more := LateRadios(book[id := entry]);
    assert more == if entry.late && entry.radio then LateRadios(book) + {id} else LateRadios(book);
  }

  lemma ScheduleAddKeepsAgreement(w: World, book: Book, time: nat, call: Call, entry: Entry)
    requires Agrees(w, book) && w.b.started && w.k.currentTs <= time
    requires Deferrable(call) && Adds(call) && call.id !in book
    requires entry.late && entry.time == time && (call.ActivateRadioNode? <==> entry.radio)
    requires entry.radio ==> |LateRadios(book)| < w.m.numExtra
    ensures Agrees(Schedule(w, time - w.k.currentTs, Deferred(call)), book[call.id := entry])
  {
    hide KernelRuns.KernelSound, Manager.Inv, QueueAgrees, PoolAgrees, ScheduleIn, ListScheduler.Insert;
    KernelRuns.ScheduleShape(w, time, call);
    KernelRuns.InsertIsSound(w.k, w.handles, time, w.k.currentContext, Deferred(call));
    QueueAdd(w.k.events, Event(time, w.k.uid, w.k.currentContext, Deferred(call)), w.m.toNs3.Keys, book, entry);
    PoolOfMore(w.m, book, call.id, entry);
  }

  lemma {:induction false} ScheduleAllKeepsAgreement(w: World, book: Book, time: nat, calls: seq<Call>)
    requires Agrees(w, book) && (calls != [] ==> w.k.currentTs <= time)
    requires forall c :: c in calls ==> Deferrable(c) && !Adds(c) && Introduced(book, c.id, time)
    ensures Agrees(ScheduleAll(w, time, calls), book)
    decreases |calls|
  {
    hide Agrees, ScheduleIn, Introduced;
    if calls != [] {
      ScheduleOtherKeepsAgreement(w, book, time, calls[0]);
      KernelRuns.ScheduleShape(w, time, calls[0]);
      ScheduleAllKeepsAgreement(Schedule(w, time - w.k.currentTs, Deferred(calls[0])), book, time, calls[1..]);
    }
  }

  // Before the start an ADD takes effect at once.
  lemma MakeNow(w: World, book: Book, call: Call, entry: Entry)
    requires Agrees(w, book) && !w.b.started && w.status.Running? && !entry.late
    requires (call.CreateRadioNode? || call.CreateWiredNode?) && call.id !in book
    ensures Agrees(Perform(w, call), book[call.id := entry])
  {
    hide KernelRuns.KernelSound, Manager.Inv, QueueAgrees, PoolAgrees, Manager.Apply, Perform;
    UnbookedIsUnmapped(w.k.events, w.m.toNs3.Keys, book, call.id);
    PerformShape(w, call);
    ManagerRuns.PerformKeepsManager(w, call);
    ManagerTheory.CreationExits(w.m, call);
    ManagerTheory.PoolSizeKept(w.m, call);
    QueueOfMore(w.k.events, w.m.toNs3.Keys, book, call.id, entry);
    PoolOfMore(w.m, book, call.id, entry);
    PoolOfSame(w.m, Manager.Apply(w.m, call).m, book[call.id := entry]);
  }

  lemma UnbookedIsUnmapped(q: seq<Event>, mapped: set<nat>, book: Book, id: nat)
    requires QueueAgrees(q, mapped, book) && id !in book
    ensures id !in mapped
  {
  }

  lemma PoolOfSame(m: Manager.State, m': Manager.State, book: Book)
    requires PoolAgrees(m, book) && m'.numExtra == m.numExtra && m'.activations == m.activations
    ensures PoolAgrees(m', book)
  {
  }

  lemma PerformShape(w: World, c: Call)
    requires KernelRuns.Sound(w)
    ensures KernelRuns.Sound(Perform(w, c))
    ensures var o, w' := Manager.Apply(w.m, c), Perform(w, c);
      && w'.k == w.k && w'.b == w.b && w'.m == o.m
      && w'.status == (if o.verdict.Exit? then Exited(o.verdict.why) else w.status)
  {
    hide KernelRuns.KernelSound, Manager.Apply;
    ManagerTheory.ManagerReasons(w.m, c);
  }

  lemma QueueOfMore(q: seq<Event>, mapped: set<nat>, book: Book, id: nat, entry: Entry)
    requires QueueAgrees(q, mapped, book) && id !in book
    ensures QueueAgrees(q, mapped + {id}, book[id := entry])
  {
  }

  lemma ConfigureNow(w: World, book: Book, call: Call)
    requires Agrees(w, book) && !w.b.started && w.status.Running?
    requires call.CreateNodeB? || (call.ConfigureCellRadio? && call.id in book)
    ensures Agrees(Perform(w, call), book)
  {
    hide KernelRuns.KernelSound, Manager.Inv, QueueAgrees, Manager.Apply, Perform, LateRadios;
    PerformShape(w, call);
    ManagerRuns.PerformKeepsManager(w, call);
    ManagerTheory.ExitConditions(w.m, call);
    ManagerTheory.PoolSizeKept(w.m, call);
    if call.ConfigureCellRadio? {
      assert !book[call.id].late;
      EarlyIdsAreMapped(w, book, call.id);
      ManagerTheory.CommandKeepsMaps(w.m, call);
    } else {
      ManagerTheory.MapsSameForNodeB(w.m, call);
    }
  }

  lemma EarlyIdsAreMapped(w: World, book: Book, id: nat)
    requires QueueAgrees(w.k.events, w.m.toNs3.Keys, book) && id in book && !book[id].late
    ensures id in w.m.toNs3
  {
  }

  lemma LaunchShape(w: World)
    ensures var m', w' := Manager.MakeSpares(w.m, w.m.numExtra).0, Launch(w);
            w'.k == w.k && w'.b == w.b && w'.m == m' && w'.status == w.status && w'.handles == w.handles
  {
    hide Manager.MakeSpares;
  }

  lemma LaunchKeepsAgreement(w: World, book: Book)
    requires Agrees(w, book) && !w.b.started
    ensures Agrees(Launch(w), book) && Launch(w).m.numExtra <= |Launch(w).m.spare|
  {
    hide KernelRuns.KernelSound, Manager.Inv, QueueAgrees, Manager.MakeSpares, Launch, LateRadios;
    LaunchShape(w);
    ManagerTheory.MakeSparesKeeps(w.m, w.m.numExtra);
  }

  lemma {:induction false} ActsKeepSpares(w: World, actions: seq<Action>)
    ensures Acts(w, actions).m.spare == w.m.spare && Acts(w, actions).m.numExtra == w.m.numExtra
    decreases |actions|
  {
    if actions != [] && w.status.Running? {
      hide Manager.Inv, Kernel.Insert, Kernel.Remove, Bridge.WriteNextTime;
      ActsKeepSpares(Act(w, actions[0]), actions[1..]);
    }
  }

  // Agrees does not depend on the bookkeeping of grants.
  lemma BookkeepingAgrees(w: World, w': World, book: Book)
    requires Agrees(w, book) && w' == w.(b := w'.b)
    requires w'.b.started == w.b.started || (w'.b.started && w.m.numExtra <= |w.m.spare|)
    ensures Agrees(w', book)
  {
    hide KernelRuns.KernelSound, Manager.Inv, QueueAgrees, PoolAgrees;
  }

  lemma OpenKeepsAgreement(net: Network, w: World, t: nat, book: Book)
    requires Agrees(w, book) && Listening(w) && Causal(net) && t > 0
    ensures Agrees(Open(net, w, t), book)
  {
    hide Agrees, Launch, Acts, Respond;
    var w1 := SetGrant(w, t);
    BookkeepingAgrees(w, w1, book);
    if w.b.started {
      BookkeepingAgrees(w1, StartGrant(w1), book);
    } else {
      var w2 := Respond(net, w1, Launch(w1));
      LaunchKeepsAgreement(w1, book);
      ReactionKeepsAgreement(net, w1, Launch(w1), book);
      ReactionKeepsSpares(net, w1, Launch(w1));
      BookkeepingAgrees(w2, MarkStarted(w2), book);
      BookkeepingAgrees(MarkStarted(w2), StartGrant(MarkStarted(w2)), book);
    }
  }

  lemma ReactionKeepsSpares(net: Network, before: World, w: World)
    ensures Respond(net, before, w).m.spare == w.m.spare && Respond(net, before, w).m.numExtra == w.m.numExtra
  {
    ActsKeepSpares(w, net(w.history));
    hide Acts;
  }

  lemma AdvanceKeepsAgreement(net: Network, w: World, t: nat, book: Book)
    requires Agrees(w, book) && Listening(w) && Causal(net)
    ensures Agrees(Advance(net, w, t), book)
  {
    if t == 0 {
      BookkeepingAgrees(w, Advance(net, w, 0), book);
    } else {
      OpenKeeps(net, w, t, (x: World) => true, false);
      OpenKeepsAgreement(net, w, t, book);
      hide Agrees, Open;
      DrainKeepsAgreement(net, Open(net, w, t), book);
      hide Drain;
      BookkeepingAgrees(Drain(net, Open(net, w, t)), Answer(Drain(net, Open(net, w, t))), book);
    }
  }

  lemma {:induction false} MovesOf(nodes: seq<(nat, Vector)>)
    ensures forall c :: c in Moves(nodes) ==> c.UpdateNodePosition? && exists x :: x in nodes && x.0 == c.id
    ensures Moves(nodes) == [] <==> nodes == []
  {
    if nodes != [] {
      MovesOf(nodes[1..]);
      assert forall x :: x in nodes <==> x == nodes[0] || x in nodes[1..];
      forall c | c in Moves(nodes) ensures c.UpdateNodePosition? && exists x :: x in nodes && x.0 == c.id {
        if c !in Moves(nodes[1..]) {
          assert nodes[0] in nodes && nodes[0].0 == c.id;
        }
      }
    }
  }

  lemma DeferredKeepsAgreement(net: Network, w: World, book: Book, c: Command)
    requires Agrees(w, book) && Listening(w) && Orderly(w, book, c)
    requires PlanOf(w.b.started, c).AtTime?
    ensures Agrees(Dispatch(net, w, c), BookAfter(book, w.b.started, c))
  {
    var p := PlanOf(w.b.started, c);
    hide Agrees, Schedule, LateRadios;
    if c.AddNode? {
      ScheduleAddKeepsAgreement(w, book, p.time, p.calls[0], Entry(true, c.time, c.kind == AddRadio));
      assert ScheduleAll(w, p.time, p.calls) == Schedule(w, p.time - w.k.currentTs, Deferred(p.calls[0]));
    } else {
      if c.UpdateNode? {
        MovesOf(c.nodes);
      }
      ScheduleAllKeepsAgreement(w, book, p.time, p.calls);
    }
    hide ScheduleAll;
    var w1 := ScheduleAll(w, p.time, p.calls);
    BookkeepingAgrees(w1, Ack(w1), BookAfter(book, w.b.started, c));
  }

  lemma ImmediateKeepsAgreementNow(w: World, book: Book, c: Command)
    requires Agrees(w, book) && Listening(w) && Orderly(w, book, c) && PlanOf(w.b.started, c).Immediate?
    ensures Agrees(Perform(w, PlanOf(w.b.started, c).call), BookAfter(book, w.b.started, c))
  {
    hide Agrees, LateRadios, Perform;
    var call := PlanOf(w.b.started, c).call;
    if call.CreateRadioNode? || call.CreateWiredNode? {
      MakeNow(w, book, call, Entry(false, c.time, c.kind == AddRadio));
    } else {
      ConfigureNow(w, book, call);
    }
  }

  lemma ImmediateKeepsAgreement(net: Network, w: World, book: Book, c: Command)
    requires Agrees(w, book) && Listening(w) && Orderly(w, book, c) && Causal(net)
    requires PlanOf(w.b.started, c).Immediate?
    ensures Agrees(Dispatch(net, w, c), BookAfter(book, w.b.started, c))
  {
    var call := PlanOf(w.b.started, c).call;
    var book' := BookAfter(book, w.b.started, c);
    hide Agrees, LateRadios, Perform, Respond;
    ImmediateKeepsAgreementNow(w, book, c);
    ReactionKeepsAgreement(net, w, Perform(w, call), book');
    var w1 := Respond(net, w, Perform(w, call));
    BookkeepingAgrees(w1, Ack(w1), book');
  }

  lemma OrderlyCommandKeepsAgreement(net: Network, w: World, book: Book, c: Command)
    requires Agrees(w, book) && Listening(w) && Orderly(w, book, c) && Causal(net)
    ensures Agrees(Dispatch(net, w, c), BookAfter(book, w.b.started, c))
  {
    hide Agrees, Orderly, InTime, Advance, ScheduleAll, Respond, Perform, LateRadios;
    var p := PlanOf(w.b.started, c);
    if p.Immediate? {
      ImmediateKeepsAgreement(net, w, book, c);
    } else if p.AtTime? {
      DeferredKeepsAgreement(net, w, book, c);
    } else if p.Grant? {
      AdvanceKeepsAgreement(net, w, p.time, book);
    } else {
      EndingKeepsAgreement(w, if p.Fail? then p.why else LateNodeB, book);
    }
  }

  lemma EndingKeepsAgreement(w: World, why: Reason, book: Book)
    requires Agrees(w, book) && (why == LateNodeB || why == UnsupportedRadio)
    ensures Agrees(Exit(w, why), book) && Agrees(Close(w), book) && Agrees(Finishing(w), book)
  {
    KernelRuns.DestroyIsSound(w.k, w.handles);
    BookkeepingAgrees(w, Close(w), book);
    hide KernelRuns.KernelSound, Manager.Inv, QueueAgrees, PoolAgrees;
  }

  // An orderly stream of commands never ends the process over an id or the pool, whatever ns-3 does.
  lemma {:induction false} OrderlyStreamsNeverAbort(net: Network, w: World, book: Book, cs: seq<Command>)
    requires Agrees(w, book) && OrderlyRun(net, w, book, cs) && Causal(net)
    ensures !BadId(Run(net, w, cs).status)
    decreases |cs|
  {
    hide Manager.Inv, KernelRuns.KernelSound, QueueAgrees, PoolAgrees, Dispatch, Orderly;
    if cs != [] && Listening(w) {
      OrderlyCommandKeepsAgreement(net, w, book, cs[0]);
      OrderlyStreamsNeverAbort(net, Dispatch(net, w, cs[0]), BookAfter(book, w.b.started, cs[0]), cs[1..]);
    }
  }
}
