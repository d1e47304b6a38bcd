// Orderly command streams that also respect kinds and addresses never end the process at all: the only exit left
// is a failing SendTo inside ns-3.
module NoExit {
  import opened Types
  import opened Federation
  import opened Steps
  import opened Discipline
  import Bridge
  import Kernel
  import KernelRuns
  import ListScheduler
  import Manager
  import ManagerTheory
  import ManagerRuns

  // Moves and Wi-Fi are for radio nodes, messages go on the control channel, addresses suit the kind of node.
  predicate Fits(book: Book, c: Call) {
    c.CreateNodeB? ||
    (c.id in book &&
     match c
     case UpdateNodePosition(id, _) => book[id].radio
     case ConfigureWifiRadio(id, _, _) => book[id].radio
     case SendWifiMsg(id, _, channel, _, _) => book[id].radio && channel == PROTO_CCH
     case ConfigureCellRadio(id, ip) => ManagerTheory.AcceptedAddress(book[id].radio, ip)
     case CreateWiredNode(id) => !book[id].radio
     case ActivateRadioNode(id, _) => book[id].radio
     case CreateRadioNode(id, _) => book[id].radio
     case _ => true)
  }

  // No command is one that the dispatcher itself refuses by ending the process.
  predicate Proper(started: bool, book: Book, c: Command) {
    match PlanOf(started, c)
    case Immediate(call) => Fits(book, call)
    case AtTime(_, calls) => forall x :: x in calls ==> Fits(book, x)
    case Fail(_) => false
    case _ => true
  }

  ghost predicate ProperRun(net: Network, w: World, book: Book, cs: seq<Command>)
    decreases |cs|
  {
    cs == [] || !Listening(w) ||
    (var book' := BookAfter(book, w.b.started, cs[0]);
     Orderly(w, book, cs[0]) && Proper(w.b.started, book', cs[0])
     && ProperRun(net, Dispatch(net, w, cs[0]), book', cs[1..]))
  }

  // ---------- the invariant ----------

  ghost predicate KindsAgree(m: Manager.State, book: Book) {
    forall id :: id in m.toNs3 ==> id in book && (m.toNs3[id] in m.radio <==> book[id].radio)
  }

  ghost predicate QueueFits(q: seq<Event>, book: Book) {
    forall e :: e in q && e.job.Deferred? ==> Fits(book, e.job.call)
  }

  predicate Survives(s: Status) {
    s.Exited? ==> s.why == SendFailed
  }

  ghost predicate Strict(w: World, book: Book) {
    Agrees(w, book) && KindsAgree(w.m, book) && QueueFits(w.k.events, book) && Survives(w.status)
  }

  // ---------- one manager call ----------

  lemma FittingCallSucceeds(m: Manager.State, book: Book, c: Call)
    requires Manager.Inv(m) && KindsAgree(m, book) && Fits(book, c)
    requires !BadId(VerdictStatus(Manager.Apply(m, c).verdict))
    ensures Manager.Apply(m, c).verdict == Manager.Fine
    ensures KindsAgree(Manager.Apply(m, c).m, book)
  {
    hide Manager.Apply;
    ManagerTheory.ExitConditions(m, c);
    if ManagerTheory.Creates(c) {
      ManagerTheory.NewIdKind(m, c);
      assert forall id :: id in m.toNs3 ==> m.toNs3[id] in m.toMosaic;
    } else if c.CreateNodeB? {
      ManagerTheory.MapsSameForNodeB(m, c);
      RadioKept(m, c);
    } else {
      ManagerTheory.SoundNode(m, c.id);
      ManagerTheory.CommandKeepsMaps(m, c);
      RadioKept(m, c);
    }
  }

  function VerdictStatus(v: Manager.Verdict): Status {
    if v.Exit? then Exited(v.why) else Running
  }

  lemma RadioKept(m: Manager.State, c: Call)
    requires !ManagerTheory.Creates(c)
    ensures Manager.Apply(m, c).m.radio == m.radio
  {
    hide Manager.CreateRadioNode, Manager.CreateWiredNode, Manager.ActivateRadioNode;
  }

  // ---------- the steps between commands ----------

  lemma ActKeepsRest(w: World, a: Action)
    ensures Act(w, a).m.toNs3 == w.m.toNs3 && Act(w, a).m.radio == w.m.radio
    ensures var s := Act(w, a).status;
            s == w.status || s in {Exited(NegativeTime), Exited(SendFailed), Exited(UnknownNs3Node)}
  {
    hide Kernel.Insert, Kernel.Remove, Bridge.WriteNextTime;
  }

  lemma SameDeferredFit(q: seq<Event>, q': seq<Event>, book: Book)
    requires QueueFits(q, book)
    requires forall e: Event :: e.job.Deferred? ==> (e in q <==> e in q')
    ensures QueueFits(q', book)
  {
    hide Fits;
  }

  lemma ActSurvives(w: World, a: Action)
    requires KernelRuns.Sound(w) && Manager.Inv(w.m) && Survives(w.status) && w.status.Running? && CausalAction(a)
    ensures Survives(Act(w, a).status)
  {
    hide Act, KernelRuns.KernelSound, Manager.Inv;
    ActKeepsRest(w, a);
    KernelRuns.ActIsSound(w, a);
    ManagerRuns.ActKeepsManager(w, a);
  }

  lemma ActKeepsStrict(w: World, a: Action, book: Book)
    requires Strict(w, book) && w.status.Running? && CausalAction(a)
    ensures Strict(Act(w, a), book)
  {
    hide Act, KernelRuns.KernelSound, Manager.Inv, QueueAgrees, PoolAgrees, QueueFits, Fits, CausalAction;
    ActKeepsAgreement(w, a, book);
    ActKeepsCommands(w, a);
    ActKeepsRest(w, a);
    ActSurvives(w, a);
    SameDeferredFit(w.k.events, Act(w, a).k.events, book);
  }

  lemma BeginKeepsStrict(w: World, book: Book)
    requires Strict(w, book) && Go(w) && w.b.started
    ensures Strict(Begin(w), book)
  {
    hide KernelRuns.KernelSound, Manager.Inv, QueueAgrees, PoolAgrees, Fits, Begin, Manager.Apply;
    BeginKeepsAgreement(w, book);
    BeginShape(w);
    var e := w.k.events[0];
    assert e in w.k.events;
    assert forall x :: x in w.k.events[1..] ==> x in w.k.events;
    if e.job.Deferred? {
      FittingCallSucceeds(w.m, book, e.job.call);
    }
  }

  lemma InnerStepKeepsStrict(w: World, s: Step, book: Book)
    requires Strict(w, book) && Inner(s) && Enabled(w, s, true)
    ensures Strict(Take(w, s), book)
  {
    hide Agrees, KindsAgree, QueueFits, Act, Begin;
    match s
    case DoAct(a) => ActKeepsStrict(w, a, book);
    case DoBegin => BeginKeepsStrict(w, book);
    case DoDiverge => BadStatusAgrees(w, book);
  }

  lemma BadStatusAgrees(w: World, book: Book)
    requires Agrees(w, book)
    ensures Agrees(w.(status := Diverged), book)
  {
    hide KernelRuns.KernelSound, Manager.Inv, QueueAgrees, PoolAgrees;
  }

  lemma ReactionKeepsStrict(net: Network, before: World, w: World, book: Book)
    requires Strict(w, book) && Causal(net)
    ensures Strict(Respond(net, before, w), book)
  {
    var I := (x: World) => Strict(x, book);
    forall x, s | I(x) && Inner(s) && Enabled(x, s, true) ensures I(Take(x, s)) {
      InnerStepKeepsStrict(x, s, book);
    }
    RespondKeeps(net, before, w, I, true);
  }

  lemma DrainKeepsStrict(net: Network, w: World, book: Book)
    requires Strict(w, book) && Causal(net) && (w.status.Running? ==> w.b.started)
    ensures Strict(Drain(net, w), book)
  {
    var I := (x: World) => Strict(x, book);
    forall x, s | I(x) && Inner(s) && Enabled(x, s, true) ensures I(Take(x, s)) {
      InnerStepKeepsStrict(x, s, book);
    }
    DrainKeeps(net, w, I, true);
  }

  // ---------- commands ----------

  // The rest of Strict follows the list, the manager and the status.
  lemma RestKept(w: World, w': World, book: Book)
    requires Strict(w, book) && Agrees(w', book)
    requires w'.k.events == w.k.events && w'.m.toNs3 == w.m.toNs3 && w'.m.radio == w.m.radio
    requires Survives(w'.status)
    ensures Strict(w', book)
  {
    hide Agrees, Fits;
  }

  lemma {:induction false} SparesKeepRadio(m: Manager.State, k: nat)
    ensures var m' := Manager.MakeSpares(m, k).0; m'.toNs3 == m.toNs3 && m'.radio == m.radio
    decreases k
  {
    if k > 0 {
      SparesKeepRadio(m, k - 1);
    }
  }

  lemma AdvanceKeepsStrict(net: Network, w: World, t: nat, book: Book)
    requires Strict(w, book) && Listening(w) && Causal(net)
    ensures Strict(Advance(net, w, t), book)
  {
    AdvanceKeepsAgreement(net, w, t, book);
    if t == 0 {
      RestKept(w, Advance(net, w, 0), book);
    } else {
      OpenKeepsStrict(net, w, t, book);
      OpenKeeps(net, w, t, (x: World) => true, false);
      hide Strict, Open;
      DrainKeepsStrict(net, Open(net, w, t), book);
      AnswerKeepsStrict(Drain(net, Open(net, w, t)), book);
    }
  }

  lemma AnswerKeepsStrict(w: World, book: Book)
    requires Strict(w, book)
    ensures Strict(Answer(w), book)
  {
    hide Agrees;
    BookkeepingAgrees(w, Answer(w), book);
    RestKept(w, Answer(w), book);
  }

  lemma OpenKeepsStrict(net: Network, w: World, t: nat, book: Book)
    requires Strict(w, book) && Listening(w) && Causal(net) && t > 0
    ensures Strict(Open(net, w, t), book)
  {
    hide Agrees, KindsAgree, QueueFits, Launch, Acts;
    OpenKeepsAgreement(net, w, t, book);
    var w1 := SetGrant(w, t);
    BookkeepingAgrees(w, w1, book);
    RestKept(w, w1, book);
    if w.b.started {
      RestKept(w1, Open(net, w, t), book);
    } else {
      LaunchKeepsAgreement(w1, book);
      LaunchShape(w1);
      SparesKeepRadio(w1.m, w1.m.numExtra);
      RestKept(w1, Launch(w1), book);
      ReactionKeepsStrict(net, w1, Launch(w1), book);
      RestKept(Respond(net, w1, Launch(w1)), Open(net, w, t), book);
    }
  }

  // A larger book in which the old ids keep their entries.
  lemma MoreBook(q: seq<Event>, m: Manager.State, book: Book, book': Book)
    requires QueueFits(q, book) && KindsAgree(m, book)
    requires forall id :: id in book ==> id in book' && book'[id] == book[id]
    ensures QueueFits(q, book') && KindsAgree(m, book')
  {
  }

  lemma QueueOfOneMore(q: seq<Event>, e: Event, book: Book)
    requires QueueFits(q, book) && (e.job.Deferred? ==> Fits(book, e.job.call))
    ensures QueueFits(ListScheduler.Insert(q, e), book)
  {
    hide Fits;
  }

  lemma {:induction false} QueueOfMoreCalls(w: World, time: nat, calls: seq<Call>, book: Book)
    requires QueueFits(w.k.events, book) && forall x :: x in calls ==> Fits(book, x)
    ensures var w' := ScheduleAll(w, time, calls);
            QueueFits(w'.k.events, book) && w'.m == w.m && w'.status == w.status
    decreases |calls|
  {
    if calls != [] {
      hide Fits, QueueFits, Schedule, ListScheduler.Insert;
      var w1 := Schedule(w, time - w.k.currentTs, Deferred(calls[0]));
      KernelRuns.ScheduleShape(w, time, calls[0]);
      QueueOfOneMore(w.k.events, Event(time, w.k.uid, w.k.currentContext, Deferred(calls[0])), book);
      QueueOfMoreCalls(w1, time, calls[1..], book);
    }
  }

  lemma DeferredKeepsStrict(net: Network, w: World, book: Book, c: Command)
    requires Strict(w, book) && Listening(w) && Orderly(w, book, c)
    requires PlanOf(w.b.started, c).AtTime? && Proper(w.b.started, BookAfter(book, w.b.started, c), c)
    ensures Strict(Dispatch(net, w, c), BookAfter(book, w.b.started, c))
  {
    var p, book' := PlanOf(w.b.started, c), BookAfter(book, w.b.started, c);
    DeferredKeepsAgreement(net, w, book, c);
    OldEntriesStay(w, book, c);
    hide Agrees, Fits, Orderly, BookAfter, LateRadios;
    MoreBook(w.k.events, w.m, book, book');
    QueueOfMoreCalls(w, p.time, p.calls, book');
    hide ScheduleAll;
  }

  lemma OldEntriesStay(w: World, book: Book, c: Command)
    requires Orderly(w, book, c)
    ensures var book' := BookAfter(book, w.b.started, c); forall id :: id in book ==> id in book' && book'[id] == book[id]
  {
  }

  lemma ImmediateKeepsStrict(net: Network, w: World, book: Book, c: Command)
    requires Strict(w, book) && Listening(w) && Orderly(w, book, c) && Causal(net)
    requires PlanOf(w.b.started, c).Immediate? && Proper(w.b.started, BookAfter(book, w.b.started, c), c)
    ensures Strict(Dispatch(net, w, c), BookAfter(book, w.b.started, c))
  {
    var call, book' := PlanOf(w.b.started, c).call, BookAfter(book, w.b.started, c);
    OldEntriesStay(w, book, c);
    MoreBook(w.k.events, w.m, book, book');
    ImmediateKeepsAgreementNow(w, book, c);
    hide Agrees, Fits, Orderly, BookAfter, LateRadios, KindsAgree, QueueFits, Manager.Apply;
    assert Strict(Perform(w, call), book') by {
      PerformFits(w, book', call);
    }
    hide Perform, Strict;
    ReactionKeepsStrict(net, w, Perform(w, call), book');
    AckKeepsStrict(Respond(net, w, Perform(w, call)), book');
  }

  lemma PerformFits(w: World, book': Book, call: Call)
    requires Agrees(Perform(w, call), book') && w.status.Running? && KernelRuns.Sound(w) && Manager.Inv(w.m)
    requires KindsAgree(w.m, book') && QueueFits(w.k.events, book') && Fits(book', call)
    ensures Strict(Perform(w, call), book')
  {
    hide KernelRuns.KernelSound, Manager.Inv, QueueAgrees, PoolAgrees, Fits, KindsAgree, QueueFits, Manager.Apply, Perform;
    PerformShape(w, call);
    FittingCallSucceeds(w.m, book', call);
  }

  lemma AckKeepsStrict(w: World, book: Book)
    requires Strict(w, book)
    ensures Strict(Ack(w), book)
  {
    hide Agrees;
    BookkeepingAgrees(w, Ack(w), book);
    RestKept(w, Ack(w), book);
  }

  lemma CommandKeepsStrict(net: Network, w: World, book: Book, c: Command)
    requires Strict(w, book) && Listening(w) && Orderly(w, book, c) && Causal(net)
    requires Proper(w.b.started, BookAfter(book, w.b.started, c), c)
    ensures Strict(Dispatch(net, w, c), BookAfter(book, w.b.started, c))
  {
    hide Agrees, KindsAgree, QueueFits, Orderly, Advance, ScheduleAll, Respond, Perform, LateRadios, Kernel.Destroy;
    var p := PlanOf(w.b.started, c);
    if p.Immediate? {
      ImmediateKeepsStrict(net, w, book, c);
    } else if p.AtTime? {
      DeferredKeepsStrict(net, w, book, c);
    } else if p.Grant? {
      AdvanceKeepsStrict(net, w, p.time, book);
    } else {
      EndingKeepsStrict(w, book);
    }
  }

  lemma EndingKeepsStrict(w: World, book: Book)
    requires Strict(w, book)
    ensures Strict(Close(w), book) && Strict(Finishing(w), book)
  {
    EndingKeepsAgreement(w, LateNodeB, book);
    RestKept(w, Close(w), book);
    RestKept(w, Finishing(w), book);
  }

  // Whatever ns-3 does, a run of orderly and proper commands ends the process only if ns-3 itself fails to send.
  lemma {:induction false} ProperStreamsNeverExit(net: Network, w: World, book: Book, cs: seq<Command>)
    requires Strict(w, book) && ProperRun(net, w, book, cs) && Causal(net)
    ensures Survives(Run(net, w, cs).status)
    decreases |cs|
  {
    hide Agrees, KindsAgree, QueueFits, Dispatch, Orderly, Proper, BookAfter;
    if cs != [] && Listening(w) {
      CommandKeepsStrict(net, w, book, cs[0]);
      ProperStreamsNeverExit(net, Dispatch(net, w, cs[0]), BookAfter(book, w.b.started, cs[0]), cs[1..]);
    }
  }
}
