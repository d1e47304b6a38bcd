// The state after the handshake meets what the results over runs ask for, so they hold of every run from there.
module FromTheStart {
  import opened Types
  import opened Federation
  import opened Walks
  import Kernel
  import KernelRuns
  import KernelTheory
  import Manager
  import ManagerRuns
  import ReportRuns
  import Replies
  import StartUp
  import Discipline
  import Gates
  import Ledger
  import NoExit

  lemma InitialState(preemptive: bool, firstNode: nat, numExtra: nat)
    ensures var w := Initial(preemptive, firstNode, numExtra);
      && KernelRuns.Sound(w) && Manager.Inv(w.m) && ReportRuns.Rare(w) && ReportRuns.Stamped(w)
      && StartUp.Unstarted(w) && Replies.ClockWithin(0, w) && Discipline.Agrees(w, map[]) && Gates.Gated(w)
      && StartUp.Listed(w) && Ledger.InBalance(w) && Ledger.InTally(w) && (preemptive ==> ReportRuns.Silent(w))
  {
    var w := Initial(preemptive, firstNode, numExtra);
    KernelTheory.InitialInv();
    hide Kernel.Inv;
    assert Manager.Inv(w.m);
    hide Manager.Inv;
    assert Discipline.LateRadios(map[]) == {};
    assert Ledger.Balanced(w.m, multiset{});
  }

  // Any commands in time and any ns-3 that does not schedule into the past.
  lemma EveryRun(net: Network, preemptive: bool, firstNode: nat, numExtra: nat, cs: seq<Command>)
    requires Causal(net) && AllInTime(net, Initial(preemptive, firstNode, numExtra), cs)
    ensures var w := Run(net, Initial(preemptive, firstNode, numExtra), cs);
      && KernelRuns.Sound(w) && Manager.Inv(w.m) && ReportRuns.Announced(w) && ReportRuns.Stamped(w)
      && StartUp.Unstarted(w) && Gates.Gated(w) && w.k.currentTs <= Replies.MaxGrant(cs)
      && w.status !in {Exited(ClockAssertion), Exited(NegativeTime), Exited(UnknownNs3Node)}
  {
    var w := Initial(preemptive, firstNode, numExtra);
    InitialState(preemptive, firstNode, numExtra);
    hide KernelRuns.KernelSound, Manager.Inv, ReportRuns.Announced, ReportRuns.Stamped, StartUp.Unstarted,
         Gates.GateInv;
    KernelRuns.RunIsSound(net, w, cs);
    ManagerRuns.RunKeepsManager(net, w, cs);
    ReportRuns.RunKeepsAnnounced(net, w, cs);
    ReportRuns.StampsNeverDecrease(net, w, cs);
    StartUp.NothingRunsBeforeOnStart(net, w, cs);
    Gates.RunKeepsGates(net, w, cs);
    Replies.NowStaysWithinGrants(net, w, cs, Replies.MaxGrant(cs));
  }

  // And not only at the end: the same holds at each moment of the run, within handlers and grants.
  lemma EveryMoment(net: Network, preemptive: bool, firstNode: nat, numExtra: nat, cs: seq<Command>, n: nat, i: nat)
    requires Causal(net) && AllInTime(net, Initial(preemptive, firstNode, numExtra), cs)
    requires i <= |Trail(net, Initial(preemptive, firstNode, numExtra), cs, n)|
    ensures var w := Moment(net, Initial(preemptive, firstNode, numExtra), cs, n, i);
      && KernelRuns.Sound(w) && Manager.Inv(w.m) && ReportRuns.Announced(w) && ReportRuns.Stamped(w)
      && StartUp.Unstarted(w) && Gates.Gated(w) && w.k.currentTs <= Replies.MaxGrant(cs)
      && w.status !in {Exited(ClockAssertion), Exited(NegativeTime), Exited(UnknownNs3Node)}
  {
    var w := Initial(preemptive, firstNode, numExtra);
    InitialState(preemptive, firstNode, numExtra);
    hide KernelRuns.KernelSound, Manager.Inv, ReportRuns.Announced, ReportRuns.Stamped, StartUp.Unstarted,
         Gates.GateInv, Trail, Walk, Possible;
    var ss := Trail(net, w, cs, n)[..i];
    LaterMoment(net, w, cs, n, i, i, true);
    LaterMoment(net, w, cs, n, i, i, false);
    KernelRuns.WalkIsSound(w, ss);
    ManagerRuns.WalkKeepsManager(w, ss);
    ReportRuns.WalkKeepsAnnounced(w, ss);
    ReportRuns.WalkKeepsStamps(w, ss);
    StartUp.WalkKeepsUnstarted(w, ss);
    Gates.WalkKeepsGates(w, ss);
    Replies.NowIsWithinGrants(net, w, cs, n, i);
  }

  // Between any two moments i and j of one run: what is cancelled at i never runs, what is removed at i stays silent,
  // and a start that is over at i is final.
  lemma FromMomentToMoment(net: Network, preemptive: bool, firstNode: nat, numExtra: nat, cs: seq<Command>,
                           n: nat, i: nat, j: nat)
    requires Causal(net) && AllInTime(net, Initial(preemptive, firstNode, numExtra), cs)
    requires i <= j <= |Trail(net, Initial(preemptive, firstNode, numExtra), cs, n)|
    ensures var w := Initial(preemptive, firstNode, numExtra);
            var x, y := Moment(net, w, cs, n, i), Moment(net, w, cs, n, j);
      && (forall u :: u in x.k.cancelled ==> u !in y.k.journal.ran)
      && (forall node :: node in x.m.deactivated ==> ManagerRuns.Silent(x, y, node))
      && (x.b.started ==> StartUp.Frozen(x, y))
  {
    var w := Initial(preemptive, firstNode, numExtra);
    var x, y := Moment(net, w, cs, n, i), Moment(net, w, cs, n, j);
    var ss := Trail(net, w, cs, n)[i..j];
    EveryMoment(net, preemptive, firstNode, numExtra, cs, n, i);
    LaterMoment(net, w, cs, n, i, j, true);
    LaterMoment(net, w, cs, n, i, j, false);
    NodesAreOld(x.m);
    hide KernelRuns.KernelSound, Manager.Inv, ReportRuns.Announced, ReportRuns.Stamped, StartUp.Unstarted,
         Gates.GateInv, Trail, Walk, Possible, Moment, ManagerRuns.Silent, StartUp.Frozen;
    forall u | u in x.k.cancelled ensures u !in y.k.journal.ran {
      KernelRuns.CancelledHandlersNeverRun(x, ss, u);
    }
    forall node | node in x.m.deactivated ensures ManagerRuns.Silent(x, y, node) {
      ManagerRuns.RemovalIsPermanent(x, ss, node);
    }
    if x.b.started {
      StartUp.OnStartIsOnceAndFinal(x, ss);
    }
  }

  lemma NodesAreOld(m: Manager.State)
    requires Manager.Inv(m)
    ensures forall n :: n in m.nodes ==> n < m.nextNode
  {
  }

  // Orderly commands: no exit for an unknown id, a duplicate id or an exhausted pool, ever.
  lemma EveryOrderlyRun(net: Network, preemptive: bool, firstNode: nat, numExtra: nat, cs: seq<Command>)
    requires Causal(net) && Discipline.OrderlyRun(net, Initial(preemptive, firstNode, numExtra), map[], cs)
    ensures !Discipline.BadId(Run(net, Initial(preemptive, firstNode, numExtra), cs).status)
  {
    InitialState(preemptive, firstNode, numExtra);
    hide Discipline.Agrees;
    Discipline.OrderlyStreamsNeverAbort(net, Initial(preemptive, firstNode, numExtra), map[], cs);
  }

  // Orderly and proper commands: nothing but a failing SendTo of ns-3 ever ends the process.
  lemma EveryProperRun(net: Network, preemptive: bool, firstNode: nat, numExtra: nat, cs: seq<Command>)
    requires Causal(net) && NoExit.ProperRun(net, Initial(preemptive, firstNode, numExtra), map[], cs)
    ensures var s := Run(net, Initial(preemptive, firstNode, numExtra), cs).status; s.Exited? ==> s.why == SendFailed
  {
    var w := Initial(preemptive, firstNode, numExtra);
    InitialState(preemptive, firstNode, numExtra);
    assert NoExit.Strict(w, map[]) by {
      hide Discipline.Agrees;
    }
    hide NoExit.Strict;
    NoExit.ProperStreamsNeverExit(net, w, map[], cs);
  }
}
