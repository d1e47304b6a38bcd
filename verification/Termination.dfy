// The grant loop ends when every handler answers with boundedly many events, each strictly later or, at the same
// time, of a smaller rank.
module Termination {
  import opened Types
  import opened Federation
  import opened Steps
  import opened Grants
  import Bridge
  import Kernel
  import KernelRuns
  import ListScheduler
  import Manager

  // How many actions ns-3 takes at a time, how many ranks there are, and the rank of each of its event kinds.
  datatype Bound = Bound(width: nat, ranks: nat, rank: nat -> nat)

  predicate ValidRanks(b: Bound, tag: nat) {
    b.rank(tag) < b.ranks
  }

  function JobRank(b: Bound, job: Job): nat {
    match job
    case StopCall => 0
    case Timer(tag) => 1 + b.rank(tag)
    case Deferred(_) => 1 + b.ranks
  }

  // The rank of the job that ns-3 reacts to.
  function CauseRank(b: Bound, s: Stimulus): nat {
    if |s.effects| == 1 && s.effects[0].Fired? then JobRank(b, Timer(s.effects[0].tag)) else 1 + b.ranks
  }

  // The scheduling an action asks for: the delay and the rank of the new event.
  predicate Descends(b: Bound, a: Action, rank: nat) {
    match a
    case Later(delay, tag) => delay > 0 || (delay == 0 && JobRank(b, Timer(tag)) < rank)
    case LaterIn(_, delay, tag) => delay > 0 || (delay == 0 && JobRank(b, Timer(tag)) < rank)
    case AtOnce(tag) => JobRank(b, Timer(tag)) < rank
    case StopLater(delay) => delay >= 0
    case _ => true
  }

  ghost predicate Bounded(net: Network, b: Bound) {
    && (forall tag: nat :: ValidRanks(b, tag))
    && forall h :: h != [] ==>
         |net(h)| <= b.width && forall a :: a in net(h) ==> Descends(b, a, CauseRank(b, h[|h| - 1]))
  }

  // ---------- the weight of a queue ----------

  function Pow(base: nat, e: nat): nat {
    if e == 0 then 1 else base * Pow(base, e - 1)
  }

  // d times the number of ranks
  function Height(b: Bound, d: nat): nat {
    if d == 0 then 0 else b.ranks + 2 + Height(b, d - 1)
  }

  // How far an event is from the end of the grant, in ranks.
  function Level(b: Bound, e: Event, t: nat): nat
    requires e.ts <= t
  {
    Height(b, t - e.ts) + JobRank(b, e.job)
  }

  function EventWeight(b: Bound, e: Event, t: nat): nat {
    if e.ts > t then 0 else Pow(b.width + 1, Level(b, e, t))
  }

  function Weight(b: Bound, q: seq<Event>, t: nat): nat {
    if q == [] then 0 else EventWeight(b, q[0], t) + Weight(b, q[1..], t)
  }

  lemma {:induction false} WeightOfInsert(b: Bound, q: seq<Event>, e: Event, t: nat)
    ensures Weight(b, ListScheduler.Insert(q, e), t) == Weight(b, q, t) + EventWeight(b, e, t)
  {
    if q != [] && !ListScheduler.Before(e, q[0]) {
      WeightOfInsert(b, q[1..], e, t);
    }
  }

  lemma {:induction false} WeightOfRemove(b: Bound, q: seq<Event>, uid: nat, t: nat)
    ensures Weight(b, ListScheduler.Remove(q, uid), t) <= Weight(b, q, t)
  {
    if q != [] && q[0].uid != uid {
      WeightOfRemove(b, q[1..], uid, t);
    }
  }

  lemma {:induction false} PowGrows(base: nat, e: nat, e': nat)
    requires base >= 1 && e <= e'
    ensures 1 <= Pow(base, e) <= Pow(base, e')
    decreases e'
  {
    if e < e' {
      PowGrows(base, e, e' - 1);
      assert Pow(base, e') == base * Pow(base, e' - 1) >= Pow(base, e' - 1);
    } else if e > 0 {
      PowGrows(base, e - 1, e - 1);
      assert Pow(base, e) == base * Pow(base, e - 1) >= 1;
    }
  }

  lemma {:induction false} HeightGrows(b: Bound, d: nat, d': nat)
    requires d < d'
    ensures Height(b, d) + b.ranks + 2 <= Height(b, d')
    decreases d'
  {
    if d < d' - 1 {
      HeightGrows(b, d, d' - 1);
    }
  }

  // A new event that descends from one at time now and with this rank weighs at most one step less.
  lemma ChildWeighsLess(b: Bound, e: Event, now: nat, rank: nat, t: nat)
    requires now <= t && 1 <= rank && JobRank(b, e.job) <= b.ranks + 1
    requires now < e.ts || (now == e.ts && JobRank(b, e.job) < rank)
    ensures EventWeight(b, e, t) <= Pow(b.width + 1, Height(b, t - now) + rank - 1)
  {
    if e.ts <= t {
      if now < e.ts {
        HeightGrows(b, t - e.ts, t - now);
      }
      PowGrows(b.width + 1, Level(b, e, t), Height(b, t - now) + rank - 1);
    }
  }

  // ---------- one event ----------

  // Each action adds at most one child.
  lemma ActAddsAChild(b: Bound, w: World, a: Action, rank: nat, t: nat)
    requires forall tag: nat :: ValidRanks(b, tag)
    requires w.k.currentTs <= t && 1 <= rank && Descends(b, a, rank)
    ensures Weight(b, Act(w, a).k.events, t)
            <= Weight(b, w.k.events, t) + Pow(b.width + 1, Height(b, t - w.k.currentTs) + rank - 1)
    ensures Act(w, a).k.currentTs == w.k.currentTs
  {
    hide Pow, Height, Weight, EventWeight, Bridge.WriteNextTime, Manager.Receive, ListScheduler.Insert, ListScheduler.Remove;
    var k, now := w.k, w.k.currentTs;
    match a
    case Later(delay, tag) => {
      assert ValidRanks(b, tag);
      NewChild(b, k, now + delay, k.currentContext, Timer(tag), rank, t);
    }
    case LaterIn(context, delay, tag) => {
      assert ValidRanks(b, tag);
      NewChild(b, k, now + delay, context, Timer(tag), rank, t);
    }
    case AtOnce(tag) => {
      assert ValidRanks(b, tag);
      NewChild(b, k, now, k.currentContext, Timer(tag), rank, t);
    }
    case StopLater(delay) => NewChild(b, k, now + delay, k.currentContext, StopCall, rank, t);
    case RemoveEvent(i) =>
      if i < |w.handles| {
        WeightOfRemove(b, k.events, w.handles[i].uid, t);
      }
    case _ =>
  }

  lemma NewChild(b: Bound, k: Kernel.State, ts: nat, context: nat, job: Job, rank: nat, t: nat)
    requires k.currentTs <= t && 1 <= rank && JobRank(b, job) <= b.ranks + 1
    requires k.currentTs < ts || (k.currentTs == ts && JobRank(b, job) < rank)
    ensures Weight(b, Kernel.Insert(k, ts, context, job).events, t)
            <= Weight(b, k.events, t) + Pow(b.width + 1, Height(b, t - k.currentTs) + rank - 1)
  {
    hide Pow, Height, Weight;
    var e := Event(ts, k.uid, context, job);
    WeightOfInsert(b, k.events, e, t);
    ChildWeighsLess(b, e, k.currentTs, rank, t);
  }

  lemma {:induction false} ActsAddChildren(b: Bound, w: World, actions: seq<Action>, rank: nat, t: nat)
    requires forall tag: nat :: ValidRanks(b, tag)
    requires w.k.currentTs <= t && 1 <= rank && forall a :: a in actions ==> Descends(b, a, rank)
    ensures Weight(b, Acts(w, actions).k.events, t)
            <= Weight(b, w.k.events, t) + |actions| * Pow(b.width + 1, Height(b, t - w.k.currentTs) + rank - 1)
    decreases |actions|
  {
    hide Pow, Height, Weight, Act, Descends;
    if actions != [] && w.status.Running? {
      var p := Pow(b.width + 1, Height(b, t - w.k.currentTs) + rank - 1);
      ActAddsAChild(b, w, actions[0], rank, t);
      ActsAddChildren(b, Act(w, actions[0]), actions[1..], rank, t);
      assert |actions| * p == p + |actions[1..]| * p;
    }
  }

  // The event taken out outweighs all that its handler puts in.
  lemma RoundIsLighter(b: Bound, net: Network, w: World)
    requires Bounded(net, b) && KernelRuns.Sound(w) && Go(w)
    ensures Weight(b, RunOne(net, w).k.events, w.b.grant) < Weight(b, w.k.events, w.b.grant)
  {
    hide Pow, Height, Bridge.WriteNextTime, Manager.Apply, Acts, KernelRuns.KernelSound;
    var t, e, w1 := w.b.grant, w.k.events[0], Begin(w);
    KernelRuns.BeginIsSound(w);
    KernelRuns.PopIsSound(w.k, w.handles);
    BeginPops(b, w);
    var base, rank := b.width + 1, JobRank(b, e.job);
    PowGrows(base, 0, Level(b, e, t));
    assert Pow(base, 0) == 1 by { PowZero(base); }
    if w1.status.Running? && |w.history| < |w1.history| {
      var p := Pow(base, Height(b, t - e.ts) + rank - 1);
      ActsAddChildren(b, w1, net(w1.history), rank, t);
      PowStep(base, Height(b, t - e.ts) + rank);
      PowGrows(base, 0, Height(b, t - e.ts) + rank - 1);
      Spread(|net(w1.history)|, b.width, p);
    }
  }

  lemma PowZero(base: nat)
    ensures Pow(base, 0) == 1
  {
  }

  lemma PowStep(base: nat, e: nat)
    requires e >= 1
    ensures Pow(base, e) == base * Pow(base, e - 1)
  {
  }

  lemma Spread(n: nat, width: nat, p: nat)
    requires n <= width && p >= 1
    ensures n * p < (width + 1) * p
  {
    assert (width + 1 - n) * p >= p;
  }

  // Taking the head out removes its weight; ns-3 reacts with the rank of its job.
  lemma BeginPops(b: Bound, w: World)
    requires w.k.events != [] && w.k.currentTs <= w.k.events[0].ts <= w.b.grant
    requires forall tag: nat :: ValidRanks(b, tag)
    ensures var e, w1 := w.k.events[0], Begin(w);
      && w1.k.events == w.k.events[1..] && w1.k.currentTs == e.ts
      && Weight(b, w.k.events, w.b.grant)
         == Weight(b, w1.k.events, w.b.grant) + Pow(b.width + 1, Height(b, w.b.grant - e.ts) + JobRank(b, e.job))
      && (|w.history| < |w1.history| ==>
            JobRank(b, e.job) >= 1 && CauseRank(b, w1.history[|w1.history| - 1]) <= JobRank(b, e.job))
  {
    hide Pow, Height, Manager.Apply;
    var e := w.k.events[0];
    if e.job.Deferred? {
      EffectsAreCalls(b, w, e.job.call);
    }
  }

  lemma EffectsAreCalls(b: Bound, w: World, c: Call)
    requires forall tag: nat :: ValidRanks(b, tag)
    ensures forall s: Stimulus :: CauseRank(b, s) <= 1 + b.ranks
  {
    forall s: Stimulus ensures CauseRank(b, s) <= 1 + b.ranks {
      if |s.effects| == 1 && s.effects[0].Fired? {
        assert ValidRanks(b, s.effects[0].tag);
      }
    }
  }

  // ---------- the loop ----------

  lemma {:induction false} LoopEndsWithin(b: Bound, net: Network, w: World) returns (n: nat)
    requires Causal(net) && Bounded(net, b) && KernelRuns.Sound(w) && (w.status.Running? ==> w.b.started)
    ensures EndsAfter(net, w, n) && n <= Weight(b, w.k.events, w.b.grant)
    decreases Weight(b, w.k.events, w.b.grant)
  {
    hide Weight, KernelRuns.KernelSound;
    if Go(w) {
      RoundIsLighter(b, net, w);
      KernelRuns.RunOneIsSound(net, w);
      RunOneKeepsControl(net, w);
      hide RunOne;
      n := LoopEndsWithin(b, net, RunOne(net, w));
      n := n + 1;
    } else {
      n := 0;
    }
  }

  // With such handlers every grant is answered, after at most as many events as the weight of the queue.
  lemma GrantLoopEnds(b: Bound, net: Network, w: World, t: nat)
    requires Causal(net) && Bounded(net, b) && KernelRuns.Sound(w) && Listening(w) && t > 0
    ensures LoopEnds(net, Open(net, w, t))
    ensures Dispatch(net, w, AdvanceTime(t)).status != Diverged
  {
    hide Open, Drain, KernelRuns.KernelSound, Bounded;
    KernelRuns.OpenIsSound(net, w, t);
    var n := LoopEndsWithin(b, net, Open(net, w, t));
    NeverDiverges(net, w, t);
  }

  predicate NotDiverged(w: World) {
    w.status != Diverged
  }

  lemma NeverDiverges(net: Network, w: World, t: nat)
    requires Listening(w) && t > 0 && LoopEnds(net, Open(net, w, t))
    ensures Advance(net, w, t).status != Diverged
  {
    var w1 := SetGrant(w, t);
    ActsNeverDiverge(Launch(w1), net(Launch(w1).history));
    var n: nat :| EndsAfter(net, Open(net, w, t), n) && Drain(net, Open(net, w, t)) == Loop(net, Open(net, w, t), n);
    LoopNeverDiverges(net, Open(net, w, t), n);
  }

  lemma InnerStepNeverDiverges(w: World, s: Step)
    requires NotDiverged(w) && (s.DoAct? || (s.DoBegin? && w.k.events != []))
    ensures NotDiverged(Take(w, s))
  {
    hide Manager.Apply, Manager.Receive, Kernel.Insert, Kernel.Pop, Bridge.WriteNextTime;
  }

  lemma {:induction false} ActsNeverDiverge(w: World, actions: seq<Action>)
    requires NotDiverged(w)
    ensures NotDiverged(Acts(w, actions))
    decreases |actions|
  {
    hide Act;
    if actions != [] && w.status.Running? {
      InnerStepNeverDiverges(w, DoAct(actions[0]));
      ActsNeverDiverge(Act(w, actions[0]), actions[1..]);
    }
  }

  lemma {:induction false} LoopNeverDiverges(net: Network, w: World, n: nat)
    requires NotDiverged(w)
    ensures NotDiverged(Loop(net, w, n))
    decreases n
  {
    if n > 0 && Go(w) {
      InnerStepNeverDiverges(w, DoBegin);
      ActsNeverDiverge(Begin(w), net(Begin(w).history));
      hide Begin, Acts;
      LoopNeverDiverges(net, RunOne(net, w), n - 1);
    }
  }

  // ---------- granting again ----------

  lemma {:induction false} LoopIsLighter(b: Bound, net: Network, w: World, n: nat)
    requires Causal(net) && Bounded(net, b) && KernelRuns.Sound(w) && (w.status.Running? ==> w.b.started)
    ensures var w' := Loop(net, w, n);
            Weight(b, w'.k.events, w.b.grant) <= Weight(b, w.k.events, w.b.grant) - (if n > 0 && Go(w) then 1 else 0)
    decreases n
  {
    hide Weight, KernelRuns.KernelSound;
    if n > 0 && Go(w) {
      RoundIsLighter(b, net, w);
      KernelRuns.RunOneIsSound(net, w);
      RunOneKeepsControl(net, w);
      hide RunOne;
      LoopIsLighter(b, net, RunOne(net, w), n - 1);
    }
  }

  // A grant that is answered PREEMPTED has executed something.
  lemma PreemptedGrantIsLighter(b: Bound, net: Network, w: World, t: nat)
    requires Causal(net) && Bounded(net, b) && KernelRuns.Sound(w) && Listening(w) && w.b.started && t > 0
    requires var w' := Advance(net, w, t); w'.status.Running? && !RepliedEnd(w')
    ensures Weight(b, Advance(net, w, t).k.events, t) < Weight(b, w.k.events, t)
  {
    var w1 := Open(net, w, t);
    KernelRuns.OpenIsSound(net, w, t);
    AdvanceControl(net, w, t);
    assert w1.k == w.k && !Interrupted(w1);
    hide Weight, KernelRuns.KernelSound, Open;
    assert Drain(net, w1).status.Running? && Interrupted(Drain(net, w1));
    var n: nat :| EndsAfter(net, w1, n) && Drain(net, w1) == Loop(net, w1, n);
    LoopIsLighter(b, net, w1, n);
  }

  predicate Answered(w: World) {
    w.status != Diverged && (w.status.Running? ==> RepliedEnd(w))
  }

  lemma {:induction false} RegrantingEndsOnceStarted(b: Bound, net: Network, w: World, t: nat) returns (n: nat)
    requires Causal(net) && Bounded(net, b) && KernelRuns.Sound(w) && Listening(w) && w.b.started && t > 0
    ensures Answered(Regrant(net, w, t, n))
    decreases Weight(b, w.k.events, t)
  {
    var w1 := Dispatch(net, w, AdvanceTime(t));
    GrantLoopEnds(b, net, w, t);
    KernelRuns.DispatchIsSound(net, w, AdvanceTime(t));
    AdvanceControl(net, w, t);
    n := 0;
    if Listening(w1) && !RepliedEnd(w1) {
      PreemptedGrantIsLighter(b, net, w, t);
      hide Weight, KernelRuns.KernelSound, Advance;
      n := RegrantingEndsOnceStarted(b, net, w1, t);
      n := n + 1;
    }
  }

  // With bounded handlers, granting t again after each PREEMPTED reaches END, or the end of the process, after
  // finitely many times; and what was executed then is the uninterrupted simulation up to t.
  lemma RegrantingReachesEnd(b: Bound, net: Network, w: World, t: nat) returns (n: nat)
    requires Causal(net) && Bounded(net, b) && KernelRuns.Sound(w) && Listening(w) && t > 0
    ensures Answered(Regrant(net, w, t, n))
    ensures Alike(Regrant(net, w, t, n), Whole(net, Open(net, w, t), t))
  {
    var w1 := Dispatch(net, w, AdvanceTime(t));
    GrantLoopEnds(b, net, w, t);
    KernelRuns.DispatchIsSound(net, w, AdvanceTime(t));
    AdvanceControl(net, w, t);
    n := 0;
    hide KernelRuns.KernelSound, Advance;
    if Listening(w1) && !RepliedEnd(w1) {
      n := RegrantingEndsOnceStarted(b, net, w1, t);
      n := n + 1;
    }
    RegrantingIsUninterrupted(net, w, t, n);
  }
}
