// The fields of MosaicNs3Bridge, and what writeNextTime and writeReceive*Message do to them.
module Bridge {

  // One message to the ambassador: a command and the body written right after it.
  datatype Report =
    | NextEvent(time: nat)
    | RecvWifi(time: nat, node: nat, msg: int)
    | RecvCell(time: nat, node: nat, msg: int)
    | End(time: nat)
    | Preempted(time: nat)

  datatype State = State(
    preemptive: bool,        // m_preemptiveExecutionEnabled
    started: bool,           // m_didRunOnStart
    closed: bool,            // m_closeConnection
    grant: nat,              // m_currentAdvanceTime
    past: bool,              // m_didRequestEventInThePast
    grants: nat,             // m_countTimeAdvanceGrant
    requests: nat,           // m_countNextEventRequest
    reported: set<nat>,      // m_reportedTimes
    submitted: set<nat>,     // journal: every time given to writeNextTime outside preemptive mode
    log: seq<Report>,        // everything written to the federate-to-ambassador channel
    acks: nat)               // SUCCESS replies on the ambassador-to-federate channel

  const CACHE_SIZE := 1000

  function Initial(preemptive: bool): State {
    State(preemptive, false, false, 0, false, 0, 0, {}, {}, [], 0)
  }

  predicate IsReception(r: Report) {
    r.RecvWifi? || r.RecvCell?
  }

  predicate IsReply(r: Report) {
    r.End? || r.Preempted?
  }

  // ---------- the bounded set of reported times ----------

  ghost predicate IsMin(s: set<nat>, x: nat) {
    x in s && forall y :: y in s ==> x <= y
  }

  lemma MinExists(s: set<nat>) returns (x: nat)
    requires s != {}
    ensures IsMin(s, x)
  {
    x :| x in s;
    if s != {x} {
      var rest := s - {x};
      assert s == rest + {x};
      var y := MinExists(rest);
      x := if x < y then x else y;
    }
  }

  lemma MinExistsFor(s: set<nat>)
    requires s != {}
    ensures exists x :: x in s && forall y :: y in s ==> x <= y
  {
    var x := MinExists(s);
  }

  ghost function Min(s: set<nat>): (x: nat)
    requires s != {}
    ensures IsMin(s, x)
  {
    assert exists y :: IsMin(s, y) by {
      var y := MinExists(s);
    }
    var x :| IsMin(s, x);
    x
  }

  // While there are more than 1000 times, drop the smallest.
  ghost function Trim(s: set<nat>): set<nat>
  {
    if |s| <= CACHE_SIZE then s else Trim(s - {Min(s)})
  }

  // ---------- writing ----------

  ghost function WriteNextTime(b: State, t: nat): State {
    if b.preemptive then b
    else if t in b.reported then b.(submitted := b.submitted + {t})
    else
      b.(reported := Trim(b.reported + {t}), submitted := b.submitted + {t}, past := b.past || t < b.grant,
         requests := b.requests + 1, log := b.log + [NextEvent(t)])
  }

  function WriteReceive(b: State, r: Report): State
    requires IsReception(r)
  {
    b.(past := b.past || r.time < b.grant, requests := b.requests + 1, log := b.log + [r])
  }
}

// The cache of reported times stands in for the full history.
module BridgeTheory {
  import opened Bridge

  // s holds the n largest members of h, or all of them if there are fewer.
  ghost predicate Largest(s: set<nat>, h: set<nat>, n: nat) {
    && s <= h
    && |s| == (if |h| < n then |h| else n)
    && forall x, y :: x in s && y in h && y !in s ==> y < x
  }

  lemma SubsetSize(s: set<nat>, h: set<nat>)
    requires s <= h
    ensures |s| <= |h|
    ensures |s| == |h| ==> s == h
  {
    assert h == s + (h - s);
    assert |h| == |s| + |h - s|;
  }

  lemma {:induction false} LargestIsUnique(s: set<nat>, s': set<nat>, h: set<nat>, n: nat)
    requires Largest(s, h, n) && Largest(s', h, n)
    ensures s == s'
  {
    assert s <= s' || s' <= s;
    SubsetSize(s, h);
    SubsetSize(s', h);
    if s <= s' {
      SubsetSize(s, s');
    } else {
      SubsetSize(s', s);
    }
  }

  ghost predicate CacheInv(b: State) {
    && Largest(b.reported, b.submitted, CACHE_SIZE)
    && (forall t :: t in b.submitted <==> NextEvent(t) in b.log)
  }

  // One more time: the cache is again the 1000 largest, even when the new time is the one erased.
  lemma CacheRefinesHistory(b: State, t: nat)
    requires CacheInv(b) && !b.preemptive
    ensures CacheInv(WriteNextTime(b, t))
    ensures NextEvent(t) in WriteNextTime(b, t).log
  {
    var b' := WriteNextTime(b, t);
    if t in b.reported {
      assert b'.submitted == b.submitted;
    } else {
      assert b'.log[|b.log|] == NextEvent(t);
      assert forall r :: r in b'.log <==> r in b.log || r == NextEvent(t);
      var s := b.reported + {t};
      SubsetSize(b.reported, b.submitted);
      if t in b.submitted {
        // all of the 1000 cached times are larger, so t itself is erased again
        assert b'.submitted == b.submitted;
        assert |b.reported| == CACHE_SIZE;
        assert Min(s) == t;
        assert s - {t} == b.reported;
        assert Trim(s) == Trim(b.reported) == b.reported;
      } else if |s| <= CACHE_SIZE {
        assert |b.submitted| < CACHE_SIZE;
        assert b.reported == b.submitted;
        assert s == b'.submitted;
      } else {
        var m := Min(s);
        assert |s - {m}| == CACHE_SIZE;
        assert Trim(s) == s - {m};
        SubsetSize(s - {m}, b'.submitted);
      }
    }
  }

  // A time is written a second time only if the cache is full of larger times.
  lemma RepeatedOnlyBelowAFullCache(b: State, t: nat)
    requires CacheInv(b) && !b.preemptive && t in b.submitted
    requires WriteNextTime(b, t).log != b.log
    ensures |b.reported| == CACHE_SIZE && forall x :: x in b.reported ==> t < x
  {
    SubsetSize(b.reported, b.submitted);
  }

  // The j-th report, of a time that was reported before, comes after 1000 larger times.
  ghost predicate AfterMany(log: seq<Report>, t: nat, j: nat, larger: set<nat>)
    requires j <= |log|
  {
    |larger| == CACHE_SIZE && forall x :: x in larger ==> t < x && NextEvent(x) in log[..j]
  }

  ghost predicate RepeatsAreRare(log: seq<Report>) {
    forall i, j :: 0 <= i < j < |log| && log[i].NextEvent? && log[j] == log[i] ==>
      exists larger: set<nat> :: AfterMany(log, log[i].time, j, larger)
  }

  lemma OneMoreReport(log: seq<Report>, r: Report, larger: set<nat>)
    requires RepeatsAreRare(log)
    requires r.NextEvent? && r in log ==> AfterMany(log, r.time, |log|, larger)
    ensures RepeatsAreRare(log + [r])
  {
    var log' := log + [r];
    forall i, j | 0 <= i < j < |log'| && log'[i].NextEvent? && log'[j] == log'[i]
      ensures exists s: set<nat> :: AfterMany(log', log'[i].time, j, s)
    {
      assert log'[..j] == log[..j];
      if j < |log| {
        assert log[j] == log[i];
        var s: set<nat> :| AfterMany(log, log[i].time, j, s);
        assert AfterMany(log', log'[i].time, j, s);
      } else {
        assert log[i] in log;
        assert AfterMany(log', log'[i].time, j, larger);
      }
    }
  }

  lemma WriteKeepsRepeatsRare(b: State, t: nat)
    requires CacheInv(b) && !b.preemptive && RepeatsAreRare(b.log)
    ensures RepeatsAreRare(WriteNextTime(b, t).log)
  {
    if t !in b.reported {
      if t in b.submitted {
        RepeatedOnlyBelowAFullCache(b, t);
        assert b.log[..|b.log|] == b.log;
      }
      OneMoreReport(b.log, NextEvent(t), b.reported);
    }
  }

  // Conversely such a time is written again, and leaves the cache as it was.
  lemma RepeatedBelowAFullCache(b: State, t: nat)
    requires CacheInv(b) && !b.preemptive && |b.reported| == CACHE_SIZE && forall x :: x in b.reported ==> t < x
    ensures WriteNextTime(b, t).log == b.log + [NextEvent(t)]
    ensures WriteNextTime(b, t).reported == b.reported
  {
    var s := b.reported + {t};
    assert Min(s) == t;
    assert s - {t} == b.reported;
    assert Trim(s) == Trim(s - {t});
  }

  // The smallest time of a full cache never decreases.
  lemma FullCacheMinimumGrows(b: State, t: nat)
    requires CacheInv(b) && !b.preemptive && |b.reported| == CACHE_SIZE
    ensures var r := WriteNextTime(b, t).reported; |r| == CACHE_SIZE && Min(b.reported) <= Min(r)
  {
    var s := b.reported + {t};
    if t !in b.reported {
      assert |s| == CACHE_SIZE + 1;
      var m := Min(s);
      assert |s - {m}| == CACHE_SIZE;
      assert Trim(s) == s - {m};
      if m != t {
        assert m == Min(b.reported);
      } else {
        assert s - {m} == b.reported;
      }
    }
  }
}
