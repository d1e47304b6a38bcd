// The event list that src/main.cc selects: kept in the order of (timestamp, uid).
module ListScheduler {
  import opened Types

  predicate KeyBefore(ts: nat, uid: nat, ts': nat, uid': nat) {
    ts < ts' || (ts == ts' && uid < uid')
  }

  predicate Before(a: Event, b: Event) {
    KeyBefore(a.ts, a.uid, b.ts, b.uid)
  }

  ghost predicate Sorted(q: seq<Event>) {
    forall i, j :: 0 <= i < j < |q| ==> Before(q[i], q[j])
  }

  ghost predicate DistinctUids(q: seq<Event>) {
    forall i, j :: 0 <= i < j < |q| ==> q[i].uid != q[j].uid
  }

  function Insert(q: seq<Event>, e: Event): (r: seq<Event>)
    ensures |r| == |q| + 1
    ensures forall x :: x in r <==> x in q || x == e
  {
    if q == [] || Before(e, q[0]) then [e] + q else [q[0]] + Insert(q[1..], e)
  }

  // Erases the entry with this uid, as ListScheduler::Remove does.
  function Remove(q: seq<Event>, uid: nat): (r: seq<Event>)
    ensures forall x :: x in r ==> x in q
    ensures forall x :: x in q && x.uid != uid ==> x in r
    ensures |r| == if exists x :: x in q && x.uid == uid then |q| - 1 else |q|
  {
    if q == [] then []
    else if q[0].uid == uid then q[1..]
    else
      assert forall x :: x in q <==> x == q[0] || x in q[1..];
      [q[0]] + Remove(q[1..], uid)
  }

  lemma {:induction false} InsertKeepsOrder(q: seq<Event>, e: Event)
    requires Sorted(q) && DistinctUids(q)
    requires forall x :: x in q ==> x.uid != e.uid
    ensures Sorted(Insert(q, e)) && DistinctUids(Insert(q, e))
  {
    if q != [] && !Before(e, q[0]) {
      InsertKeepsOrder(q[1..], e);
      var r := Insert(q[1..], e);
      forall k | 0 <= k < |r| ensures Before(q[0], r[k]) && q[0].uid != r[k].uid {
        assert r[k] in r;
        if r[k] != e {
          assert r[k] in q[1..];
        }
      }
    } else if q != [] {
      forall k | 0 <= k < |q| ensures Before(e, q[k]) && e.uid != q[k].uid {
        assert q[k] in q;
      }
    }
  }

  lemma {:induction false} RemoveKeepsOrder(q: seq<Event>, uid: nat)
    requires Sorted(q) && DistinctUids(q)
    ensures Sorted(Remove(q, uid)) && DistinctUids(Remove(q, uid))
    ensures forall x :: x in Remove(q, uid) ==> x.uid != uid
  {
    if q != [] && q[0].uid != uid {
      RemoveKeepsOrder(q[1..], uid);
      var r := Remove(q[1..], uid);
      forall k | 0 <= k < |r| ensures Before(q[0], r[k]) && q[0].uid != r[k].uid {
        assert r[k] in r;
        assert r[k] in q[1..];
      }
    } else if q != [] {
      forall x | x in q[1..] ensures x.uid != uid {
      }
    }
  }

  // RemoveNext hands out the unique entry whose key lies below all others.
  lemma HeadIsLeast(q: seq<Event>)
    requires Sorted(q) && q != []
    ensures forall x :: x in q && x != q[0] ==> Before(q[0], x)
    ensures q[0] !in q[1..]
  {
    forall k | 1 <= k < |q| ensures q[k] != q[0] {
      assert Before(q[0], q[k]);
    }
  }

  // Re-inserting the entries of a sorted list one after another, in order, rebuilds that list.
  lemma {:induction false} InsertLast(q: seq<Event>, e: Event)
    requires forall x :: x in q ==> Before(x, e)
    ensures Insert(q, e) == q + [e]
  {
    if q != [] {
      assert q[0] in q;
      InsertLast(q[1..], e);
      assert q + [e] == [q[0]] + (q[1..] + [e]);
    }
  }
}
