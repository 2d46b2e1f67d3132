/** Lease accounting: granting and releasing keep every count equal to the number of
    releases still to be called. */
module OwnershipLeases {
  import opened Wrappers
  import opened Ownership

  ghost function Outstanding(leases: map<LeaseId, Lease>, r: ResourceId, o: Owner): set<LeaseId> {
    set id | id in leases && leases[id].resource == r && leases[id].owner == o
  }

  /** Per resource and owner, the stored count is the number of outstanding releases, and no
      count is stored as zero. */
  ghost predicate Ledger(rs: seq<Resource>, leases: map<LeaseId, Lease>, next: LeaseId) {
    && (forall id | id in leases :: id < next && leases[id].resource < |rs|)
    && (forall r, o | 0 <= r < |rs| :: Held(rs[r], o) == |Outstanding(leases, r, o)|)
    && (forall r, o | 0 <= r < |rs| && o in rs[r].leases :: rs[r].leases[o] > 0)
  }

  /** Only leases differ, and an owner is added only to an open resource. */
  ghost predicate LeaseOnly(rs: seq<Resource>, rs': seq<Resource>) {
    && |rs'| == |rs|
    && forall r | 0 <= r < |rs| ::
         && rs'[r] == rs[r].(leases := rs'[r].leases)
         && (rs[r].state != Open ==> rs'[r].leases.Keys <= rs[r].leases.Keys)
  }

  lemma {:induction false} CountAdd(leases: map<LeaseId, Lease>, id: LeaseId, l: Lease, r: ResourceId, o: Owner)
    requires id !in leases
    ensures |Outstanding(leases[id := l], r, o)| == |Outstanding(leases, r, o)| + if l.resource == r && l.owner == o then 1 else 0
  {
    var before, after := Outstanding(leases, r, o), Outstanding(leases[id := l], r, o);
    if l.resource == r && l.owner == o {
      assert after == before + {id};
    } else {
      assert after == before;
    }
  }

  lemma {:induction false} CountRemove(leases: map<LeaseId, Lease>, id: LeaseId, r: ResourceId, o: Owner)
    requires id in leases
    ensures |Outstanding(leases - {id}, r, o)|
         == |Outstanding(leases, r, o)| - if leases[id].resource == r && leases[id].owner == o then 1 else 0
    ensures leases[id].resource == r && leases[id].owner == o ==> |Outstanding(leases, r, o)| > 0
  {
    var before, after := Outstanding(leases, r, o), Outstanding(leases - {id}, r, o);
    if leases[id].resource == r && leases[id].owner == o {
      assert after == before - {id};
      assert id in before;
    } else {
      assert after == before;
    }
  }

  lemma {:induction false} GrantLedger(w: World, r: ResourceId, o: Owner, holder: Holder)
    requires Ledger(w.resources, w.leases, w.nextLease) && r < |w.resources|
    ensures var g := Grant(w, r, o, holder); Ledger(g.resources, g.leases, g.nextLease)
  {
    var g := Grant(w, r, o, holder);
    forall r', o' | 0 <= r' < |g.resources|
      ensures Held(g.resources[r'], o') == |Outstanding(g.leases, r', o')|
    {
      CountAdd(w.leases, w.nextLease, Lease(r, o, holder), r', o');
    }
  }

  lemma {:induction false} GrantLeaseOnly(w: World, r: ResourceId, o: Owner, holder: Holder)
    requires r < |w.resources| && (w.resources[r].state != Open ==> o in w.resources[r].leases)
    ensures LeaseOnly(w.resources, Grant(w, r, o, holder).resources)
  {
  }

  lemma {:induction false} ReleaseLedger(w: World, id: LeaseId)
    requires Ledger(w.resources, w.leases, w.nextLease)
    ensures var g := Release(w, id); Ledger(g.resources, g.leases, g.nextLease) && LeaseOnly(w.resources, g.resources)
    ensures Release(w, id) == w.(resources := Release(w, id).resources, leases := w.leases - {id})
  {
    var g := Release(w, id);
    if id in w.leases {
      var l := w.leases[id];
      CountRemove(w.leases, id, l.resource, l.owner);
      forall r, o | 0 <= r < |g.resources|
        ensures Held(g.resources[r], o) == |Outstanding(g.leases, r, o)|
      {
        CountRemove(w.leases, id, r, o);
      }
    } else {
      assert w.leases - {id} == w.leases;
    }
  }

  lemma {:induction false} LeaseOnlyTrans(a: seq<Resource>, b: seq<Resource>, c: seq<Resource>)
    requires LeaseOnly(a, b) && LeaseOnly(b, c)
    ensures LeaseOnly(a, c)
  {
  }

  ghost function Ids(ids: seq<LeaseId>): set<LeaseId> {
    set id | id in ids
  }

  /** Calling a list of releases takes exactly those that were outstanding. */
  lemma {:induction false} ReleaseAllLedger(w: World, ids: seq<LeaseId>)
    requires Ledger(w.resources, w.leases, w.nextLease)
    ensures var g := ReleaseAll(w, ids);
            && Ledger(g.resources, g.leases, g.nextLease) && LeaseOnly(w.resources, g.resources)
            && g == w.(resources := g.resources, leases := g.leases)
            && g.leases == w.leases - Ids(ids)
    decreases |ids|
  {
    if ids == [] {
      assert w.leases - Ids(ids) == w.leases;
    } else {
      var m := Release(w, ids[0]);
      ReleaseLedger(w, ids[0]);
      ReleaseAllLedger(m, ids[1..]);
      LeaseOnlyTrans(w.resources, m.resources, ReleaseAll(m, ids[1..]).resources);
      assert Ids(ids) == {ids[0]} + Ids(ids[1..]);
      assert w.leases - {ids[0]} - Ids(ids[1..]) == w.leases - Ids(ids);
    }
  }

  /** What retaining `count` captures for one holder leaves behind. */
  ghost predicate Retained(w: World, w': World, count: nat, holder: Holder) {
    && w' == w.(resources := w'.resources, leases := w'.leases, nextLease := w.nextLease + count)
    && LeaseOnly(w.resources, w'.resources)
    && Ledger(w'.resources, w'.leases, w'.nextLease)
    && (forall id :: id in w'.leases <==> id in w.leases || w.nextLease <= id < w.nextLease + count)
    && (forall id | id in w.leases :: w'.leases[id] == w.leases[id])
    && (forall id | w.nextLease <= id < w.nextLease + count :: w'.leases[id].holder == holder)
  }

  lemma {:induction false} RetainLedger(w: World, captured: seq<ResourceId>, x: Exec, holder: Holder)
    requires Ledger(w.resources, w.leases, w.nextLease) && Retain(w, captured, x, holder).Some?
    ensures Retained(w, Retain(w, captured, x, holder).value, |captured|, holder)
    decreases |captured|
  {
    if captured != [] {
      var m := Grant(w, captured[0], OwnerOf(w, x), holder);
      GrantLedger(w, captured[0], OwnerOf(w, x), holder);
      GrantLeaseOnly(w, captured[0], OwnerOf(w, x), holder);
      RetainLedger(m, captured[1..], x, holder);
      LeaseOnlyTrans(w.resources, m.resources, Retain(m, captured[1..], x, holder).value.resources);
      hide LeaseOnly, Ledger;
      RetainedCons(w, m, captured[0], OwnerOf(w, x), holder, Retain(m, captured[1..], x, holder).value, |captured| - 1);
    }
  }

  lemma {:induction false} RetainedCons(w: World, m: World, r: ResourceId, o: Owner, holder: Holder, w': World, count: nat)
    requires r < |w.resources| && m == Grant(w, r, o, holder)
    requires forall id | id in w.leases :: id < w.nextLease
    requires Retained(m, w', count, holder) && LeaseOnly(w.resources, w'.resources)
    ensures Retained(w, w', count + 1, holder)
  {
    hide LeaseOnly, Ledger;
    assert forall id | id in w.leases :: id in m.leases && m.leases[id] == w.leases[id];
  }

  /** The same over all participants; participant i holds the i-th run of release ids. */
  ghost predicate RetainedEach(w: World, w': World, captures: seq<seq<ResourceId>>, task: TaskId) {
    var total := Before(captures, |captures|);
    && w' == w.(resources := w'.resources, leases := w'.leases, nextLease := w.nextLease + total)
    && LeaseOnly(w.resources, w'.resources)
    && Ledger(w'.resources, w'.leases, w'.nextLease)
    && (forall id :: id in w'.leases <==> id in w.leases || w.nextLease <= id < w.nextLease + total)
    && (forall id | id in w.leases :: w'.leases[id] == w.leases[id])
    && Runs(w'.leases, w.nextLease, captures, task)
  }

  ghost predicate HeldBy(leases: map<LeaseId, Lease>, from: LeaseId, count: nat, holder: Holder) {
    forall id | from <= id < from + count :: id in leases && leases[id].holder == holder
  }

  lemma {:induction false} BeforeTail(captures: seq<seq<ResourceId>>, i: nat)
    requires 1 <= i <= |captures|
    ensures Before(captures, i) == |captures[0]| + Before(captures[1..], i - 1)
    decreases i
  {
    if i > 1 {
      BeforeTail(captures, i - 1);
      assert captures[1..][i - 2] == captures[i - 1];
    }
  }

  lemma {:induction false} BeforeMonotone(captures: seq<seq<ResourceId>>, i: nat, j: nat)
    requires i <= j <= |captures|
    ensures Before(captures, i) <= Before(captures, j)
    decreases j
  {
    if i < j {
      BeforeMonotone(captures, i, j - 1);
    }
  }

  /** Every id of the whole range belongs to one participant. */
  lemma {:induction false} BeforeCovers(captures: seq<seq<ResourceId>>, n: nat, k: nat) returns (i: nat)
    requires n <= |captures| && k < Before(captures, n)
    ensures i < n && Before(captures, i) <= k < Before(captures, i) + |captures[i]|
    decreases n
  {
    if k >= Before(captures, n - 1) {
      i := n - 1;
    } else {
      i := BeforeCovers(captures, n - 1, k);
    }
  }

  lemma {:induction false} RetainEachLedger(w: World, captures: seq<seq<ResourceId>>, x: Exec, task: TaskId)
    requires Ledger(w.resources, w.leases, w.nextLease) && RetainEach(w, captures, x, task).Some?
    ensures RetainedEach(w, RetainEach(w, captures, x, task).value, captures, task)
    decreases |captures|
  {
    if captures != [] {
      var m := Retain(w, captures[0], x, Participant(task)).value;
      RetainLedger(w, captures[0], x, Participant(task));
      RetainEachLedger(m, captures[1..], x, task + 1);
      var w' := RetainEach(m, captures[1..], x, task + 1).value;
      LeaseOnlyTrans(w.resources, m.resources, w'.resources);
      RetainedEachCons(w, m, w', captures, task);
    }
  }

  /** Runs of release ids, one per participant. */
  ghost predicate Runs(leases: map<LeaseId, Lease>, from: LeaseId, captures: seq<seq<ResourceId>>, task: TaskId) {
    forall i | 0 <= i < |captures| :: HeldBy(leases, from + Before(captures, i), |captures[i]|, Participant(task + i))
  }

  lemma {:induction false} RunsCons(leases: map<LeaseId, Lease>, from: LeaseId, captures: seq<seq<ResourceId>>, task: TaskId)
    requires captures != [] && HeldBy(leases, from, |captures[0]|, Participant(task))
    requires Runs(leases, from + |captures[0]|, captures[1..], task + 1)
    ensures Runs(leases, from, captures, task)
  {
    forall i | 0 <= i < |captures|
      ensures HeldBy(leases, from + Before(captures, i), |captures[i]|, Participant(task + i))
    {
      if i > 0 {
        BeforeTail(captures, i);
        assert captures[1..][i - 1] == captures[i];
        assert HeldBy(leases, from + |captures[0]| + Before(captures[1..], i - 1), |captures[1..][i - 1]|, Participant(task + 1 + (i - 1)));
      }
    }
  }

  lemma {:induction false} RetainedEachCons(w: World, m: World, w': World, captures: seq<seq<ResourceId>>, task: TaskId)
    requires captures != [] && (forall id | id in w.leases :: id < w.nextLease)
    requires Retained(w, m, |captures[0]|, Participant(task))
    requires RetainedEach(m, w', captures[1..], task + 1) && LeaseOnly(w.resources, w'.resources)
    ensures RetainedEach(w, w', captures, task)
  {
    hide LeaseOnly, Ledger, Before, Runs;
    BeforeTail(captures, |captures|);
    assert HeldBy(w'.leases, w.nextLease, |captures[0]|, Participant(task)) by {
      forall id | w.nextLease <= id < w.nextLease + |captures[0]|
        ensures id in w'.leases && w'.leases[id].holder == Participant(task)
      {
        assert id in m.leases;
      }
    }
    RunsCons(w'.leases, w.nextLease, captures, task);
  }

  /** Records that keep every lease table keep the ledger. */
  lemma {:induction false} LedgerSame(rs: seq<Resource>, rs': seq<Resource>, leases: map<LeaseId, Lease>, next: LeaseId)
    requires Ledger(rs, leases, next) && |rs'| == |rs|
    requires forall r | 0 <= r < |rs| :: rs'[r].leases == rs[r].leases
    ensures Ledger(rs', leases, next)
  {
    forall r, o | 0 <= r < |rs'| ensures Held(rs'[r], o) == |Outstanding(leases, r, o)| {
      assert Held(rs[r], o) == |Outstanding(leases, r, o)|;
    }
  }

  lemma {:induction false} LedgerAppend(rs: seq<Resource>, res: Resource, leases: map<LeaseId, Lease>, next: LeaseId)
    requires Ledger(rs, leases, next) && res.leases == map[]
    ensures Ledger(rs + [res], leases, next)
  {
    forall r, o | 0 <= r < |rs| + 1 ensures Held((rs + [res])[r], o) == |Outstanding(leases, r, o)| {
      if r == |rs| {
        assert Outstanding(leases, r, o) == {};
      } else {
        assert Held(rs[r], o) == |Outstanding(leases, r, o)|;
      }
    }
  }

  /** An owner with no outstanding release holds nothing, and one with some is granted more
      even while the resource closes. */
  lemma {:induction false} HeldExactly(w: World, r: ResourceId, o: Owner)
    requires Ledger(w.resources, w.leases, w.nextLease) && r < |w.resources|
    ensures o in w.resources[r].leases <==> Outstanding(w.leases, r, o) != {}
    ensures o in w.resources[r].leases ==> w.resources[r].leases[o] == |Outstanding(w.leases, r, o)|
  {
    assert Held(w.resources[r], o) == |Outstanding(w.leases, r, o)|;
  }
}
