/** Messages keep their order: retries that of the refusals, revokes that of the calls that cause them. */
module Fairness {
  import opened LockTypes
  import opened Protocol
  import opened LockInvariant
  import opened Coherence
  import opened Refinement
  import SV = ServerCache
  import CL = ClientCache

  function Waiting(s: State, l: LockId): seq<ClientId> {
    SV.Look(s.sv, l).waiting
  }

  /** The client whose call for the lock is answered with RETRY. */
  function Refused(s: State, a: Step, l: LockId): seq<ClientId>
    requires Enabled(s, a)
  {
    if (a.AcquireNone? || a.AcquireRetry?) && a.l == l && SV.AcquireReply(s.sv, l) == RETRY then [a.c] else []
  }

  /** The clients that the messages about the lock are for. */
  function Clients(q: seq<Msg>, l: LockId): seq<ClientId> {
    if q == [] then []
    else if q[0].lid == l then [q[0].client] + Clients(q[1..], l)
    else Clients(q[1..], l)
  }

  function Added(before: seq<Msg>, after: seq<Msg>): seq<Msg> {
    if |before| <= |after| then after[|before|..] else []
  }

  /** The client to which the release of the lock hands a retry. */
  function Handed(s: State, a: Step, l: LockId): seq<ClientId>
    requires Enabled(s, a)
  {
    if a.ReleaserCommit? then Clients(Added(s.sv.retryList, Apply(s, a).sv.retryList), l) else []
  }

  /** The client that a retry for the lock reaches. */
  function Reached(s: State, a: Step, l: LockId): seq<ClientId>
    requires Enabled(s, a)
  {
    if a.DeliverRetry? && s.sv.retryList[0].lid == l then [s.sv.retryList[0].client] else []
  }

  /** The clients whose retry has not reached them yet. */
  function Underway(s: State, l: LockId): seq<ClientId> {
    Clients(SV.Undelivered(s.sv.retryList, s.sv.retrySent), l)
  }

  // ----- one step -----

  lemma {:induction false} ClientsAppend(q: seq<Msg>, m: Msg, l: LockId)
    ensures Clients(q + [m], l) == Clients(q, l) + Clients([m], l)
    decreases |q|
  {
    if q == [] {
      assert q + [m] == [m];
    } else {
      ClientsAppend(q[1..], m, l);
      assert (q + [m])[1..] == q[1..] + [m];
    }
  }

  lemma ServerWaits(sv: SV.Server, id: ClientId, m: LockId, l: LockId)
    ensures SV.Look(SV.Acquired(sv, m, id), l).waiting
         == SV.Look(sv, l).waiting + if m == l && SV.AcquireReply(sv, m) == RETRY then [id] else []
  {
    assert SV.Look(sv, l).waiting + [] == SV.Look(sv, l).waiting;
  }

  lemma ServerHands(sv: SV.Server, id: ClientId, m: LockId, test: SV.Test, l: LockId)
    ensures var sv' := SV.Released(sv, m, id, test);
            SV.Look(sv, l).waiting == Clients(Added(sv.retryList, sv'.retryList), l) + SV.Look(sv', l).waiting
  {
    var k, sv' := SV.Look(sv, m), SV.Released(sv, m, id, test);
    if test == SV.HasWaiters && k.waiting != [] {
      var msg := Msg(m, k.waiting[0]);
      assert Added(sv.retryList, sv'.retryList) == [msg] && [msg][1..] == [];
      assert k.waiting == [k.waiting[0]] + k.waiting[1..];
    } else {
      assert Added(sv.retryList, sv'.retryList) == [];
    }
  }

  lemma StepWaits(s: State, a: Step, l: LockId)
    requires Enabled(s, a)
    ensures Waiting(s, l) + Refused(s, a, l) == Handed(s, a, l) + Waiting(Apply(s, a), l)
  {
    match a
    case AcquireNone(c, t, m) => ServerWaits(s.sv, c, m, l);
    case AcquireRetry(c, t, m) => ServerWaits(s.sv, c, m, l);
    case ReleaserCommit(c) => ServerHands(s.sv, c, s.procs[c].busy.lid, s.procs[c].busy.test, l);
    case _ => assert Waiting(Apply(s, a), l) == Waiting(s, l);
  }

  lemma QueueHands(sv: SV.Server, id: ClientId, m: LockId, test: SV.Test, l: LockId)
    requires SentOk(sv)
    ensures var sv' := SV.Released(sv, m, id, test);
            var q, q' := SV.Undelivered(sv.retryList, sv.retrySent), SV.Undelivered(sv'.retryList, sv'.retrySent);
            Clients(q', l) == Clients(q, l) + Clients(Added(sv.retryList, sv'.retryList), l)
  {
    var k, sv' := SV.Look(sv, m), SV.Released(sv, m, id, test);
    var q := SV.Undelivered(sv.retryList, sv.retrySent);
    if test == SV.HasWaiters && k.waiting != [] {
      var msg := Msg(m, k.waiting[0]);
      assert Added(sv.retryList, sv'.retryList) == [msg];
      assert SV.Undelivered(sv'.retryList, sv'.retrySent) == q + [msg];
      ClientsAppend(q, msg, l);
    } else {
      assert Added(sv.retryList, sv'.retryList) == [];
    }
  }

  lemma StepQueue(s: State, a: Step, l: LockId)
    requires SentOk(s.sv) && Enabled(s, a)
    ensures Underway(s, l) + Handed(s, a, l) == Reached(s, a, l) + Underway(Apply(s, a), l)
  {
    match a
    case ReleaserCommit(c) => QueueHands(s.sv, c, s.procs[c].busy.lid, s.procs[c].busy.test, l);
    case DeliverRetry =>
    case PopRetry =>
    case _ => assert Underway(Apply(s, a), l) == Underway(s, l);
  }

  // ----- every run -----

  function AllRefused(s: State, run: seq<Step>, l: LockId): seq<ClientId>
    requires IsRun(s, run)
    decreases |run|
  {
    if run == [] then [] else Refused(s, run[0], l) + AllRefused(Apply(s, run[0]), run[1..], l)
  }

  function AllHanded(s: State, run: seq<Step>, l: LockId): seq<ClientId>
    requires IsRun(s, run)
    decreases |run|
  {
    if run == [] then [] else Handed(s, run[0], l) + AllHanded(Apply(s, run[0]), run[1..], l)
  }

  function AllReached(s: State, run: seq<Step>, l: LockId): seq<ClientId>
    requires IsRun(s, run)
    decreases |run|
  {
    if run == [] then [] else Reached(s, run[0], l) + AllReached(Apply(s, run[0]), run[1..], l)
  }

  /** Two queues in a row: what goes in behind comes out in front. */
  lemma Shift<T>(w: seq<T>, x: seq<T>, y: seq<T>, w1: seq<T>, xs: seq<T>, ys: seq<T>, w2: seq<T>)
    requires w + x == y + w1 && w1 + xs == ys + w2
    ensures w + (x + xs) == (y + ys) + w2
  {
    assert w + (x + xs) == (w + x) + xs == y + (w1 + xs);
    assert (y + ys) + w2 == y + (ys + w2);
  }

  lemma {:induction false} RunWaits(s: State, run: seq<Step>, l: LockId)
    requires IsRun(s, run)
    ensures Waiting(s, l) + AllRefused(s, run, l) == AllHanded(s, run, l) + Waiting(Exec(s, run), l)
    decreases |run|
  {
    if run == [] {
      assert Waiting(s, l) + [] == [] + Waiting(s, l);
    } else {
      var s1 := Apply(s, run[0]);
      StepWaits(s, run[0], l);
      RunWaits(s1, run[1..], l);
      Shift(Waiting(s, l), Refused(s, run[0], l), Handed(s, run[0], l), Waiting(s1, l),
            AllRefused(s1, run[1..], l), AllHanded(s1, run[1..], l), Waiting(Exec(s, run), l));
    }
  }

  lemma {:induction false} RunQueue(s: State, run: seq<Step>, l: LockId)
    requires Good(s) && IsRun(s, run)
    ensures Underway(s, l) + AllHanded(s, run, l) == AllReached(s, run, l) + Underway(Exec(s, run), l)
    decreases |run|
  {
    if run == [] {
      assert Underway(s, l) + [] == [] + Underway(s, l);
    } else {
      var s1 := Apply(s, run[0]);
      StepGood(s, run[0]);
      StepQueue(s, run[0], l);
      RunQueue(s1, run[1..], l);
      Shift(Underway(s, l), Handed(s, run[0], l), Reached(s, run[0], l), Underway(s1, l),
            AllHanded(s1, run[1..], l), AllReached(s1, run[1..], l), Underway(Exec(s, run), l));
    }
  }

  /**
   * In every run, for every lock: retries are handed out, and reach their clients, in the order of the refusals.
   * The clients that were refused and not reached yet are the ones under way and then the ones waiting.
   */
  lemma FirstRefusedFirstServed(ids: set<ClientId>, run: seq<Step>, l: LockId)
    requires IsRun(Init(ids), run)
    ensures var s, end := Init(ids), Exec(Init(ids), run);
            && AllRefused(s, run, l) == AllHanded(s, run, l) + Waiting(end, l)
            && AllHanded(s, run, l) == AllReached(s, run, l) + Underway(end, l)
  {
    var s := Init(ids);
    InitGood(ids);
    RunWaits(s, run, l);
    RunQueue(s, run, l);
    assert [] + AllRefused(s, run, l) == AllRefused(s, run, l);
    assert [] + AllHanded(s, run, l) == AllHanded(s, run, l);
  }

  // ----- revokes -----

  /** The revoke that a call queues. */
  function Queued(s: State, a: Step): seq<Msg>
    requires Enabled(s, a)
  {
    Added(s.sv.revokeList, Apply(s, a).sv.revokeList)
  }

  /** The revoke that reaches its client. */
  function Arrived(s: State, a: Step): seq<Msg>
    requires Enabled(s, a)
  {
    if a.DeliverRevoke? then [s.sv.revokeList[0]] else []
  }

  function Revoking(s: State): seq<Msg> {
    SV.Undelivered(s.sv.revokeList, s.sv.revokeSent)
  }

  lemma CallQueues(sv: SV.Server, id: ClientId, m: LockId)
    requires SentOk(sv)
    ensures var sv' := SV.Acquired(sv, m, id);
            var q, q' := SV.Undelivered(sv.revokeList, sv.revokeSent), SV.Undelivered(sv'.revokeList, sv'.revokeSent);
            q' == q + Added(sv.revokeList, sv'.revokeList)
  {
    var q, sv' := SV.Undelivered(sv.revokeList, sv.revokeSent), SV.Acquired(sv, m, id);
    var more := Added(sv.revokeList, sv'.revokeList);
    assert sv'.revokeList == sv.revokeList + more;
    assert q + [] == q;
  }

  lemma StepRevokes(s: State, a: Step)
    requires SentOk(s.sv) && Enabled(s, a)
    ensures Revoking(s) + Queued(s, a) == Arrived(s, a) + Revoking(Apply(s, a))
  {
    if a.AcquireNone? || a.AcquireRetry? {
      CallQueues(s.sv, a.c, a.l);
    } else if a.DeliverRevoke? || a.PopRevoke? {
      RevokerStep(s, a);
    } else {
      OtherStep(s, a);
    }
  }

  lemma RevokerStep(s: State, a: Step)
    requires SentOk(s.sv) && Enabled(s, a) && (a.DeliverRevoke? || a.PopRevoke?)
    ensures Queued(s, a) == [] && Revoking(s) == Arrived(s, a) + Revoking(Apply(s, a))
  {
    assert [] + Revoking(Apply(s, a)) == Revoking(Apply(s, a));
  }

  lemma OtherStep(s: State, a: Step)
    requires Enabled(s, a) && !a.AcquireNone? && !a.AcquireRetry? && !a.DeliverRevoke? && !a.PopRevoke?
    ensures Queued(s, a) == [] && Revoking(Apply(s, a)) == Revoking(s)
  {
  }

  function AllQueued(s: State, run: seq<Step>): seq<Msg>
    requires IsRun(s, run)
    decreases |run|
  {
    if run == [] then [] else Queued(s, run[0]) + AllQueued(Apply(s, run[0]), run[1..])
  }

  function AllArrived(s: State, run: seq<Step>): seq<Msg>
    requires IsRun(s, run)
    decreases |run|
  {
    if run == [] then [] else Arrived(s, run[0]) + AllArrived(Apply(s, run[0]), run[1..])
  }

  lemma {:induction false} RunRevokes(s: State, run: seq<Step>)
    requires Good(s) && IsRun(s, run)
    ensures Revoking(s) + AllQueued(s, run) == AllArrived(s, run) + Revoking(Exec(s, run))
    decreases |run|
  {
    if run == [] {
      assert Revoking(s) + [] == [] + Revoking(s);
    } else {
      var s1 := Apply(s, run[0]);
      StepGood(s, run[0]);
      StepRevokes(s, run[0]);
      RunRevokes(s1, run[1..]);
      Shift(Revoking(s), Queued(s, run[0]), Arrived(s, run[0]), Revoking(s1),
            AllQueued(s1, run[1..]), AllArrived(s1, run[1..]), Revoking(Exec(s, run)));
    }
  }

  // ----- the client's list -----

  /** `a` is `b` with some elements left out. */
  predicate Within(a: seq<LockId>, b: seq<LockId>) {
    a == [] || (b != [] && if a[0] == b[0] then Within(a[1..], b[1..]) else Within(a, b[1..]))
  }

  lemma {:induction false} WithinAppend(a: seq<LockId>, b: seq<LockId>, x: LockId)
    requires Within(a, b)
    ensures Within(a + [x], b + [x])
    decreases |b|
  {
    if b == [] {
      assert a + [x] == [x] && b + [x] == [x];
    } else {
      assert (b + [x])[1..] == b[1..] + [x];
      if a == [] {
        WithinAppend(a, b[1..], x);
        assert a + [x] == [x] && [x][1..] == [];
      } else if a[0] == b[0] {
        WithinAppend(a[1..], b[1..], x);
        assert (a + [x])[1..] == a[1..] + [x];
      } else {
        WithinAppend(a, b[1..], x);
      }
    }
  }

  lemma {:induction false} WithinTail(a: seq<LockId>, b: seq<LockId>)
    requires a != [] && Within(a, b)
    ensures Within(a[1..], b)
    decreases |b|, 0
  {
    if a[0] == b[0] {
      WithinLonger(a[1..], b);
    } else {
      WithinTail(a, b[1..]);
      WithinLonger(a[1..], b);
    }
  }

  lemma {:induction false} WithinLonger(a: seq<LockId>, b: seq<LockId>)
    requires b != [] && Within(a, b[1..])
    ensures Within(a, b)
    decreases |b| - 1, 1
  {
    if a != [] && a[0] == b[0] {
      WithinTail(a, b[1..]);
    }
  }

  lemma {:induction false} WithinRemoved(a: seq<LockId>, b: seq<LockId>, l: LockId)
    requires Within(a, b)
    ensures Within(CL.RemoveFirst(a, l), b)
    decreases |b|
  {
    if a != [] {
      if a[0] == l {
        WithinTail(a, b);
      } else if a[0] == b[0] {
        WithinRemoved(a[1..], b[1..], l);
        assert ([a[0]] + CL.RemoveFirst(a[1..], l))[1..] == CL.RemoveFirst(a[1..], l);
      } else {
        WithinRemoved(a, b[1..], l);
      }
    }
  }

  function ListOf(s: State, c: ClientId): seq<LockId>
    requires c in s.procs
  {
    s.procs[c].lc.revokeList
  }

  /** The locks whose revokes reach the client. */
  function LocksFor(q: seq<Msg>, c: ClientId): seq<LockId> {
    if q == [] then []
    else if q[0].client == c then [q[0].lid] + LocksFor(q[1..], c)
    else LocksFor(q[1..], c)
  }

  lemma {:induction false} LocksAppend(p: seq<Msg>, q: seq<Msg>, c: ClientId)
    ensures LocksFor(p + q, c) == LocksFor(p, c) + LocksFor(q, c)
    decreases |p|
  {
    if p == [] {
      assert p + q == q;
    } else {
      LocksAppend(p[1..], q, c);
      assert (p + q)[1..] == p[1..] + q;
    }
  }

  lemma DeliveredListed(s: State, c: ClientId, seen: seq<LockId>)
    requires Enabled(s, DeliverRevoke) && c in s.procs && Within(ListOf(s, c), seen)
    ensures c in DeliverRevokeS(s).procs
    ensures Within(ListOf(DeliverRevokeS(s), c), seen + LocksFor([s.sv.revokeList[0]], c))
  {
    var m := s.sv.revokeList[0];
    assert [m][1..] == [] && seen + [] == seen;
    if m.client == c {
      assert ListOf(DeliverRevokeS(s), c) == ListOf(s, c) + [m.lid];
      assert LocksFor([m], c) == [m.lid];
      WithinAppend(ListOf(s, c), seen, m.lid);
    }
  }

  lemma StepListed(s: State, a: Step, c: ClientId, seen: seq<LockId>)
    requires Enabled(s, a) && c in s.procs && Within(ListOf(s, c), seen)
    ensures c in Apply(s, a).procs && Within(ListOf(Apply(s, a), c), seen + LocksFor(Arrived(s, a), c))
  {
    assert seen + [] == seen;
    match a
    case DeliverRevoke => DeliveredListed(s, c, seen);
    case ReleaserCommit(d) => WithinRemoved(ListOf(s, c), seen, s.procs[d].busy.lid);
    case _ => OtherListed(s, a, c);
  }

  lemma OtherListed(s: State, a: Step, c: ClientId)
    requires Enabled(s, a) && c in s.procs && !a.DeliverRevoke? && !a.ReleaserCommit?
    ensures c in Apply(s, a).procs && ListOf(Apply(s, a), c) == ListOf(s, c) && Arrived(s, a) == []
  {
  }

  lemma {:induction false} RunListed(s: State, run: seq<Step>, c: ClientId, seen: seq<LockId>)
    requires IsRun(s, run) && c in s.procs && Within(ListOf(s, c), seen)
    ensures c in Exec(s, run).procs && Within(ListOf(Exec(s, run), c), seen + LocksFor(AllArrived(s, run), c))
    decreases |run|
  {
    if run == [] {
      assert seen + [] == seen;
    } else {
      var s1, first := Apply(s, run[0]), LocksFor(Arrived(s, run[0]), c);
      StepListed(s, run[0], c, seen);
      RunListed(s1, run[1..], c, seen + first);
      LocksAppend(Arrived(s, run[0]), AllArrived(s1, run[1..]), c);
      assert (seen + first) + LocksFor(AllArrived(s1, run[1..]), c) == seen + LocksFor(AllArrived(s, run), c);
    }
  }

  /**
   * In every run: revokes reach their clients in the order in which the server queues them, and a client lists
   * those that it has not yet obeyed in that order. A releaser pass takes the first of them that is RELEASING.
   */
  lemma RevokesInOrder(ids: set<ClientId>, run: seq<Step>, c: ClientId)
    requires IsRun(Init(ids), run) && c in ids
    ensures var s, end := Init(ids), Exec(Init(ids), run);
            && AllQueued(s, run) == AllArrived(s, run) + Revoking(end)
            && c in end.procs && Within(ListOf(end, c), LocksFor(AllArrived(s, run), c))
  {
    var s := Init(ids);
    InitGood(ids);
    RunRevokes(s, run);
    RunListed(s, run, c, []);
    assert [] + AllQueued(s, run) == AllQueued(s, run);
    assert [] + LocksFor(AllArrived(s, run), c) == LocksFor(AllArrived(s, run), c);
  }
}
