/** Tokens are conserved, waiters are not forgotten, and what the releaser can leave behind. */
module Progress {
  import opened LockTypes
  import opened Protocol
  import opened LockInvariant
  import opened Threads
  import opened Coherence
  import opened Refinement
  import SV = ServerCache
  import CL = ClientCache

  // ----- token conservation -----

  /** Revokes of `l` for client `c`: still queued at the server, or in the client's list. */
  ghost function RevokeTokens(s: State, c: ClientId, l: LockId): nat
    requires c in s.procs
  {
    multiset(SV.Undelivered(s.sv.revokeList, s.sv.revokeSent))[Msg(l, c)] + multiset(s.procs[c].lc.revokeList)[l]
  }

  /** Claims of client `c` on `l`: waiting entries, queued retries, and the retry flag. */
  ghost function ClaimTokens(s: State, c: ClientId, l: LockId): nat
    requires c in s.procs
  {
    var queued := multiset(SV.Look(s.sv, l).waiting)[c]
                + multiset(SV.Undelivered(s.sv.retryList, s.sv.retrySent))[Msg(l, c)];
    if CL.RetryFlag(s.procs[c].lc, l) then queued + 1 else queued
  }

  /** One revoke per tenure of the lock and none for other clients; one claim per acquiring client. */
  lemma TokensConserved(s: State, c: ClientId, l: LockId)
    requires Reachable(s) && c in s.procs
    ensures var k := SV.Look(s.sv, l);
            RevokeTokens(s, c, l) == if IsHolder(k, c) && k.waiting != [] then 1 else 0
    ensures ClaimTokens(s, c, l) == if CL.St(s.procs[c].lc, l) == CL.ACQUIRING then 1 else 0
  {
    ReachableGood(s);
    assert CellOk(s, c, l) && LockOk(s, l);
    var x, y := LocalAt(s.procs[c], l), RemoteAt(s.sv, c, l);
    assert RevokeTokens(s, c, l) == y.revokes + x.listed;
  }

  /** Nobody waits twice, and everybody who waits is acquiring. */
  lemma WaitersDistinct(s: State, l: LockId)
    requires Reachable(s)
    ensures var w := SV.Look(s.sv, l).waiting;
            && (forall i, j :: 0 <= i < j < |w| ==> w[i] != w[j])
            && (forall i :: 0 <= i < |w| ==> w[i] in s.procs && CL.St(s.procs[w[i]].lc, l) == CL.ACQUIRING)
  {
    ReachableGood(s);
    var w := SV.Look(s.sv, l).waiting;
    assert LockOk(s, l);
    forall i | 0 <= i < |w|
      ensures w[i] in s.procs && multiset(w)[w[i]] == 1 && CL.St(s.procs[w[i]].lc, l) == CL.ACQUIRING
    {
      assert CellOk(s, w[i], l) && w[i] in multiset(w);
    }
    forall i, j | 0 <= i < j < |w| ensures w[i] != w[j] {
      CountTwice(w, i, j);
    }
  }

  lemma CountTwice(w: seq<ClientId>, i: nat, j: nat)
    requires i < j < |w|
    ensures multiset(w)[w[i]] >= (if w[i] == w[j] then 2 else 1)
  {
    assert w == w[..i] + [w[i]] + w[i + 1..];
    assert w[i + 1..][j - i - 1] == w[j];
  }

  /**
   * Every release that reaches the server comes from the recorded holder and finds a waiter;
   * the answer of the unlocked test is still right when the locked half runs; and the branch
   * that leaves the status mutex locked is never taken.
   */
  lemma ReleaseFindsWaiter(s: State, c: ClientId)
    requires Reachable(s) && c in s.procs && s.procs[c].busy != Quiet
    ensures !s.sv.broken
    ensures IsHolder(SV.Look(s.sv, s.procs[c].busy.lid), c)
    ensures SV.ReleaseTest(s.sv, s.procs[c].busy.lid) == SV.HasWaiters
    ensures s.procs[c].busy.Tested? ==> s.procs[c].busy.test == SV.HasWaiters
  {
    ReachableGood(s);
    var l := s.procs[c].busy.lid;
    assert CellOk(s, c, l) && LockOk(s, l) && PassOk(s.procs[c]);
  }

  /** The release of a tenure consumes its revoke. */
  lemma CommitConsumesRevoke(s: State, c: ClientId)
    requires Good(s) && Enabled(s, ReleaserCommit(c))
    ensures var l, s' := s.procs[c].busy.lid, CommitS(s, c);
            RevokeTokens(s, c, l) == 1 && RevokeTokens(s', c, l) == 0
  {
    var l, s' := s.procs[c].busy.lid, CommitS(s, c);
    assert CellOk(s, c, l) && LockOk(s, l) && PassOk(s.procs[c]);
    CommitCell(s, c, c, l);
    assert RevokeTokens(s', c, l) == RemoteAt(s'.sv, c, l).revokes + LocalAt(s'.procs[c], l).listed;
  }

  /** The release of a tenure opens the lock and hands its first waiter a retry. */
  lemma CommitHandsRetry(s: State, c: ClientId)
    requires Good(s) && Enabled(s, ReleaserCommit(c))
    ensures var l, s' := s.procs[c].busy.lid, CommitS(s, c);
            var w := SV.Look(s.sv, l).waiting;
            && w != [] && w[0] in s.procs
            && SV.Look(s'.sv, l).status == SV.OPEN
            && SV.Look(s'.sv, l).waiting == w[1..]
            && RemoteAt(s'.sv, w[0], l).retries == 1
  {
    var l := s.procs[c].busy.lid;
    assert CellOk(s, c, l) && LockOk(s, l) && PassOk(s.procs[c]);
    var first := SV.Look(s.sv, l).waiting[0];
    assert CellOk(s, first, l) && first in multiset(SV.Look(s.sv, l).waiting);
    CommitRemote(s.sv, l, c, first, l);
  }

  lemma CommitConsumes(s: State, c: ClientId)
    requires Reachable(s) && Enabled(s, ReleaserCommit(c))
    ensures var l, s' := s.procs[c].busy.lid, CommitS(s, c);
            var w := SV.Look(s.sv, l).waiting;
            && RevokeTokens(s, c, l) == 1 && RevokeTokens(s', c, l) == 0
            && w != [] && w[0] in s.procs
            && SV.Look(s'.sv, l).status == SV.OPEN && SV.Look(s'.sv, l).waiting == w[1..]
            && RemoteAt(s'.sv, w[0], l).retries == 1
  {
    ReachableGood(s);
    CommitConsumesRevoke(s, c);
    CommitHandsRetry(s, c);
  }

  // ----- nobody waits on nothing -----

  /** The client is in a releaser pass and can take the pass's next step. */
  predicate PassMoves(s: State, c: ClientId) {
    Enabled(s, ReleaserFlush(c)) || Enabled(s, ReleaserTest(c)) || Enabled(s, ReleaserCommit(c))
  }

  /** The revoker thread can go on, or waits for a client that is in a releaser pass. */
  predicate RevokerMoves(s: State) {
    && s.sv.revokeList != []
    && (Enabled(s, DeliverRevoke) || Enabled(s, PopRevoke) || PassMoves(s, s.sv.revokeList[0].client))
  }

  predicate RetryerMoves(s: State) {
    && s.sv.retryList != []
    && (Enabled(s, DeliverRetry) || Enabled(s, PopRetry) || PassMoves(s, s.sv.retryList[0].client))
  }

  /** The next step of thread `t` that leads out of its critical section on `l` is enabled. */
  ghost predicate ThreadMoves(s: State, c: ClientId, t: ThreadId, l: LockId) {
    || Enabled(s, Release(c, t, l))
    || Enabled(s, FetchAttr(c, t))
    || Enabled(s, FetchInsert(c, t))
    || exists m ::
         Enabled(s, AcquireNone(c, t, m)) || Enabled(s, AcquireFree(c, t, m)) || Enabled(s, AcquireRetry(c, t, m))
  }

  /** Thread `t` waits for a lock that another thread of its client uses, or for a retry that has not come. */
  predicate Blocked(p: Proc, t: ThreadId) {
    match PcOf(p, t)
    case InAcquire(m) => CL.St(p.lc, m) != CL.NONE && CL.St(p.lc, m) != CL.FREE
    case InRetry(m) => !CL.RetryFlag(p.lc, m)
    case _ => false
  }

  lemma ThreadMovesUnlessBlocked(s: State, c: ClientId, t: ThreadId, l: LockId)
    requires Good(s) && Ready(s, c) && (t, l) in s.procs[c].held
    ensures ThreadMoves(s, c, t, l) <==> !Blocked(s.procs[c], t)
  {
    match PcOf(s.procs[c], t)
    case InAcquire(m) =>
      if CL.St(s.procs[c].lc, m) == CL.NONE {
        assert Enabled(s, AcquireNone(c, t, m));
      } else if CL.St(s.procs[c].lc, m) == CL.FREE {
        assert Enabled(s, AcquireFree(c, t, m));
      }
    case InRetry(m) =>
      if CL.RetryFlag(s.procs[c].lc, m) {
        assert Enabled(s, AcquireRetry(c, t, m));
      }
    case _ =>
  }

  /**
   * Something can move the holder `h` towards giving `l` back: a thread inside its critical section
   * can go on, the revoke is on its way, a pass is running, or the releaser is about to run one.
   */
  ghost predicate HolderMoves(s: State, h: ClientId, l: LockId)
    requires h in s.procs
  {
    || (exists t :: (t, l) in s.procs[h].held && ThreadMoves(s, h, t, l))
    || (RemoteAt(s.sv, h, l).revokes > 0 && RevokerMoves(s))
    || PassMoves(s, h)
    || (CL.St(s.procs[h].lc, l) == CL.RELEASING && Enabled(s, ReleaserPick(h)))
  }

  /** The lock waits for the releaser thread, and the releaser thread is switched off. */
  predicate Stranded(s: State, h: ClientId, l: LockId) {
    Ready(s, h) && CL.St(s.procs[h].lc, l) == CL.RELEASING && !s.procs[h].lc.releaserOn
  }

  /** The holder has its revoke, and the thread that uses the lock is blocked on another one. */
  ghost predicate HolderWaits(s: State, h: ClientId, l: LockId) {
    && Ready(s, h)
    && l in s.procs[h].lc.revokeList
    && exists t :: (t, l) in s.procs[h].held && Blocked(s.procs[h], t)
  }

  lemma BusyMoves(s: State, c: ClientId)
    requires Inv(s) && c in s.procs
    ensures PassMoves(s, c) <==> s.procs[c].busy != Quiet
  {
  }

  lemma RevokerCanMove(s: State, h: ClientId, l: LockId)
    requires Inv(s) && h in s.procs && RemoteAt(s.sv, h, l).revokes > 0
    ensures RevokerMoves(s)
  {
    assert Msg(l, h) in multiset(SV.Undelivered(s.sv.revokeList, s.sv.revokeSent));
    var c := s.sv.revokeList[0].client;
    assert c in s.procs;
    BusyMoves(s, c);
  }

  lemma RetryerCanMove(s: State, c: ClientId, l: LockId)
    requires Inv(s) && c in s.procs && RemoteAt(s.sv, c, l).retries > 0
    ensures RetryerMoves(s)
  {
    assert Msg(l, c) in multiset(SV.Undelivered(s.sv.retryList, s.sv.retrySent));
    var d := s.sv.retryList[0].client;
    assert d in s.procs;
    BusyMoves(s, d);
  }

  /**
   * While a held lock is waited for, its holder can move exactly if the lock is not stranded and its
   * thread is not blocked on another lock.
   */
  lemma HolderMovesUnlessStuck(s: State, l: LockId)
    requires Reachable(s)
    requires SV.Look(s.sv, l).status == SV.LOCKED && SV.Look(s.sv, l).waiting != []
    ensures var h := SV.Look(s.sv, l).lockClient;
            h in s.procs && (HolderMoves(s, h, l) <==> !Stranded(s, h, l) && !HolderWaits(s, h, l))
  {
    ReachableGood(s);
    var h := SV.Look(s.sv, l).lockClient;
    assert LockOk(s, l) && CellOk(s, h, l);
    BusyMoves(s, h);
    var p := s.procs[h];
    assert ProcOk(p, s.files);
    if RemoteAt(s.sv, h, l).revokes > 0 {
      RevokerCanMove(s, h, l);
      assert l !in multiset(p.lc.revokeList);
    } else if p.busy == Quiet {
      assert l in multiset(p.lc.revokeList);
      forall t | (t, l) in p.held ensures ThreadMoves(s, h, t, l) <==> !Blocked(p, t) {
        ThreadMovesUnlessBlocked(s, h, t, l);
      }
      if CL.St(p.lc, l) == CL.LOCKED {
        assert HeldBySome(p, l);
      }
    }
  }

  /** The retry of `l` for `c`, queued or received, can be served by an enabled step. */
  ghost predicate RetryMoves(s: State, c: ClientId, l: LockId) {
    RetryerMoves(s) || PassMoves(s, c) || exists t :: Enabled(s, AcquireRetry(c, t, l))
  }

  lemma RetryCanMove(s: State, c: ClientId, l: LockId)
    requires Good(s) && c in s.procs && HasRetry(s, c, l)
    ensures RetryMoves(s, c, l)
  {
    assert CellOk(s, c, l) && ProcOk(s.procs[c], s.files);
    if RemoteAt(s.sv, c, l).retries > 0 {
      RetryerCanMove(s, c, l);
    } else {
      BusyMoves(s, c);
      var t :| Seeks(s.procs[c], t, l);
      assert s.procs[c].busy == Quiet ==> Enabled(s, AcquireRetry(c, t, l));
    }
  }

  /** An open lock always has a retry under way that can be served. */
  lemma OpenMoves(s: State, l: LockId)
    requires Reachable(s) && l in s.sv.locks && SV.Look(s.sv, l).status == SV.OPEN
    ensures exists d :: d in s.procs && HasRetry(s, d, l) && RetryMoves(s, d, l)
  {
    ReachableGood(s);
    assert LockOk(s, l);
    var d :| d in s.procs && HasRetry(s, d, l);
    RetryCanMove(s, d, l);
  }

  /** What an acquiring client waits for can move: its own retry, somebody's retry, or the holder. */
  ghost predicate WaiterMoves(s: State, c: ClientId, l: LockId) {
    var k := SV.Look(s.sv, l);
    if c !in k.waiting then RetryMoves(s, c, l)
    else if k.status == SV.OPEN then exists d :: d in s.procs && HasRetry(s, d, l) && RetryMoves(s, d, l)
    else k.lockClient in s.procs && HolderMoves(s, k.lockClient, l)
  }

  /**
   * An acquiring client waits on nothing exactly if it waits in the list for a lock that is stranded, or
   * whose holder is itself blocked on another lock.
   */
  lemma NoStuckWaiter(s: State, c: ClientId, l: LockId)
    requires Reachable(s) && c in s.procs && CL.St(s.procs[c].lc, l) == CL.ACQUIRING
    ensures var k := SV.Look(s.sv, l);
            WaiterMoves(s, c, l) <==>
            !(c in k.waiting && k.status == SV.LOCKED
              && (Stranded(s, k.lockClient, l) || HolderWaits(s, k.lockClient, l)))
  {
    ReachableGood(s);
    var k := SV.Look(s.sv, l);
    if c in k.waiting {
      if k.status == SV.OPEN {
        OpenMoves(s, l);
      } else {
        HolderMovesUnlessStuck(s, l);
      }
    } else {
      assert CellOk(s, c, l);
      assert c !in multiset(k.waiting);
      RetryCanMove(s, c, l);
    }
  }

  // ----- what a releaser pass leaves behind -----

  /** No RELEASING lock is left to a releaser that is switched off or busy with another one. */
  ghost predicate Tidy(p: Proc) {
    forall l :: CL.St(p.lc, l) == CL.RELEASING ==> p.lc.releaserOn && p.busy == Quiet
  }

  ghost predicate AllTidy(s: State) {
    forall c :: c in s.procs ==> Tidy(s.procs[c])
  }

  /** The pass starts with at most one lock of the client to give back. */
  ghost predicate Lonely(p: Proc) {
    forall l, m :: CL.St(p.lc, l) == CL.RELEASING && CL.St(p.lc, m) == CL.RELEASING ==> l == m
  }

  ghost predicate LonelyStep(s: State, a: Step) {
    a.ReleaserPick? && a.c in s.procs ==> Lonely(s.procs[a.c])
  }

  /** Client `c` moves and no lock becomes RELEASING except with the releaser switched on. */
  lemma ClientTidy(s: State, c: ClientId, s': State)
    requires AllTidy(s) && c in s.procs && c in s'.procs && s'.procs == s.procs[c := s'.procs[c]]
    requires forall l :: CL.St(s'.procs[c].lc, l) == CL.RELEASING ==>
               || (s'.procs[c].lc.releaserOn && s'.procs[c].busy == Quiet)
               || (CL.St(s.procs[c].lc, l) == CL.RELEASING
                   && s'.procs[c].lc.releaserOn == s.procs[c].lc.releaserOn && s'.procs[c].busy == s.procs[c].busy)
    ensures AllTidy(s')
  {
    assert Tidy(s.procs[c]);
  }

  lemma PickTidy(s: State, c: ClientId)
    requires Good(s) && AllTidy(s) && Enabled(s, ReleaserPick(c))
    ensures AllTidy(PickS(s, c)) <==> Lonely(s.procs[c])
  {
    var p, p' := s.procs[c], PickS(s, c).procs[c];
    CL.FirstReleasingFound(p.lc, p.lc.revokeList);
    forall l | CL.St(p.lc, l) == CL.RELEASING ensures l in p.lc.revokeList {
      assert CellOk(s, c, l);
      assert l in multiset(p.lc.revokeList);
    }
    match CL.FirstReleasing(p.lc, p.lc.revokeList)
    case None =>
      assert forall l :: CL.St(p'.lc, l) == CL.St(p.lc, l);
    case Some(m) =>
      assert forall l :: l != m ==> CL.St(p'.lc, l) == CL.St(p.lc, l);
      if Lonely(p) {
        forall l ensures CL.St(p'.lc, l) != CL.RELEASING {
          assert CL.St(p.lc, l) == CL.RELEASING ==> l == m;
        }
      } else {
        var l :| CL.St(p.lc, l) == CL.RELEASING && l != m;
        assert !Tidy(p') by {
          assert CL.St(p'.lc, l) == CL.RELEASING;
        }
      }
  }

  lemma LockStepTidy(s: State, a: Step)
    requires AllTidy(s) && Enabled(s, a)
    requires a.Enter? || a.AcquireNone? || a.AcquireFree? || a.AcquireRetry? || a.Release?
    ensures AllTidy(Apply(s, a))
  {
    var s' := Apply(s, a);
    assert forall l :: l != a.l ==> CL.St(s'.procs[a.c].lc, l) == CL.St(s.procs[a.c].lc, l);
    ClientTidy(s, a.c, s');
  }

  lemma DeliverTidy(s: State, a: Step)
    requires AllTidy(s) && Enabled(s, a) && (a.DeliverRevoke? || a.DeliverRetry?)
    ensures AllTidy(Apply(s, a))
  {
    var m := if a.DeliverRevoke? then s.sv.revokeList[0] else s.sv.retryList[0];
    var s' := Apply(s, a);
    assert forall l :: l != m.lid ==> CL.St(s'.procs[m.client].lc, l) == CL.St(s.procs[m.client].lc, l);
    ClientTidy(s, m.client, s');
  }

  /** While a pass runs in a tidy state the client has nothing else to give back. */
  lemma PassTidy(s: State, a: Step)
    requires AllTidy(s) && Enabled(s, a) && (a.ReleaserFlush? || a.ReleaserTest? || a.ReleaserCommit?)
    ensures AllTidy(Apply(s, a))
  {
    assert Tidy(s.procs[a.c]);
    assert forall l :: CL.St(Apply(s, a).procs[a.c].lc, l) == CL.St(s.procs[a.c].lc, l);
    ClientTidy(s, a.c, Apply(s, a));
  }

  lemma DataTidy(s: State, a: Step)
    requires AllTidy(s) && Enabled(s, a)
    requires a.Put? || a.GetHit? || a.GetAttr? || a.FetchContent? || a.FetchAttr? || a.FetchInsert?
    ensures AllTidy(Apply(s, a))
  {
    ClientTidy(s, a.c, Apply(s, a));
  }

  lemma StepTidy(s: State, a: Step)
    requires Good(s) && AllTidy(s) && Enabled(s, a)
    ensures AllTidy(Apply(s, a)) <==> LonelyStep(s, a)
  {
    if a.ReleaserPick? {
      PickTidy(s, a.c);
    } else if a.DeliverRevoke? || a.DeliverRetry? {
      DeliverTidy(s, a);
    } else if a.ReleaserFlush? || a.ReleaserTest? || a.ReleaserCommit? {
      PassTidy(s, a);
    } else if a.Enter? || a.AcquireNone? || a.AcquireFree? || a.AcquireRetry? || a.Release? {
      LockStepTidy(s, a);
    } else if !a.PopRevoke? && !a.PopRetry? {
      DataTidy(s, a);
    }
  }

  ghost predicate TidyRun(s: State, run: seq<Step>)
    requires IsRun(s, run)
    decreases |run|
  {
    AllTidy(s) && (run == [] || TidyRun(Apply(s, run[0]), run[1..]))
  }

  ghost predicate LonelyRun(s: State, run: seq<Step>)
    requires IsRun(s, run)
    decreases |run|
  {
    run == [] || (LonelyStep(s, run[0]) && LonelyRun(Apply(s, run[0]), run[1..]))
  }

  /**
   * In a run every RELEASING lock always has a releaser that is on and not busy with another lock,
   * exactly if every releaser pass in it starts with at most one lock to give back.
   */
  lemma {:induction false} TidyIffLonely(s: State, run: seq<Step>)
    requires Good(s) && AllTidy(s) && IsRun(s, run)
    ensures TidyRun(s, run) <==> LonelyRun(s, run)
    decreases |run|
  {
    if run != [] {
      StepGood(s, run[0]);
      StepTidy(s, run[0]);
      if LonelyStep(s, run[0]) {
        TidyIffLonely(Apply(s, run[0]), run[1..]);
      }
    }
  }

  /** The end of a pass strands every other lock that was RELEASING; in a tidy state none is. */
  lemma PassStrands(s: State, c: ClientId, l: LockId)
    requires Good(s) && Enabled(s, ReleaserCommit(c))
    ensures Stranded(CommitS(s, c), c, l) <==> CL.St(s.procs[c].lc, l) == CL.RELEASING
    ensures CL.St(s.procs[c].lc, l) == CL.RELEASING ==> !Tidy(s.procs[c])
  {
  }

  ghost predicate SomeStranded(s: State) {
    exists c, l :: Stranded(s, c, l)
  }

  ghost predicate NeverStranded(s: State, run: seq<Step>)
    requires IsRun(s, run)
    decreases |run|
  {
    !SomeStranded(s) && (run == [] || NeverStranded(Apply(s, run[0]), run[1..]))
  }

  /** During a releaser pass of `c`, only its commit ends the pass or touches another RELEASING lock. */
  lemma PassKeeps(s: State, a: Step, c: ClientId, l: LockId)
    requires Enabled(s, a) && a != ReleaserCommit(c)
    requires c in s.procs && s.procs[c].busy != Quiet && CL.St(s.procs[c].lc, l) == CL.RELEASING
    ensures var s' := Apply(s, a);
            c in s'.procs && s'.procs[c].busy != Quiet && CL.St(s'.procs[c].lc, l) == CL.RELEASING
  {
  }

  /** A pass that leaves a RELEASING lock behind strands it, once the pass is over. */
  lemma {:induction false} PassEndsStranded(s: State, run: seq<Step>, c: ClientId, l: LockId)
    requires Good(s) && IsRun(s, run) && c in s.procs
    requires s.procs[c].busy != Quiet && CL.St(s.procs[c].lc, l) == CL.RELEASING
    requires AllQuiet(Exec(s, run))
    ensures !NeverStranded(s, run)
    decreases |run|
  {
    if run != [] {
      var s' := Apply(s, run[0]);
      StepGood(s, run[0]);
      if run[0] == ReleaserCommit(c) {
        PassStrands(s, c, l);
        assert Stranded(s', c, l);
      } else {
        PassKeeps(s, run[0], c, l);
        PassEndsStranded(s', run[1..], c, l);
      }
    }
  }

  ghost predicate AllQuiet(s: State) {
    forall c :: c in s.procs ==> s.procs[c].busy == Quiet
  }

  lemma TidyNotStranded(s: State)
    requires AllTidy(s)
    ensures !SomeStranded(s)
  {
  }

  /** A pass that starts with two locks to give back leaves the client busy with one and the other RELEASING. */
  lemma CrowdedPick(s: State, c: ClientId) returns (l: LockId)
    requires Good(s) && Enabled(s, ReleaserPick(c)) && !Lonely(s.procs[c])
    ensures var s' := PickS(s, c); s'.procs[c].busy != Quiet && CL.St(s'.procs[c].lc, l) == CL.RELEASING
  {
    var p := s.procs[c];
    var x: LockId, y: LockId :| CL.St(p.lc, x) == CL.RELEASING && CL.St(p.lc, y) == CL.RELEASING && x != y;
    assert CellOk(s, c, x);
    assert x in multiset(p.lc.revokeList);
    CL.FirstReleasingFound(p.lc, p.lc.revokeList);
    l := if CL.FirstReleasing(p.lc, p.lc.revokeList) == Some(x) then y else x;
  }

  lemma {:induction false} StrandedIffCrowded(s: State, run: seq<Step>)
    requires Good(s) && AllTidy(s) && IsRun(s, run) && AllQuiet(Exec(s, run))
    ensures NeverStranded(s, run) <==> LonelyRun(s, run)
    decreases |run|
  {
    TidyNotStranded(s);
    if run != [] {
      StepGood(s, run[0]);
      StepTidy(s, run[0]);
      if LonelyStep(s, run[0]) {
        StrandedIffCrowded(Apply(s, run[0]), run[1..]);
      } else {
        var l := CrowdedPick(s, run[0].c);
        PassEndsStranded(Apply(s, run[0]), run[1..], run[0].c, l);
      }
    }
  }

  /** In a run that ends with no pass under way, no lock is ever stranded exactly if every pass starts with one lock. */
  lemma NothingStrandedIffLonely(ids: set<ClientId>, run: seq<Step>)
    requires IsRun(Init(ids), run) && AllQuiet(Exec(Init(ids), run))
    ensures NeverStranded(Init(ids), run) <==> LonelyRun(Init(ids), run)
  {
    InitGood(ids);
    StrandedIffCrowded(Init(ids), run);
  }
}
