/**
 * What every step of the lock protocol keeps. The state is read as a table of cells, one per
 * client and lock. A cell has a local part, what the client knows about the lock, and a remote
 * part, the tokens at the server that concern this client and this lock.
 */
module LockInvariant {
  import opened LockTypes
  import opened Protocol
  import SV = ServerCache
  import CL = ClientCache
  import ES = ExtentStore

  /** `releasing`: a releaser pass is giving the lock back; `listed`: entries in the revoke list. */
  datatype Local = Local(st: CL.LockSt, releasing: bool, flag: bool, listed: nat)

  /** Waiting entries, undelivered retries and undelivered revokes. */
  datatype Remote = Remote(waits: nat, retries: nat, revokes: nat)

  ghost function LocalAt(p: Proc, l: LockId): Local {
    Local(CL.St(p.lc, l), p.busy != Quiet && p.busy.lid == l, CL.RetryFlag(p.lc, l), multiset(p.lc.revokeList)[l])
  }

  ghost function RemoteAt(sv: SV.Server, c: ClientId, l: LockId): Remote {
    Remote(multiset(SV.Look(sv, l).waiting)[c],
           multiset(SV.Undelivered(sv.retryList, sv.retrySent))[Msg(l, c)],
           multiset(SV.Undelivered(sv.revokeList, sv.revokeSent))[Msg(l, c)])
  }

  predicate Owns(x: Local) {
    x.st == CL.FREE || x.st == CL.LOCKED || x.st == CL.RELEASING || x.releasing
  }

  /** Exactly one revoke: under way, or in the client's list. */
  predicate OneRevoke(x: Local, y: Remote) {
    (y.revokes == 1 && x.listed == 0) || (y.revokes == 0 && x.listed == 1)
  }

  predicate NoRevoke(x: Local, y: Remote) {
    y.revokes == 0 && x.listed == 0
  }

  /** Exactly one claim on the lock: a waiting entry, a retry under way, or a retry received. */
  predicate OneClaim(x: Local, y: Remote) {
    || (y.waits == 1 && y.retries == 0 && !x.flag)
    || (y.waits == 0 && y.retries == 1 && !x.flag)
    || (y.waits == 0 && y.retries == 0 && x.flag)
  }

  predicate NoClaim(x: Local, y: Remote) {
    y.waits == 0 && y.retries == 0 && !x.flag
  }

  predicate IsHolder(k: SV.LockStatus, c: ClientId) {
    k.status == SV.LOCKED && k.lockClient == c
  }

  /** What a cell says, given whether its client is the recorded holder and is marked for revocation. */
  predicate Sound(x: Local, y: Remote, holder: bool, revoked: bool) {
    // the clients that own the lock are exactly the recorded holder
    && (Owns(x) <==> holder)
    // one revoke per tenure, and only for the holder
    && (if revoked then OneRevoke(x, y) else NoRevoke(x, y))
    && (revoked ==> holder)
    // one claim per acquiring client, none otherwise
    && (if x.st == CL.ACQUIRING then OneClaim(x, y) else NoClaim(x, y))
    && (x.st == CL.FREE ==> x.listed == 0)
    && (x.st == CL.RELEASING || x.releasing ==> x.listed == 1)
    && (x.releasing ==> x.st == CL.NONE)
  }

  ghost predicate CellOk(s: State, c: ClientId, l: LockId)
    requires c in s.procs
  {
    var k := SV.Look(s.sv, l);
    Sound(LocalAt(s.procs[c], l), RemoteAt(s.sv, c, l), IsHolder(k, c), SV.Revoked(k, c))
  }

  /** A retry of `l` for client `c` is on its way or delivered. */
  ghost predicate HasRetry(s: State, c: ClientId, l: LockId)
    requires c in s.procs
  {
    RemoteAt(s.sv, c, l).retries > 0 || LocalAt(s.procs[c], l).flag
  }

  ghost predicate RetryOut(s: State, l: LockId) {
    exists c :: c in s.procs && HasRetry(s, c, l)
  }

  /** The server's record of `l`: a revoke is out exactly when somebody waits. */
  ghost predicate LockOk(s: State, l: LockId) {
    var k := SV.Look(s.sv, l);
    && (forall c :: c in k.waiting ==> c in s.procs)
    && (k.status == SV.LOCKED ==> k.lockClient in s.procs && (SV.Revoked(k, k.lockClient) <==> k.waiting != []))
    && (k.status == SV.OPEN && l in s.sv.locks ==> RetryOut(s, l))
  }

  ghost predicate QueueOk(s: State) {
    && (forall m :: m in s.sv.retryList ==> m.client in s.procs)
    && (forall m :: m in s.sv.revokeList ==> m.client in s.procs)
    && SentOk(s.sv)
  }

  predicate SentOk(sv: SV.Server) {
    && (sv.retrySent ==> sv.retryList != [])
    && (sv.revokeSent ==> sv.revokeList != [])
    && !sv.broken
  }

  /** A releaser pass that has made its unlocked test saw a waiter. */
  predicate PassOk(p: Proc) {
    p.busy.Tested? ==> p.busy.test == SV.HasWaiters
  }

  ghost predicate Inv(s: State) {
    && (forall c, l :: c in s.procs ==> CellOk(s, c, l))
    && (forall l :: LockOk(s, l))
    && (forall c :: c in s.procs ==> PassOk(s.procs[c]))
    && QueueOk(s)
  }

  // ----- counting -----

  lemma CountTail<T>(q: seq<T>, m: T)
    requires q != []
    ensures multiset(q)[m] == multiset(q[1..])[m] + (if q[0] == m then 1 else 0)
  {
    assert q == [q[0]] + q[1..];
  }

  lemma CountPush(q: seq<Msg>, sent: bool, n: Msg, m: Msg)
    requires sent ==> q != []
    ensures multiset(SV.Undelivered(q + [n], sent))[m]
         == multiset(SV.Undelivered(q, sent))[m] + (if n == m then 1 else 0)
  {
    if sent {
      assert (q + [n])[1..] == q[1..] + [n];
    }
  }

  // ----- the server's half of each step -----

  lemma GrantRemote(sv: SV.Server, l: LockId, id: ClientId, c: ClientId, m: LockId)
    requires SentOk(sv) && SV.AcquireReply(sv, l) == OK
    ensures var y, waited := RemoteAt(sv, c, m), SV.Look(sv, l).waiting != [];
            RemoteAt(SV.Acquired(sv, l, id), c, m)
            == if waited && c == id && m == l then y.(revokes := y.revokes + 1) else y
  {
    CountPush(sv.revokeList, sv.revokeSent, Msg(l, id), Msg(m, c));
  }

  lemma RefuseRemote(sv: SV.Server, l: LockId, id: ClientId, c: ClientId, m: LockId)
    requires SentOk(sv) && SV.AcquireReply(sv, l) == RETRY
    ensures var y, k := RemoteAt(sv, c, m), SV.Look(sv, l);
            RemoteAt(SV.Acquired(sv, l, id), c, m)
            == Remote(if c == id && m == l then y.waits + 1 else y.waits, y.retries,
                      if c == k.lockClient && m == l && !SV.Revoked(k, c) then y.revokes + 1 else y.revokes)
  {
    var k, sv' := SV.Look(sv, l), SV.Acquired(sv, l, id);
    assert SV.Look(sv', m).waiting == if m == l then k.waiting + [id] else SV.Look(sv, m).waiting;
    assert sv'.retryList == sv.retryList && sv'.retrySent == sv.retrySent && sv'.revokeSent == sv.revokeSent;
    CountPush(sv.revokeList, sv.revokeSent, Msg(l, k.lockClient), Msg(m, c));
  }

  lemma CommitRemote(sv: SV.Server, l: LockId, id: ClientId, c: ClientId, m: LockId)
    requires SentOk(sv) && SV.Look(sv, l).waiting != []
    ensures var y, first := RemoteAt(sv, c, m), SV.Look(sv, l).waiting[0];
            if c == first && m == l then
              y.waits > 0
              && RemoteAt(SV.Released(sv, l, id, SV.HasWaiters), c, m)
                 == y.(waits := y.waits - 1, retries := y.retries + 1)
            else RemoteAt(SV.Released(sv, l, id, SV.HasWaiters), c, m) == y
  {
    var k, sv' := SV.Look(sv, l), SV.Released(sv, l, id, SV.HasWaiters);
    assert SV.Look(sv', m).waiting == if m == l then k.waiting[1..] else SV.Look(sv, m).waiting;
    assert sv'.retryList == sv.retryList + [Msg(l, k.waiting[0])];
    CountTail(k.waiting, c);
    CountPush(sv.retryList, sv.retrySent, Msg(l, k.waiting[0]), Msg(m, c));
  }

  // ----- frames -----

  /** A lock whose record is untouched and whose retries are not lost stays in order. */
  lemma LockFrame(s: State, s': State, l: LockId)
    requires LockOk(s, l)
    requires s'.procs.Keys == s.procs.Keys
    requires SV.Look(s'.sv, l) == SV.Look(s.sv, l) && (l in s'.sv.locks <==> l in s.sv.locks)
    requires forall c :: c in s.procs && HasRetry(s, c, l) ==> HasRetry(s', c, l)
    ensures LockOk(s', l)
  {
  }

  /** A change of a cell's local part that no token notices. */
  predicate Keeps(x: Local, x': Local) {
    && (Owns(x') <==> Owns(x))
    && x'.listed == x.listed && x'.flag == x.flag
    && (x'.st == CL.ACQUIRING <==> x.st == CL.ACQUIRING)
    && (x'.st == CL.FREE ==> x'.listed == 0)
    && (x'.st == CL.RELEASING || x'.releasing ==> x'.listed == 1)
    && (x'.releasing ==> x'.st == CL.NONE)
  }

  /** A step of client `c` alone: nothing changes at the server and no token moves. */
  lemma LocalStep(s: State, c: ClientId, p': Proc)
    requires Inv(s) && c in s.procs
    requires PassOk(p')
    requires forall l :: Keeps(LocalAt(s.procs[c], l), LocalAt(p', l))
    ensures Inv(Update(s, c, p'))
  {
    var s' := Update(s, c, p');
    forall c', l | c' in s'.procs ensures CellOk(s', c', l) {
      assert CellOk(s, c', l);
      assert Keeps(LocalAt(s.procs[c], l), LocalAt(p', l));
    }
    forall l ensures LockOk(s', l) {
      assert LockOk(s, l);
      assert Keeps(LocalAt(s.procs[c], l), LocalAt(p', l));
      LockFrame(s, s', l);
    }
  }

  // ----- steps of one client -----

  lemma EnterKeeps(p: Proc, t: ThreadId, l: LockId, m: LockId)
    ensures LocalAt(p.(lc := CL.Entered(p.lc, l), pc := p.pc[t := InAcquire(l)]), m)
         == LocalAt(p, m).(flag := LocalAt(p, m).flag && (m == l ==> l in p.lc.lockMap))
  {
  }

  lemma EnterInv(s: State, c: ClientId, t: ThreadId, l: LockId)
    requires Inv(s) && Ready(s, c)
    ensures Inv(EnterS(s, c, t, l))
  {
    var p := s.procs[c];
    var p' := p.(lc := CL.Entered(p.lc, l), pc := p.pc[t := InAcquire(l)]);
    forall m ensures Keeps(LocalAt(p, m), LocalAt(p', m)) {
      assert CellOk(s, c, m);
      EnterKeeps(p, t, l, m);
    }
    LocalStep(s, c, p');
  }

  lemma FreeInv(s: State, c: ClientId, t: ThreadId, l: LockId)
    requires Inv(s) && Ready(s, c) && CL.St(s.procs[c].lc, l) == CL.FREE
    ensures Inv(AcquireFreeS(s, c, t, l))
  {
    var p := s.procs[c];
    var p' := Settle(p.(lc := CL.SetSt(p.lc, l, CL.LOCKED)), t, l, OK);
    forall m ensures Keeps(LocalAt(p, m), LocalAt(p', m)) {
      assert CellOk(s, c, m);
    }
    LocalStep(s, c, p');
  }

  lemma ReleaseInv(s: State, c: ClientId, t: ThreadId, l: LockId)
    requires Inv(s) && Ready(s, c) && CL.St(s.procs[c].lc, l) == CL.LOCKED
    ensures Inv(ReleaseS(s, c, t, l))
  {
    var p := s.procs[c];
    var p' := p.(lc := CL.Released(p.lc, l), held := p.held - {(t, l)});
    forall m ensures Keeps(LocalAt(p, m), LocalAt(p', m)) {
      assert CellOk(s, c, m);
    }
    LocalStep(s, c, p');
  }

  lemma PickInv(s: State, c: ClientId)
    requires Inv(s) && Ready(s, c)
    ensures Inv(PickS(s, c))
  {
    var p := s.procs[c];
    CL.FirstReleasingFound(p.lc, p.lc.revokeList);
    match CL.FirstReleasing(p.lc, p.lc.revokeList)
    case Some(l) =>
      var p' := p.(lc := CL.SetSt(p.lc, l, CL.NONE), busy := ToFlush(l));
      forall m ensures Keeps(LocalAt(p, m), LocalAt(p', m)) {
        assert CellOk(s, c, m);
      }
      LocalStep(s, c, p');
    case None =>
      var p' := p.(lc := p.lc.(releaserOn := false));
      forall m ensures Keeps(LocalAt(p, m), LocalAt(p', m)) {
        assert CellOk(s, c, m);
      }
      LocalStep(s, c, p');
  }

  /** The unlocked test of a release always sees a waiter. */
  lemma TestInv(s: State, c: ClientId)
    requires Inv(s) && c in s.procs && s.procs[c].busy.ToRelease?
    ensures SV.ReleaseTest(s.sv, s.procs[c].busy.lid) == SV.HasWaiters
    ensures Inv(TestS(s, c))
  {
    var p := s.procs[c];
    var l := p.busy.lid;
    assert CellOk(s, c, l) && LockOk(s, l);
    var p' := p.(busy := Tested(l, SV.ReleaseTest(s.sv, l)));
    forall m ensures Keeps(LocalAt(p, m), LocalAt(p', m)) {
      assert CellOk(s, c, m);
      assert LocalAt(p', m) == LocalAt(p, m);
    }
    LocalStep(s, c, p');
  }

  // ----- the acquire call -----

  /** Client `p` after its call for `l` was answered: only the state and the flag of `l` moved. */
  ghost predicate CallDone(p: Proc, p': Proc, l: LockId, reply: Reply) {
    && PassOk(p')
    && LocalAt(p', l) == LocalAt(p, l).(st := if reply == OK then CL.LOCKED else CL.ACQUIRING, flag := false)
    && forall m :: m != l ==> LocalAt(p', m) == LocalAt(p, m)
  }

  /** A caller neither owns the lock nor has a claim, apart from the retry flag it consumes. */
  predicate MayCall(x: Local, y: Remote) {
    !Owns(x) && y.waits == 0 && y.retries == 0
  }

  function Called(s: State, c: ClientId, p': Proc, l: LockId): State {
    Update(s, c, p').(sv := SV.Acquired(s.sv, l, c))
  }

  function Settled(x: Local, caller: bool, reply: Reply): Local {
    if caller then x.(st := if reply == OK then CL.LOCKED else CL.ACQUIRING, flag := false) else x
  }

  lemma GrantSound(x: Local, y: Remote, caller: bool, waited: bool)
    requires Sound(x, y, false, false) && (caller ==> MayCall(x, y))
    ensures Sound(Settled(x, caller, OK), if waited && caller then y.(revokes := y.revokes + 1) else y,
                  caller, caller && waited)
  {
  }

  lemma RefuseSound(x: Local, y: Remote, holder: bool, revoked: bool, caller: bool)
    requires Sound(x, y, holder, revoked) && (caller ==> MayCall(x, y))
    ensures Sound(Settled(x, caller, RETRY),
                  Remote(if caller then y.waits + 1 else y.waits, y.retries,
                         if holder && !revoked then y.revokes + 1 else y.revokes),
                  holder, revoked || holder)
  {
  }

  lemma GrantCell(s: State, c: ClientId, p': Proc, l: LockId, c': ClientId)
    requires SentOk(s.sv) && c in s.procs && c' in s.procs && CellOk(s, c, l) && CellOk(s, c', l)
    requires SV.AcquireReply(s.sv, l) == OK && CallDone(s.procs[c], p', l, OK)
    requires MayCall(LocalAt(s.procs[c], l), RemoteAt(s.sv, c, l))
    ensures CellOk(Called(s, c, p', l), c', l)
  {
    var k, s' := SV.Look(s.sv, l), Called(s, c, p', l);
    var x, y := LocalAt(s.procs[c'], l), RemoteAt(s.sv, c', l);
    GrantRemote(s.sv, l, c, c', l);
    assert SV.Look(s'.sv, l) == SV.Grant(k, c);
    assert LocalAt(s'.procs[c'], l) == Settled(x, c' == c, OK);
    GrantSound(x, y, c' == c, k.waiting != []);
  }

  lemma RefuseCell(s: State, c: ClientId, p': Proc, l: LockId, c': ClientId)
    requires SentOk(s.sv) && c in s.procs && c' in s.procs && CellOk(s, c, l) && CellOk(s, c', l)
    requires SV.AcquireReply(s.sv, l) == RETRY && CallDone(s.procs[c], p', l, RETRY)
    requires MayCall(LocalAt(s.procs[c], l), RemoteAt(s.sv, c, l))
    ensures CellOk(Called(s, c, p', l), c', l)
  {
    var k, s' := SV.Look(s.sv, l), Called(s, c, p', l);
    var x, y := LocalAt(s.procs[c'], l), RemoteAt(s.sv, c', l);
    RefuseRemote(s.sv, l, c, c', l);
    assert SV.Look(s'.sv, l) == SV.Refuse(k, c);
    assert LocalAt(s'.procs[c'], l) == Settled(x, c' == c, RETRY);
    RefuseSound(x, y, c' == k.lockClient, SV.Revoked(k, c'), c' == c);
  }

  lemma CallElsewhere(s: State, c: ClientId, p': Proc, l: LockId, c': ClientId, m: LockId)
    requires SentOk(s.sv) && c in s.procs && c' in s.procs && m != l
    requires CallDone(s.procs[c], p', l, SV.AcquireReply(s.sv, l))
    ensures RemoteAt(SV.Acquired(s.sv, l, c), c', m) == RemoteAt(s.sv, c', m)
    ensures LocalAt(Called(s, c, p', l).procs[c'], m) == LocalAt(s.procs[c'], m)
    ensures SV.Look(SV.Acquired(s.sv, l, c), m) == SV.Look(s.sv, m)
  {
    if SV.AcquireReply(s.sv, l) == OK {
      GrantRemote(s.sv, l, c, c', m);
    } else {
      RefuseRemote(s.sv, l, c, c', m);
    }
  }

  lemma CallLock(s: State, c: ClientId, p': Proc, l: LockId)
    requires LockOk(s, l) && c in s.procs
    ensures LockOk(Called(s, c, p', l), l)
  {
    var k, k' := SV.Look(s.sv, l), SV.Look(SV.Acquired(s.sv, l, c), l);
    assert forall d :: d in k'.waiting ==> d in k.waiting || d == c;
  }

  lemma CallQueues(s: State, c: ClientId, p': Proc, l: LockId)
    requires QueueOk(s) && LockOk(s, l) && c in s.procs
    ensures QueueOk(Called(s, c, p', l))
  {
    var k := SV.Look(s.sv, l);
    forall m | m in SV.Acquired(s.sv, l, c).revokeList ensures m.client in s.procs {
      assert m in s.sv.revokeList || m == Msg(l, c) || (m == Msg(l, k.lockClient) && k.status == SV.LOCKED);
    }
  }

  lemma CallCell(s: State, c: ClientId, p': Proc, l: LockId, c': ClientId, m: LockId)
    requires Inv(s) && c in s.procs && c' in s.procs
    requires CallDone(s.procs[c], p', l, SV.AcquireReply(s.sv, l))
    requires MayCall(LocalAt(s.procs[c], l), RemoteAt(s.sv, c, l))
    ensures CellOk(Called(s, c, p', l), c', m)
  {
    assert CellOk(s, c', m) && CellOk(s, c, l);
    if m != l {
      CallElsewhere(s, c, p', l, c', m);
    } else if SV.AcquireReply(s.sv, l) == OK {
      GrantCell(s, c, p', l, c');
    } else {
      RefuseCell(s, c, p', l, c');
    }
  }

  lemma CallInv(s: State, c: ClientId, p': Proc, l: LockId)
    requires Inv(s) && c in s.procs
    requires CallDone(s.procs[c], p', l, SV.AcquireReply(s.sv, l))
    requires MayCall(LocalAt(s.procs[c], l), RemoteAt(s.sv, c, l))
    ensures Inv(Called(s, c, p', l))
  {
    var s' := Called(s, c, p', l);
    forall c', m | c' in s'.procs ensures CellOk(s', c', m) {
      CallCell(s, c, p', l, c', m);
    }
    assert LockOk(s, l);
    CallLock(s, c, p', l);
    CallQueues(s, c, p', l);
    forall m | m != l ensures LockOk(s', m) {
      assert LockOk(s, m);
      forall d | d in s.procs && HasRetry(s, d, m) ensures HasRetry(s', d, m) {
        CallElsewhere(s, c, p', l, d, m);
      }
      LockFrame(s, s', m);
    }
  }

  lemma AcquireNoneInv(s: State, c: ClientId, t: ThreadId, l: LockId)
    requires Inv(s) && Ready(s, c) && CL.St(s.procs[c].lc, l) == CL.NONE
    ensures Inv(AcquireNoneS(s, c, t, l))
  {
    var p := s.procs[c];
    var reply := SV.AcquireReply(s.sv, l);
    var p' := Settle(p.(lc := CL.Answered(p.lc, l, reply)), t, l, reply);
    assert CellOk(s, c, l);
    CallInv(s, c, p', l);
  }

  lemma AcquireRetryInv(s: State, c: ClientId, t: ThreadId, l: LockId)
    requires Inv(s) && Ready(s, c) && CL.RetryFlag(s.procs[c].lc, l)
    ensures Inv(AcquireRetryS(s, c, t, l))
  {
    var p := s.procs[c];
    var reply := SV.AcquireReply(s.sv, l);
    var p' := Settle(p.(lc := CL.RetryAnswered(p.lc, l, reply)), t, l, reply);
    assert CellOk(s, c, l);
    CallInv(s, c, p', l);
  }

  // ----- the sender threads -----

  lemma DeliverRevokeRemote(sv: SV.Server, c: ClientId, l: LockId)
    requires sv.revokeList != [] && !sv.revokeSent
    ensures var y, hit := RemoteAt(sv, c, l), sv.revokeList[0] == Msg(l, c);
            (if hit then y.revokes > 0 && RemoteAt(sv.(revokeSent := true), c, l) == y.(revokes := y.revokes - 1)
             else RemoteAt(sv.(revokeSent := true), c, l) == y)
            && SV.Look(sv.(revokeSent := true), l) == SV.Look(sv, l)
  {
    CountTail(sv.revokeList, Msg(l, c));
  }

  lemma DeliverRetryRemote(sv: SV.Server, c: ClientId, l: LockId)
    requires sv.retryList != [] && !sv.retrySent
    ensures var y, hit := RemoteAt(sv, c, l), sv.retryList[0] == Msg(l, c);
            (if hit then y.retries > 0 && RemoteAt(sv.(retrySent := true), c, l) == y.(retries := y.retries - 1)
             else RemoteAt(sv.(retrySent := true), c, l) == y)
            && SV.Look(sv.(retrySent := true), l) == SV.Look(sv, l)
  {
    CountTail(sv.retryList, Msg(l, c));
  }

  /** The handler adds one list entry and turns a FREE lock into a RELEASING one. */
  lemma RevokeLocal(p: Proc, l: LockId, m: LockId)
    ensures var x := LocalAt(p, m);
            LocalAt(p.(lc := CL.RevokeHandled(p.lc, l)), m)
            == if m == l then x.(listed := x.listed + 1, st := if x.st == CL.FREE then CL.RELEASING else x.st) else x
  {
  }

  lemma DeliverRevokeCell(s: State, c: ClientId, l: LockId)
    requires s.sv.revokeList != [] && !s.sv.revokeSent && Ready(s, s.sv.revokeList[0].client)
    requires c in s.procs && CellOk(s, c, l)
    ensures CellOk(DeliverRevokeS(s), c, l)
  {
    var n := s.sv.revokeList[0];
    DeliverRevokeRemote(s.sv, c, l);
    RevokeLocal(s.procs[n.client], n.lid, l);
  }

  lemma DeliverRevokeInv(s: State)
    requires Inv(s) && s.sv.revokeList != [] && !s.sv.revokeSent && Ready(s, s.sv.revokeList[0].client)
    ensures Inv(DeliverRevokeS(s))
  {
    var s' := DeliverRevokeS(s);
    var n := s.sv.revokeList[0];
    forall c, l | c in s'.procs ensures CellOk(s', c, l) {
      assert CellOk(s, c, l);
      DeliverRevokeCell(s, c, l);
    }
    forall l ensures LockOk(s', l) {
      assert LockOk(s, l);
      forall d | d in s.procs && HasRetry(s, d, l) ensures HasRetry(s', d, l) {
        DeliverRevokeRemote(s.sv, d, l);
        RevokeLocal(s.procs[n.client], n.lid, l);
      }
      LockFrame(s, s', l);
    }
  }

  lemma RetryLocal(p: Proc, l: LockId, m: LockId)
    ensures var x := LocalAt(p, m);
            LocalAt(p.(lc := CL.RetryHandled(p.lc, l)), m) == if m == l then x.(flag := true) else x
  {
  }

  lemma DeliverRetryCell(s: State, c: ClientId, l: LockId)
    requires s.sv.retryList != [] && !s.sv.retrySent && Ready(s, s.sv.retryList[0].client)
    requires c in s.procs && CellOk(s, c, l)
    ensures CellOk(DeliverRetryS(s), c, l)
    ensures HasRetry(s, c, l) ==> HasRetry(DeliverRetryS(s), c, l)
  {
    var n := s.sv.retryList[0];
    DeliverRetryRemote(s.sv, c, l);
    RetryLocal(s.procs[n.client], n.lid, l);
  }

  lemma DeliverRetryInv(s: State)
    requires Inv(s) && s.sv.retryList != [] && !s.sv.retrySent && Ready(s, s.sv.retryList[0].client)
    ensures Inv(DeliverRetryS(s))
  {
    var s' := DeliverRetryS(s);
    forall c, l | c in s'.procs
      ensures CellOk(s', c, l) && (HasRetry(s, c, l) ==> HasRetry(s', c, l))
    {
      assert CellOk(s, c, l);
      DeliverRetryCell(s, c, l);
    }
    forall l ensures LockOk(s', l) {
      assert LockOk(s, l);
      LockFrame(s, s', l);
    }
  }

  /** Popping a delivered entry changes no count. */
  lemma PopInv(s: State, s': State)
    requires Inv(s) && s'.procs == s.procs
    requires (s.sv.revokeList != [] && s.sv.revokeSent && s' == PopRevokeS(s))
          || (s.sv.retryList != [] && s.sv.retrySent && s' == PopRetryS(s))
    ensures Inv(s')
  {
    forall c, l | c in s'.procs
      ensures CellOk(s', c, l) && (HasRetry(s, c, l) ==> HasRetry(s', c, l))
    {
      assert CellOk(s, c, l);
      assert RemoteAt(s'.sv, c, l) == RemoteAt(s.sv, c, l);
    }
    forall l ensures LockOk(s', l) {
      assert LockOk(s, l);
      LockFrame(s, s', l);
    }
  }

  // ----- the locked half of release -----

  lemma PassLocal(p: Proc, l: LockId, m: LockId)
    requires p.busy.Tested? && p.busy.lid == l && LocalAt(p, l).listed == 1
    ensures var x := LocalAt(p, m);
            LocalAt(p.(lc := CL.PassDone(p.lc, l), busy := Quiet), m)
            == if m == l then x.(listed := 0, releasing := false) else x
  {
    CL.RemoveFirstCount(p.lc.revokeList, l);
  }

  /** Every other lock of every client is left alone. */
  lemma CommitElsewhere(s: State, c: ClientId, c': ClientId, m: LockId)
    requires SentOk(s.sv) && c in s.procs && c' in s.procs
    requires s.procs[c].busy.Tested? && PassOk(s.procs[c]) && SV.Look(s.sv, s.procs[c].busy.lid).waiting != []
    requires CellOk(s, c, s.procs[c].busy.lid) && CellOk(s, c', m)
    requires m != s.procs[c].busy.lid
    ensures CellOk(CommitS(s, c), c', m)
    ensures HasRetry(s, c', m) ==> HasRetry(CommitS(s, c), c', m)
  {
    var l := s.procs[c].busy.lid;
    CommitRemote(s.sv, l, c, c', m);
    PassLocal(s.procs[c], l, m);
  }

  /** The lock that is given back. */
  lemma CommitHere(s: State, c: ClientId, c': ClientId, m: LockId)
    requires SentOk(s.sv) && c in s.procs && c' in s.procs
    requires s.procs[c].busy.Tested? && PassOk(s.procs[c]) && SV.Look(s.sv, s.procs[c].busy.lid).waiting != []
    requires CellOk(s, c, s.procs[c].busy.lid) && CellOk(s, c', m)
    requires m == s.procs[c].busy.lid
    ensures CellOk(CommitS(s, c), c', m)
  {
    CommitRemote(s.sv, m, c, c', m);
    PassLocal(s.procs[c], m, m);
  }

  lemma CommitCell(s: State, c: ClientId, c': ClientId, m: LockId)
    requires SentOk(s.sv) && c in s.procs && c' in s.procs
    requires s.procs[c].busy.Tested? && PassOk(s.procs[c]) && SV.Look(s.sv, s.procs[c].busy.lid).waiting != []
    requires CellOk(s, c, s.procs[c].busy.lid) && CellOk(s, c', m)
    ensures CellOk(CommitS(s, c), c', m)
    ensures m != s.procs[c].busy.lid && HasRetry(s, c', m) ==> HasRetry(CommitS(s, c), c', m)
  {
    if m == s.procs[c].busy.lid {
      CommitHere(s, c, c', m);
    } else {
      CommitElsewhere(s, c, c', m);
    }
  }

  lemma CommitLock(s: State, c: ClientId)
    requires Inv(s) && c in s.procs && s.procs[c].busy.Tested?
    ensures SV.Look(s.sv, s.procs[c].busy.lid).waiting != []
    ensures LockOk(CommitS(s, c), s.procs[c].busy.lid)
    ensures QueueOk(CommitS(s, c))
  {
    var l := s.procs[c].busy.lid;
    assert CellOk(s, c, l) && LockOk(s, l) && PassOk(s.procs[c]);
    var s' := CommitS(s, c);
    var first := SV.Look(s.sv, l).waiting[0];
    assert first in s.procs;
    CommitRemote(s.sv, l, c, first, l);
    assert HasRetry(s', first, l);
  }

  lemma CommitInv(s: State, c: ClientId)
    requires Inv(s) && c in s.procs && s.procs[c].busy.Tested?
    ensures Inv(CommitS(s, c))
  {
    var s' := CommitS(s, c);
    var l := s.procs[c].busy.lid;
    assert CellOk(s, c, l) && PassOk(s.procs[c]);
    CommitLock(s, c);
    forall c', m | c' in s'.procs
      ensures CellOk(s', c', m) && (m != l && HasRetry(s, c', m) ==> HasRetry(s', c', m))
    {
      assert CellOk(s, c', m);
      CommitCell(s, c, c', m);
    }
    forall m | m != l ensures LockOk(s', m) {
      assert LockOk(s, m);
      LockFrame(s, s', m);
    }
  }

  // ----- every run -----

  /** Steps on cached data touch neither locks nor tokens. */
  lemma DataInv(s: State, c: ClientId, p': Proc, files: ES.Files)
    requires Inv(s) && c in s.procs && p'.lc == s.procs[c].lc
    requires p'.busy == s.procs[c].busy || (s.procs[c].busy.ToFlush? && p'.busy == ToRelease(s.procs[c].busy.lid))
    ensures Inv(Update(s, c, p').(files := files))
  {
    forall m ensures Keeps(LocalAt(s.procs[c], m), LocalAt(p', m)) {
      assert CellOk(s, c, m);
      assert LocalAt(p', m) == LocalAt(s.procs[c], m);
    }
    LocalStep(s, c, p');
    FilesInv(Update(s, c, p'), files);
  }

  lemma FilesInv(s: State, files: ES.Files)
    requires Inv(s)
    ensures Inv(s.(files := files))
  {
    var s' := s.(files := files);
    forall c, l | c in s'.procs
      ensures CellOk(s', c, l) && (HasRetry(s, c, l) ==> HasRetry(s', c, l))
    {
      assert CellOk(s, c, l);
    }
    forall l ensures LockOk(s', l) {
      assert LockOk(s, l);
      LockFrame(s, s', l);
    }
  }
}
