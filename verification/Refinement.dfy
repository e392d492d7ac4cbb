/** The main results about every run of the caching system. */
module Refinement {
  import opened LockTypes
  import opened Protocol
  import opened LockInvariant
  import opened Threads
  import opened Coherence
  import SV = ServerCache
  import CL = ClientCache
  import ES = ExtentStore
  import PL = PlainLock

  // ----- the invariant holds in every reachable state -----

  lemma StepGood(s: State, a: Step)
    requires Good(s) && Enabled(s, a)
    ensures Good(Apply(s, a))
  {
    match a
    case Enter(c, t, l) => EnterGood(s, c, t, l);
    case AcquireNone(c, t, l) => AcquireNoneGood(s, c, t, l);
    case AcquireFree(c, t, l) => AcquireFreeGood(s, c, t, l);
    case AcquireRetry(c, t, l) => AcquireRetryGood(s, c, t, l);
    case Release(c, t, l) => ReleaseGood(s, c, t, l);
    case DeliverRevoke => DeliverRevokeGood(s);
    case PopRevoke => PopGood(s, a);
    case DeliverRetry => DeliverRetryGood(s);
    case PopRetry => PopGood(s, a);
    case ReleaserPick(c) => PickGood(s, c);
    case ReleaserFlush(c) => FlushGood(s, c);
    case ReleaserTest(c) => TestGood(s, c);
    case ReleaserCommit(c) => CommitGood(s, c);
    case Put(c, t, e, buf) => PutGood(s, c, t, e, buf);
    case FetchContent(c, t, e) => FetchContentGood(s, c, t, e);
    case FetchAttr(c, t) => FetchAttrGood(s, c, t);
    case FetchInsert(c, t) => FetchInsertGood(s, c, t);
    case GetHit(c, t, e) =>
    case GetAttr(c, t, e) =>
  }

  lemma InitGood(ids: set<ClientId>)
    ensures Good(Init(ids))
  {
    var s := Init(ids);
    forall c, l | c in s.procs ensures CellOk(s, c, l) {
    }
    forall l ensures LockOk(s, l) {
    }
    forall c | c in s.procs ensures ProcOk(s.procs[c], s.files) {
      assert s.procs[c] == FreshProc;
    }
  }

  lemma {:induction false} RunGood(s: State, run: seq<Step>)
    requires Good(s) && IsRun(s, run)
    ensures Good(Exec(s, run))
    decreases |run|
  {
    if run != [] {
      StepGood(s, run[0]);
      RunGood(Apply(s, run[0]), run[1..]);
    }
  }

  // ----- the plain system: the lock table of the plain server and the extent server's files -----

  datatype Plain = Plain(locks: PL.Table, files: ES.Files)

  const PlainInit := Plain(map[], map[])

  /** The plain system can show this event to a thread. */
  predicate Allows(q: Plain, ev: Event) {
    match ev
    case Silent => true
    case DidAcquire(l) => !PL.Held(q.locks, l)
    case DidRelease(l) => PL.Held(q.locks, l)
    case DidPut(e, buf) => PL.Held(q.locks, e)
    case DidGet(e, buf) => PL.Held(q.locks, e) && ES.Get(q.files, e) == Some(buf)
    case DidMiss(e) => PL.Held(q.locks, e) && ES.Get(q.files, e) == None
    case DidGetAttr(e, size) => PL.Held(q.locks, e) && ES.GetAttr(q.files, e) == Some(size)
    case DidMissAttr(e) => PL.Held(q.locks, e) && ES.GetAttr(q.files, e) == None
  }

  function After(q: Plain, ev: Event): Plain {
    match ev
    case DidAcquire(l) => q.(locks := PL.Acquired(q.locks, l))
    case DidRelease(l) => q.(locks := PL.Released(q.locks, l))
    case DidPut(e, buf) => q.(files := ES.Put(q.files, e, buf))
    case _ => q
  }

  predicate Accepts(q: Plain, trace: seq<Event>)
    decreases |trace|
  {
    trace == [] || (Allows(q, trace[0]) && Accepts(After(q, trace[0]), trace[1..]))
  }

  // ----- how the two systems correspond -----

  ghost predicate LockedSomewhere(s: State, l: LockId) {
    exists c :: c in s.procs && CL.St(s.procs[c].lc, l) == CL.LOCKED
  }

  /** The plain file is the cached one if somebody caches it, the server's otherwise. */
  ghost predicate FileMatches(s: State, q: Plain, e: ExtentId) {
    && (forall c :: c in s.procs && e in s.procs[c].ec ==> ES.Get(q.files, e) == Some(s.procs[c].ec[e].content))
    && ((forall c :: c in s.procs ==> e !in s.procs[c].ec) ==> ES.Get(q.files, e) == ES.Get(s.files, e))
  }

  ghost predicate Matches(s: State, q: Plain) {
    && FilesOk(q.files)
    && (forall l :: PL.Held(q.locks, l) <==> LockedSomewhere(s, l))
    && (forall e :: FileMatches(s, q, e))
  }

  lemma OnlyLocked(s: State, c: ClientId, l: LockId)
    requires Good(s) && c in s.procs && Owns(LocalAt(s.procs[c], l))
    ensures forall d :: d in s.procs && d != c ==> CL.St(s.procs[d].lc, l) != CL.LOCKED && l !in s.procs[d].ec
  {
    forall d | d in s.procs && d != c
      ensures CL.St(s.procs[d].lc, l) != CL.LOCKED && l !in s.procs[d].ec
    {
      NobodyElse(s, c, d, l);
      if CL.St(s.procs[d].lc, l) == CL.LOCKED {
        OneOwner(s, c, d, l);
      }
    }
  }

  /** The client that is granted a lock finds nobody else in its critical section. */
  lemma NobodyLocked(s: State, c: ClientId, l: LockId)
    requires Good(s) && c in s.procs
    requires CL.St(s.procs[c].lc, l) == CL.FREE
          || (CL.St(s.procs[c].lc, l) != CL.LOCKED && SV.AcquireReply(s.sv, l) == OK)
    ensures !LockedSomewhere(s, l)
  {
    forall d | d in s.procs ensures CL.St(s.procs[d].lc, l) != CL.LOCKED {
      assert CellOk(s, c, l) && CellOk(s, d, l);
    }
  }

  lemma GrantMatches(s: State, s': State, q: Plain, c: ClientId, l: LockId)
    requires Matches(s, q) && c in s.procs && c in s'.procs
    requires s'.files == s.files && s'.procs == s.procs[c := s'.procs[c]] && s'.procs[c].ec == s.procs[c].ec
    requires s'.procs[c].lc.lockMap == s.procs[c].lc.lockMap[l := CL.LOCKED]
    ensures Matches(s', After(q, DidAcquire(l)))
  {
    var q' := After(q, DidAcquire(l));
    forall m ensures PL.Held(q'.locks, m) <==> LockedSomewhere(s', m) {
      if m == l {
        assert CL.St(s'.procs[c].lc, l) == CL.LOCKED;
      } else {
        assert PL.Held(q.locks, m) <==> LockedSomewhere(s, m);
        assert forall d :: d in s.procs ==> CL.St(s'.procs[d].lc, m) == CL.St(s.procs[d].lc, m);
      }
    }
    SameFiles(s, s', q, q');
  }

  lemma SameFiles(s: State, s': State, q: Plain, q': Plain)
    requires forall e :: FileMatches(s, q, e)
    requires s'.files == s.files && q'.files == q.files && s'.procs.Keys == s.procs.Keys
    requires forall d :: d in s.procs ==> s'.procs[d].ec == s.procs[d].ec
    ensures forall e :: FileMatches(s', q', e)
  {
    forall e ensures FileMatches(s', q', e) {
      assert FileMatches(s, q, e);
    }
  }

  lemma SameLocks(s: State, s': State, q: Plain, q': Plain)
    requires forall l :: PL.Held(q.locks, l) <==> LockedSomewhere(s, l)
    requires q'.locks == q.locks && s'.procs.Keys == s.procs.Keys
    requires forall d, l :: d in s.procs ==>
               (CL.St(s'.procs[d].lc, l) == CL.LOCKED <==> CL.St(s.procs[d].lc, l) == CL.LOCKED)
    ensures forall l :: PL.Held(q'.locks, l) <==> LockedSomewhere(s', l)
  {
    forall l ensures PL.Held(q'.locks, l) <==> LockedSomewhere(s', l) {
      assert PL.Held(q.locks, l) <==> LockedSomewhere(s, l);
    }
  }

  lemma LeaveMatches(s: State, s': State, q: Plain, c: ClientId, l: LockId)
    requires Matches(s, q) && c in s.procs && c in s'.procs
    requires s'.files == s.files && s'.procs == s.procs[c := s'.procs[c]] && s'.procs[c].ec == s.procs[c].ec
    requires forall m :: m != l ==> CL.St(s'.procs[c].lc, m) == CL.St(s.procs[c].lc, m)
    requires CL.St(s'.procs[c].lc, l) != CL.LOCKED
    requires forall d :: d in s.procs && d != c ==> CL.St(s.procs[d].lc, l) != CL.LOCKED
    ensures Matches(s', After(q, DidRelease(l)))
  {
    var q' := After(q, DidRelease(l));
    forall m ensures PL.Held(q'.locks, m) <==> LockedSomewhere(s', m) {
      if m != l {
        assert PL.Held(q.locks, m) <==> LockedSomewhere(s, m);
        assert forall d :: d in s.procs ==> CL.St(s'.procs[d].lc, m) == CL.St(s.procs[d].lc, m);
      }
    }
    SameFiles(s, s', q, q');
  }

  lemma ReleaseMatches(s: State, q: Plain, c: ClientId, t: ThreadId, l: LockId)
    requires Good(s) && Matches(s, q) && Enabled(s, Release(c, t, l))
    ensures PL.Held(q.locks, l)
    ensures Matches(ReleaseS(s, c, t, l), After(q, DidRelease(l)))
  {
    InsideHeld(s, q, c, t, l);
    OnlyLocked(s, c, l);
    LeaveMatches(s, ReleaseS(s, c, t, l), q, c, l);
  }

  /** A silent step of client `c` that moves no cached data and no critical section. */
  lemma QuietMatches(s: State, s': State, q: Plain, c: ClientId)
    requires Matches(s, q) && c in s.procs && c in s'.procs
    requires s'.files == s.files && s'.procs == s.procs[c := s'.procs[c]] && s'.procs[c].ec == s.procs[c].ec
    requires forall l :: CL.St(s'.procs[c].lc, l) == CL.LOCKED <==> CL.St(s.procs[c].lc, l) == CL.LOCKED
    ensures Matches(s', q)
  {
    SameFiles(s, s', q, q);
    SameLocks(s, s', q, q);
  }

  /** Nothing but the server's lock records and queues changes. */
  lemma ServerMatches(s: State, s': State, q: Plain)
    requires Matches(s, q) && s'.files == s.files && s'.procs == s.procs
    ensures Matches(s', q)
  {
    SameFiles(s, s', q, q);
    SameLocks(s, s', q, q);
  }

  /** Client `c` owns the extent: only its own cache decides what the plain file is. */
  lemma OwnerDecides(s: State, q: Plain, c: ClientId, e: ExtentId)
    requires Good(s) && c in s.procs && Owns(LocalAt(s.procs[c], e))
    requires FilesOk(q.files)
    ensures FileMatches(s, q, e) <==>
            ES.Get(q.files, e) == (if e in s.procs[c].ec then Some(s.procs[c].ec[e].content) else ES.Get(s.files, e))
  {
    OnlyLocked(s, c, e);
    if e !in s.procs[c].ec {
      assert forall d :: d in s.procs ==> e !in s.procs[d].ec;
    }
  }

  /** A step of the owner `c` that touches the data of `e` alone. */
  lemma OwnerMatches(s: State, s': State, q: Plain, q': Plain, c: ClientId, e: ExtentId)
    requires Good(s) && Good(s') && Matches(s, q) && c in s.procs
    requires c in s'.procs && s'.procs == s.procs[c := s'.procs[c]]
    requires OnlyAt(s.procs[c], s'.procs[c], e) && q'.locks == q.locks && FilesOk(q'.files)
    requires Owns(LocalAt(s.procs[c], e)) && Owns(LocalAt(s'.procs[c], e))
    requires forall d :: d != e ==>
               ES.Get(q'.files, d) == ES.Get(q.files, d) && ES.Get(s'.files, d) == ES.Get(s.files, d)
    requires ES.Get(q'.files, e)
          == (if e in s'.procs[c].ec then Some(s'.procs[c].ec[e].content) else ES.Get(s'.files, e))
    ensures Matches(s', q')
  {
    SameLocks(s, s', q, q');
    forall d ensures FileMatches(s', q', d) {
      assert FileMatches(s, q, d);
      if d == e {
        OwnerDecides(s', q', c, e);
      } else {
        OtherFile(s, s', q, q', c, e, d);
      }
    }
  }

  lemma OtherFile(s: State, s': State, q: Plain, q': Plain, c: ClientId, e: ExtentId, d: ExtentId)
    requires FileMatches(s, q, d) && d != e && c in s.procs && c in s'.procs
    requires s'.procs == s.procs[c := s'.procs[c]] && OnlyAt(s.procs[c], s'.procs[c], e)
    requires ES.Get(q'.files, d) == ES.Get(q.files, d) && ES.Get(s'.files, d) == ES.Get(s.files, d)
    ensures FileMatches(s', q', d)
  {
    if forall b :: b in s'.procs ==> d !in s'.procs[b].ec {
      forall b | b in s.procs ensures d !in s.procs[b].ec {
        assert b in s'.procs && (b != c ==> s'.procs[b] == s.procs[b]);
      }
    }
  }

  lemma PutMatches(s: State, q: Plain, c: ClientId, t: ThreadId, e: ExtentId, buf: string)
    requires Good(s) && Matches(s, q) && Inside(s, c, t, e)
    ensures PL.Held(q.locks, e)
    ensures Matches(PutS(s, c, e, buf), After(q, DidPut(e, buf)))
  {
    InsideHeld(s, q, c, t, e);
    PutGood(s, c, t, e, buf);
    PutFrame(s, c, e, buf);
    StoreFrame(q, e, buf);
    OwnerMatches(s, PutS(s, c, e, buf), q, After(q, DidPut(e, buf)), c, e);
  }

  /** Only the cached copy of `e` changes. */
  ghost predicate OnlyAt(p: Proc, p': Proc, e: ExtentId) {
    && p'.lc == p.lc
    && (forall d :: d != e ==> (d in p'.ec <==> d in p.ec))
    && (forall d :: d != e && d in p.ec ==> p'.ec[d] == p.ec[d])
  }

  lemma PutFrame(s: State, c: ClientId, e: ExtentId, buf: string)
    requires c in s.procs
    ensures var s' := PutS(s, c, e, buf);
            && s'.files == s.files && c in s'.procs && s'.procs == s.procs[c := s'.procs[c]]
            && e in s'.procs[c].ec && s'.procs[c].ec[e].content == buf
            && OnlyAt(s.procs[c], s'.procs[c], e)
  {
  }

  lemma FlushFrame(s: State, c: ClientId, e: ExtentId)
    requires c in s.procs && s.procs[c].busy == ToFlush(e)
    ensures var s' := FlushS(s, c);
            && c in s'.procs && s'.procs == s.procs[c := s'.procs[c]]
            && e !in s'.procs[c].ec && OnlyAt(s.procs[c], s'.procs[c], e)
            && (forall d :: d != e ==> ES.Get(s'.files, d) == ES.Get(s.files, d))
            && (e in s.procs[c].ec && s.procs[c].ec[e].dirty ==> ES.Get(s'.files, e) == Some(s.procs[c].ec[e].content))
            && (!(e in s.procs[c].ec && s.procs[c].ec[e].dirty) ==> s'.files == s.files)
  {
  }

  lemma InsertFrame(s: State, c: ClientId, t: ThreadId)
    requires c in s.procs && PcOf(s.procs[c], t).GotAttr?
    ensures var s' := FetchInsertS(s, c, t);
            var e := PcOf(s.procs[c], t).eid;
            && s'.files == s.files && c in s'.procs && s'.procs == s.procs[c := s'.procs[c]]
            && e in s'.procs[c].ec && s'.procs[c].ec[e].content == PcOf(s.procs[c], t).buf
            && OnlyAt(s.procs[c], s'.procs[c], e)
  {
  }

  lemma StoreFrame(q: Plain, e: ExtentId, buf: string)
    requires FilesOk(q.files)
    ensures var q' := After(q, DidPut(e, buf));
            && q'.locks == q.locks && FilesOk(q'.files) && ES.Get(q'.files, e) == Some(buf)
            && forall d :: d != e ==> ES.Get(q'.files, d) == ES.Get(q.files, d)
  {
  }

  lemma InsideHeld(s: State, q: Plain, c: ClientId, t: ThreadId, e: ExtentId)
    requires Good(s) && Matches(s, q) && c in s.procs && (t, e) in s.procs[c].held
    ensures PL.Held(q.locks, e)
    ensures CL.St(s.procs[c].lc, e) == CL.LOCKED
    ensures ES.Get(q.files, e) == (if e in s.procs[c].ec then Some(s.procs[c].ec[e].content) else ES.Get(s.files, e))
    ensures ES.GetAttr(q.files, e) == AttrOf(s, c, e)
  {
    assert ProcOk(s.procs[c], s.files);
    assert LockedSomewhere(s, e);
    assert FileMatches(s, q, e);
    OwnerDecides(s, q, c, e);
    assert EntryOk(s.procs[c], s.files, e);
  }

  lemma FlushMatches(s: State, q: Plain, c: ClientId)
    requires Good(s) && Matches(s, q) && Enabled(s, ReleaserFlush(c))
    ensures Matches(FlushS(s, c), q)
  {
    var l := s.procs[c].busy.lid;
    assert FileMatches(s, q, l);
    OwnerDecides(s, q, c, l);
    assert ProcOk(s.procs[c], s.files) && EntryOk(s.procs[c], s.files, l);
    FlushGood(s, c);
    FlushFrame(s, c, l);
    OwnerMatches(s, FlushS(s, c), q, q, c, l);
  }

  lemma InsertMatches(s: State, q: Plain, c: ClientId, t: ThreadId)
    requires Good(s) && Matches(s, q) && Enabled(s, FetchInsert(c, t))
    ensures Allows(q, EventOf(s, FetchInsert(c, t)))
    ensures Matches(FetchInsertS(s, c, t), q)
  {
    var p := s.procs[c];
    var e := PcOf(p, t).eid;
    assert ProcOk(p, s.files) && FetchOk(p, s.files, t);
    InsideHeld(s, q, c, t, e);
    FetchInsertGood(s, c, t);
    InsertFrame(s, c, t);
    OwnerMatches(s, FetchInsertS(s, c, t), q, q, c, e);
  }

  // ----- every step, every run -----

  lemma CallMatches(s: State, a: Step, q: Plain)
    requires Good(s) && Matches(s, q) && Enabled(s, a) && (a.AcquireNone? || a.AcquireRetry?)
    ensures Allows(q, EventOf(s, a)) && Matches(Apply(s, a), After(q, EventOf(s, a)))
  {
    var s' := Apply(s, a);
    assert ProcOk(s.procs[a.c], s.files) && (a.AcquireRetry? ==> Seeks(s.procs[a.c], a.t, a.l));
    if SV.AcquireReply(s.sv, a.l) == OK {
      NobodyLocked(s, a.c, a.l);
      GrantMatches(s, s', q, a.c, a.l);
    } else {
      QuietMatches(s, s', q, a.c);
    }
  }

  lemma PickMatches(s: State, q: Plain, c: ClientId)
    requires Good(s) && Matches(s, q) && Enabled(s, ReleaserPick(c))
    ensures Matches(PickS(s, c), q)
  {
    CL.FirstReleasingFound(s.procs[c].lc, s.procs[c].lc.revokeList);
    QuietMatches(s, PickS(s, c), q, c);
  }

  lemma FetchMatches(s: State, a: Step, q: Plain)
    requires Good(s) && Matches(s, q) && Enabled(s, a) && (a.FetchContent? || a.FetchAttr?)
    ensures Allows(q, EventOf(s, a)) && Matches(Apply(s, a), After(q, EventOf(s, a)))
  {
    var p := s.procs[a.c];
    assert ProcOk(p, s.files) && FetchOk(p, s.files, a.t);
    InsideHeld(s, q, a.c, a.t, if a.FetchAttr? then PcOf(p, a.t).eid else a.e);
    QuietMatches(s, Apply(s, a), q, a.c);
  }

  lemma HitMatches(s: State, a: Step, q: Plain)
    requires Good(s) && Matches(s, q) && Enabled(s, a) && (a.GetHit? || a.GetAttr?)
    ensures Allows(q, EventOf(s, a)) && Matches(Apply(s, a), After(q, EventOf(s, a)))
  {
    InsideHeld(s, q, a.c, a.t, a.e);
  }

  predicate IsData(a: Step) {
    a.Put? || a.FetchInsert? || a.FetchContent? || a.FetchAttr? || a.GetHit? || a.GetAttr?
  }

  lemma DataMatches(s: State, a: Step, q: Plain)
    requires Good(s) && Matches(s, q) && Enabled(s, a) && IsData(a)
    ensures Allows(q, EventOf(s, a)) && Matches(Apply(s, a), After(q, EventOf(s, a)))
  {
    match a
    case Put(c, t, e, buf) => PutMatches(s, q, c, t, e, buf);
    case FetchInsert(c, t) => InsertMatches(s, q, c, t);
    case FetchContent(c, t, e) => FetchMatches(s, a, q);
    case FetchAttr(c, t) => FetchMatches(s, a, q);
    case GetHit(c, t, e) => HitMatches(s, a, q);
    case GetAttr(c, t, e) => HitMatches(s, a, q);
  }

  predicate IsSilent(a: Step) {
    || a.Enter? || a.DeliverRevoke? || a.DeliverRetry? || a.PopRevoke? || a.PopRetry?
    || a.ReleaserTest? || a.ReleaserCommit?
  }

  lemma SilentMatches(s: State, a: Step, q: Plain)
    requires Matches(s, q) && Enabled(s, a) && IsSilent(a)
    ensures Allows(q, EventOf(s, a)) && Matches(Apply(s, a), After(q, EventOf(s, a)))
  {
    var s' := Apply(s, a);
    match a
    case Enter(c, t, l) => QuietMatches(s, s', q, c);
    case DeliverRevoke => QuietMatches(s, s', q, s.sv.revokeList[0].client);
    case DeliverRetry => QuietMatches(s, s', q, s.sv.retryList[0].client);
    case ReleaserTest(c) => QuietMatches(s, s', q, c);
    case ReleaserCommit(c) => QuietMatches(s, s', q, c);
    case PopRevoke => ServerMatches(s, s', q);
    case PopRetry => ServerMatches(s, s', q);
  }

  /** The steps that move a lock or write an extent back. */
  lemma LockMatches(s: State, a: Step, q: Plain)
    requires Good(s) && Matches(s, q) && Enabled(s, a) && !IsSilent(a) && !IsData(a)
    ensures Allows(q, EventOf(s, a)) && Matches(Apply(s, a), After(q, EventOf(s, a)))
  {
    match a
    case AcquireNone(c, t, l) => CallMatches(s, a, q);
    case AcquireRetry(c, t, l) => CallMatches(s, a, q);
    case AcquireFree(c, t, l) =>
      NobodyLocked(s, c, l);
      GrantMatches(s, Apply(s, a), q, c, l);
    case Release(c, t, l) => ReleaseMatches(s, q, c, t, l);
    case ReleaserPick(c) => PickMatches(s, q, c);
    case ReleaserFlush(c) => FlushMatches(s, q, c);
  }

  /** One step of the caching system is one step of the plain system, or none. */
  lemma StepMatches(s: State, a: Step, q: Plain)
    requires Good(s) && Matches(s, q) && Enabled(s, a)
    ensures Allows(q, EventOf(s, a)) && Matches(Apply(s, a), After(q, EventOf(s, a)))
  {
    if IsSilent(a) {
      SilentMatches(s, a, q);
    } else if IsData(a) {
      DataMatches(s, a, q);
    } else {
      LockMatches(s, a, q);
    }
  }

  lemma {:induction false} RunMatches(s: State, run: seq<Step>, q: Plain)
    requires Good(s) && Matches(s, q) && IsRun(s, run)
    ensures Accepts(q, Trace(s, run))
    decreases |run|
  {
    if run != [] {
      var a := run[0];
      StepGood(s, a);
      StepMatches(s, a, q);
      RunMatches(Apply(s, a), run[1..], After(q, EventOf(s, a)));
      var trace := Trace(s, run);
      assert trace[0] == EventOf(s, a) && trace[1..] == Trace(Apply(s, a), run[1..]);
    }
  }

  // ----- main results -----

  /** Whatever the clients do, their threads see a history of the plain lock server and one store. */
  lemma CachingRefinesPlain(ids: set<ClientId>, run: seq<Step>)
    requires IsRun(Init(ids), run)
    ensures Accepts(PlainInit, Trace(Init(ids), run))
  {
    var s := Init(ids);
    InitGood(ids);
    forall c | c in s.procs ensures s.procs[c] == FreshProc {
    }
    RunMatches(s, run, PlainInit);
  }

  /** The last value put to `e` in a history. */
  function LastPut(trace: seq<Event>, e: ExtentId): Option<string>
    decreases |trace|
  {
    if trace == [] then None
    else match trace[|trace| - 1]
         case DidPut(d, buf) => if d == e then Some(buf) else LastPut(trace[..|trace| - 1], e)
         case _ => LastPut(trace[..|trace| - 1], e)
  }

  function AfterAll(q: Plain, trace: seq<Event>): Plain
    decreases |trace|
  {
    if trace == [] then q else After(AfterAll(q, trace[..|trace| - 1]), trace[|trace| - 1])
  }

  lemma {:induction false} AfterAllFront(q: Plain, ev: Event, rest: seq<Event>)
    ensures AfterAll(q, [ev] + rest) == AfterAll(After(q, ev), rest)
    decreases |rest|
  {
    var all := [ev] + rest;
    if rest == [] {
      assert all[..|all| - 1] == [];
    } else {
      assert all[..|all| - 1] == [ev] + rest[..|rest| - 1];
      AfterAllFront(q, ev, rest[..|rest| - 1]);
    }
  }

  lemma {:induction false} AcceptedAt(q: Plain, trace: seq<Event>, i: nat)
    requires Accepts(q, trace) && i < |trace|
    ensures Allows(AfterAll(q, trace[..i]), trace[i])
    decreases |trace|
  {
    if i > 0 {
      AcceptedAt(After(q, trace[0]), trace[1..], i - 1);
      assert trace[..i] == [trace[0]] + trace[1..][..i - 1];
      AfterAllFront(q, trace[0], trace[1..][..i - 1]);
    }
  }

  lemma {:induction false} StoreIsLastPut(trace: seq<Event>, e: ExtentId)
    ensures ES.Get(AfterAll(PlainInit, trace).files, e) == LastPut(trace, e)
    ensures FilesOk(AfterAll(PlainInit, trace).files)
    decreases |trace|
  {
    if trace != [] {
      StoreIsLastPut(trace[..|trace| - 1], e);
    }
  }

  /** A get returns the latest put of any client, and getattr its length; a miss means no put yet. */
  lemma ReadsLatestPut(ids: set<ClientId>, run: seq<Step>, i: nat)
    requires IsRun(Init(ids), run) && i < |Trace(Init(ids), run)|
    ensures var trace := Trace(Init(ids), run);
            match trace[i]
            case DidGet(e, buf) => LastPut(trace[..i], e) == Some(buf)
            case DidMiss(e) => LastPut(trace[..i], e) == None
            case DidGetAttr(e, size) => LastPut(trace[..i], e).Some? && size == |LastPut(trace[..i], e).value|
            case DidMissAttr(e) => LastPut(trace[..i], e) == None
            case _ => true
  {
    var trace := Trace(Init(ids), run);
    CachingRefinesPlain(ids, run);
    AcceptedAt(PlainInit, trace, i);
    match trace[i]
    case DidGet(e, buf) => StoreIsLastPut(trace[..i], e);
    case DidMiss(e) => StoreIsLastPut(trace[..i], e);
    case DidGetAttr(e, size) => StoreIsLastPut(trace[..i], e);
    case DidMissAttr(e) => StoreIsLastPut(trace[..i], e);
    case _ =>
  }

  ghost predicate Reachable(s: State) {
    exists ids, run :: IsRun(Init(ids), run) && s == Exec(Init(ids), run)
  }

  lemma ReachableGood(s: State)
    requires Reachable(s)
    ensures Good(s)
  {
    var ids, run :| IsRun(Init(ids), run) && s == Exec(Init(ids), run);
    InitGood(ids);
    RunGood(Init(ids), run);
  }

  /** Over all clients and threads, at most one is between acquire and release of a lock. */
  lemma MutualExclusion(s: State, c: ClientId, t: ThreadId, d: ClientId, u: ThreadId, l: LockId)
    requires Reachable(s) && c in s.procs && d in s.procs
    requires (t, l) in s.procs[c].held && (u, l) in s.procs[d].held
    ensures c == d && t == u
  {
    ReachableGood(s);
    assert ProcOk(s.procs[c], s.files) && ProcOk(s.procs[d], s.files);
    OneOwner(s, c, d, l);
  }

  /** A client is in FREE, LOCKED or RELEASING, or is giving the lock back, exactly if it is the recorded holder. */
  lemma HolderAgrees(s: State, c: ClientId, l: LockId)
    requires Reachable(s) && c in s.procs
    ensures (CL.St(s.procs[c].lc, l) in {CL.FREE, CL.LOCKED, CL.RELEASING}
             || (s.procs[c].busy != Quiet && s.procs[c].busy.lid == l))
        <==> SV.Look(s.sv, l).status == SV.LOCKED && SV.Look(s.sv, l).lockClient == c
  {
    ReachableGood(s);
    assert CellOk(s, c, l);
  }

  /** At most one client caches an extent, and it is the recorded holder of the lock. */
  lemma OneCacher(s: State, c: ClientId, e: ExtentId)
    requires Reachable(s) && c in s.procs && e in s.procs[c].ec
    ensures SV.Look(s.sv, e).status == SV.LOCKED && SV.Look(s.sv, e).lockClient == c
    ensures forall d :: d in s.procs && d != c ==> e !in s.procs[d].ec
  {
    ReachableGood(s);
    assert ProcOk(s.procs[c], s.files) && EntryOk(s.procs[c], s.files, e) && CellOk(s, c, e);
    OnlyLocked(s, c, e);
  }

  // ----- only what was put is written back -----

  predicate PutsNot(run: seq<Step>, c: ClientId, e: ExtentId) {
    forall i :: 0 <= i < |run| ==> !(run[i].Put? && run[i].c == c && run[i].e == e)
  }

  predicate CleanAt(s: State, c: ClientId, e: ExtentId) {
    c in s.procs ==> e in s.procs[c].ec ==> !s.procs[c].ec[e].dirty
  }

  lemma StepClean(s: State, a: Step, c: ClientId, e: ExtentId)
    requires Enabled(s, a) && CleanAt(s, c, e) && !(a.Put? && a.c == c && a.e == e)
    ensures CleanAt(Apply(s, a), c, e)
  {
  }

  lemma {:induction false} RunClean(s: State, run: seq<Step>, c: ClientId, e: ExtentId)
    requires IsRun(s, run) && CleanAt(s, c, e) && PutsNot(run, c, e)
    ensures CleanAt(Exec(s, run), c, e)
    decreases |run|
  {
    if run != [] {
      StepClean(s, run[0], c, e);
      RunClean(Apply(s, run[0]), run[1..], c, e);
    }
  }

  /** In every run, a client that never put an extent writes nothing back when it gives up the lock. */
  lemma NoPutNoWrite(ids: set<ClientId>, run: seq<Step>, c: ClientId, e: ExtentId)
    requires IsRun(Init(ids), run) && PutsNot(run, c, e)
    requires c in Exec(Init(ids), run).procs && Exec(Init(ids), run).procs[c].busy == ToFlush(e)
    ensures FlushS(Exec(Init(ids), run), c).files == Exec(Init(ids), run).files
  {
    RunClean(Init(ids), run, c, e);
  }
}
