/**
 * The caches agree with one shared store: every run of the caching system shows its threads
 * exactly what the plain lock server and the extent server, used without any cache, would.
 */
module Coherence {
  import opened LockTypes
  import opened Protocol
  import opened LockInvariant
  import opened Threads
  import SV = ServerCache
  import CL = ClientCache
  import ES = ExtentStore
  import EC = ExtentCache

  /** The client may cache the extent: it owns the lock and has not flushed it yet. */
  predicate MayCache(p: Proc, e: ExtentId) {
    CL.St(p.lc, e) in {CL.FREE, CL.LOCKED, CL.RELEASING} || p.busy == ToFlush(e)
  }

  /** A cached extent carries its size, and equals the server's copy unless it is dirty. */
  predicate EntryOk(p: Proc, files: ES.Files, e: ExtentId) {
    e in p.ec ==>
      && MayCache(p, e)
      && p.ec[e].size == |p.ec[e].content|
      && (!p.ec[e].dirty ==> ES.Get(files, e) == Some(p.ec[e].content))
  }

  /** A thread in the middle of a get still holds the lock and has what the server stores. */
  predicate FetchOk(p: Proc, files: ES.Files, t: ThreadId) {
    match PcOf(p, t)
    case GotContent(e, buf) => (t, e) in p.held && e !in p.ec && ES.Get(files, e) == Some(buf)
    case GotAttr(e, buf, size) => (t, e) in p.held && e !in p.ec && ES.Get(files, e) == Some(buf) && size == |buf|
    case _ => true
  }

  ghost predicate ProcOk(p: Proc, files: ES.Files) {
    && ThreadsOk(p)
    && (forall e :: EntryOk(p, files, e))
    && (forall t :: FetchOk(p, files, t))
  }

  predicate FilesOk(files: ES.Files) {
    forall e :: e in files ==> files[e].size == |files[e].content|
  }

  ghost predicate Good(s: State) {
    && Inv(s)
    && FilesOk(s.files)
    && forall c :: c in s.procs ==> ProcOk(s.procs[c], s.files)
  }

  // ----- at most one client owns a lock or caches its extent -----

  lemma OneOwner(s: State, c: ClientId, d: ClientId, l: LockId)
    requires Inv(s) && c in s.procs && d in s.procs
    requires Owns(LocalAt(s.procs[c], l)) && Owns(LocalAt(s.procs[d], l))
    ensures c == d
  {
    assert CellOk(s, c, l) && CellOk(s, d, l);
  }

  /** While `c` owns the lock nobody else caches the extent or is fetching it. */
  lemma NobodyElse(s: State, c: ClientId, d: ClientId, e: ExtentId)
    requires Good(s) && c in s.procs && d in s.procs && d != c
    requires Owns(LocalAt(s.procs[c], e))
    ensures e !in s.procs[d].ec
    ensures forall t :: (t, e) !in s.procs[d].held
  {
    assert ProcOk(s.procs[d], s.files);
    assert EntryOk(s.procs[d], s.files, e);
    if Owns(LocalAt(s.procs[d], e)) {
      OneOwner(s, c, d, e);
    }
  }

  // ----- preservation -----

  /** One client changes; `files` may change only at an extent that no other client touches. */
  lemma ProcStep(s: State, c: ClientId, p': Proc, sv': SV.Server, files': ES.Files, own: Option<ExtentId>)
    requires Good(s) && c in s.procs && ProcOk(p', files') && FilesOk(files')
    requires forall e: ExtentId :: own != Some(e) ==> ES.Get(files', e) == ES.Get(s.files, e)
    requires own.Some? ==> Owns(LocalAt(s.procs[c], own.value))
    requires Inv(State(sv', files', s.procs[c := p']))
    ensures Good(State(sv', files', s.procs[c := p']))
  {
    forall d | d in s.procs && d != c ensures ProcOk(s.procs[d], files') {
      var q := s.procs[d];
      assert ProcOk(q, s.files);
      if own.Some? {
        NobodyElse(s, c, d, own.value);
      }
      forall e ensures EntryOk(q, files', e) {
        assert EntryOk(q, s.files, e);
      }
      forall t ensures FetchOk(q, files', t) {
        assert FetchOk(q, s.files, t);
      }
    }
  }

  /** The lock half of client `c` changes, its cache does not. */
  lemma LockStep(s: State, c: ClientId, p': Proc, sv': SV.Server)
    requires Good(s) && c in s.procs && ThreadsOk(p') && p'.ec == s.procs[c].ec
    requires Inv(State(sv', s.files, s.procs[c := p']))
    requires forall e :: MayCache(s.procs[c], e) ==> MayCache(p', e)
    requires forall t :: PcOf(p', t).GotContent? || PcOf(p', t).GotAttr? ==> PcOf(p', t) == PcOf(s.procs[c], t)
    requires forall t, e :: (t, e) in s.procs[c].held && PcOf(s.procs[c], t) != Outside ==> (t, e) in p'.held
    ensures Good(State(sv', s.files, s.procs[c := p']))
  {
    var p := s.procs[c];
    assert ProcOk(p, s.files);
    forall e ensures EntryOk(p', s.files, e) {
      assert EntryOk(p, s.files, e);
    }
    forall t ensures FetchOk(p', s.files, t) {
      assert FetchOk(p, s.files, t);
    }
    ProcStep(s, c, p', sv', s.files, None);
  }

  lemma EnterGood(s: State, c: ClientId, t: ThreadId, l: LockId)
    requires Good(s) && Ready(s, c) && PcOf(s.procs[c], t) == Outside
    ensures Good(EnterS(s, c, t, l))
  {
    EnterInv(s, c, t, l);
    var p := s.procs[c];
    var p' := EnterS(s, c, t, l).procs[c];
    assert ProcOk(p, s.files);
    forall u, m ensures Seeks(p', u, m) <==> Seeks(p, u, m) {
    }
    StillOk(p, p');
    LockStep(s, c, p', s.sv);
  }

  lemma CallThreads(p: Proc, p': Proc, t: ThreadId, l: LockId, reply: Reply)
    requires ThreadsOk(p) && CL.St(p.lc, l) in {CL.NONE, CL.FREE, CL.ACQUIRING}
    requires PcOf(p, t) == InRetry(l) || (CL.St(p.lc, l) != CL.ACQUIRING && PcOf(p, t) == InAcquire(l))
    requires p'.lc.lockMap == p.lc.lockMap[l := if reply == OK then CL.LOCKED else CL.ACQUIRING]
    requires p'.held == (if reply == OK then p.held + {(t, l)} else p.held)
    requires p'.pc == p.pc[t := if reply == OK then Outside else InRetry(l)]
    ensures ThreadsOk(p')
  {
    if reply == OK {
      GrantedOk(p, p', t, l);
    } else {
      RefusedOk(p, p', t, l);
    }
  }

  /** An answered acquire call, whichever of the three places in the code made it. */
  lemma CallGood(s: State, c: ClientId, t: ThreadId, l: LockId, p': Proc, sv': SV.Server, reply: Reply)
    requires Good(s) && c in s.procs
    requires CL.St(s.procs[c].lc, l) in {CL.NONE, CL.FREE, CL.ACQUIRING}
    requires CL.St(s.procs[c].lc, l) == CL.FREE ==> reply == OK
    requires PcOf(s.procs[c], t) == InRetry(l)
          || (CL.St(s.procs[c].lc, l) != CL.ACQUIRING && PcOf(s.procs[c], t) == InAcquire(l))
    requires p'.ec == s.procs[c].ec && p'.busy == s.procs[c].busy
    requires p'.lc.lockMap == s.procs[c].lc.lockMap[l := if reply == OK then CL.LOCKED else CL.ACQUIRING]
    requires p'.held == (if reply == OK then s.procs[c].held + {(t, l)} else s.procs[c].held)
    requires p'.pc == s.procs[c].pc[t := if reply == OK then Outside else InRetry(l)]
    requires Inv(State(sv', s.files, s.procs[c := p']))
    ensures Good(State(sv', s.files, s.procs[c := p']))
  {
    assert ProcOk(s.procs[c], s.files);
    CallThreads(s.procs[c], p', t, l, reply);
    LockStep(s, c, p', sv');
  }

  lemma AcquireNoneGood(s: State, c: ClientId, t: ThreadId, l: LockId)
    requires Good(s) && Enabled(s, AcquireNone(c, t, l))
    ensures Good(AcquireNoneS(s, c, t, l))
  {
    AcquireNoneInv(s, c, t, l);
    var s' := AcquireNoneS(s, c, t, l);
    CallGood(s, c, t, l, s'.procs[c], s'.sv, SV.AcquireReply(s.sv, l));
  }

  lemma AcquireRetryGood(s: State, c: ClientId, t: ThreadId, l: LockId)
    requires Good(s) && Enabled(s, AcquireRetry(c, t, l))
    ensures Good(AcquireRetryS(s, c, t, l))
  {
    AcquireRetryInv(s, c, t, l);
    var s' := AcquireRetryS(s, c, t, l);
    assert ProcOk(s.procs[c], s.files);
    assert Seeks(s.procs[c], t, l);
    CallGood(s, c, t, l, s'.procs[c], s'.sv, SV.AcquireReply(s.sv, l));
  }

  lemma AcquireFreeGood(s: State, c: ClientId, t: ThreadId, l: LockId)
    requires Good(s) && Enabled(s, AcquireFree(c, t, l))
    ensures Good(AcquireFreeS(s, c, t, l))
  {
    FreeInv(s, c, t, l);
    CallGood(s, c, t, l, AcquireFreeS(s, c, t, l).procs[c], s.sv, OK);
  }

  lemma ReleaseGood(s: State, c: ClientId, t: ThreadId, l: LockId)
    requires Good(s) && Enabled(s, Release(c, t, l))
    ensures Good(ReleaseS(s, c, t, l))
  {
    var p := s.procs[c];
    assert ProcOk(p, s.files);
    ReleaseInv(s, c, t, l);
    ReleasedOk(p, t, l);
    LockStep(s, c, ReleaseS(s, c, t, l).procs[c], s.sv);
  }

  lemma SameThreads(p: Proc, p': Proc)
    requires ThreadsOk(p) && p'.held == p.held && p'.pc == p.pc
    requires forall l :: CL.St(p'.lc, l) == CL.LOCKED <==> CL.St(p.lc, l) == CL.LOCKED
    requires forall l :: CL.St(p'.lc, l) == CL.ACQUIRING <==> CL.St(p.lc, l) == CL.ACQUIRING
    ensures ThreadsOk(p')
  {
    forall u, m ensures Seeks(p', u, m) <==> Seeks(p, u, m) {
    }
    StillOk(p, p');
  }

  lemma DeliverRevokeGood(s: State)
    requires Good(s) && Enabled(s, DeliverRevoke)
    ensures Good(DeliverRevokeS(s))
  {
    DeliverRevokeInv(s);
    var s' := DeliverRevokeS(s);
    var c := s.sv.revokeList[0].client;
    assert ProcOk(s.procs[c], s.files);
    SameThreads(s.procs[c], s'.procs[c]);
    LockStep(s, c, s'.procs[c], s'.sv);
  }

  lemma DeliverRetryGood(s: State)
    requires Good(s) && Enabled(s, DeliverRetry)
    ensures Good(DeliverRetryS(s))
  {
    DeliverRetryInv(s);
    var s' := DeliverRetryS(s);
    var c := s.sv.retryList[0].client;
    assert ProcOk(s.procs[c], s.files);
    SameThreads(s.procs[c], s'.procs[c]);
    LockStep(s, c, s'.procs[c], s'.sv);
  }

  lemma PopGood(s: State, a: Step)
    requires Good(s) && Enabled(s, a) && (a == PopRevoke || a == PopRetry)
    ensures Good(Apply(s, a))
  {
    PopInv(s, Apply(s, a));
  }

  lemma PickGood(s: State, c: ClientId)
    requires Good(s) && Enabled(s, ReleaserPick(c))
    ensures Good(PickS(s, c))
  {
    PickInv(s, c);
    var p, p' := s.procs[c], PickS(s, c).procs[c];
    assert ProcOk(p, s.files);
    CL.FirstReleasingFound(p.lc, p.lc.revokeList);
    SameThreads(p, p');
    LockStep(s, c, p', s.sv);
  }

  lemma TestGood(s: State, c: ClientId)
    requires Good(s) && Enabled(s, ReleaserTest(c))
    ensures Good(TestS(s, c))
  {
    TestInv(s, c);
    var p, p' := s.procs[c], TestS(s, c).procs[c];
    assert ProcOk(p, s.files);
    SameThreads(p, p');
    LockStep(s, c, p', s.sv);
  }

  lemma CommitGood(s: State, c: ClientId)
    requires Good(s) && Enabled(s, ReleaserCommit(c))
    ensures Good(CommitS(s, c))
  {
    CommitInv(s, c);
    var p, p' := s.procs[c], CommitS(s, c).procs[c];
    assert ProcOk(p, s.files);
    SameThreads(p, p');
    LockStep(s, c, p', CommitS(s, c).sv);
  }

  /** The flush leaves the extent uncached and the server up to date. */
  lemma FlushProc(p: Proc, p': Proc, files: ES.Files, l: LockId)
    requires ProcOk(p, files) && p.busy == ToFlush(l) && CL.St(p.lc, l) == CL.NONE
    requires p' == p.(ec := EC.FlushCache(p.ec, l), busy := ToRelease(l))
    ensures ProcOk(p', EC.FlushFiles(p.ec, l, files))
  {
    var files' := EC.FlushFiles(p.ec, l, files);
    SameThreads(p, p');
    forall e ensures EntryOk(p', files', e) {
      assert EntryOk(p, files, e);
    }
    forall t ensures FetchOk(p', files', t) {
      assert FetchOk(p, files, t);
    }
  }

  lemma FlushGood(s: State, c: ClientId)
    requires Good(s) && Enabled(s, ReleaserFlush(c))
    ensures Good(FlushS(s, c))
  {
    var s' := FlushS(s, c);
    var p, p', l := s.procs[c], s'.procs[c], s.procs[c].busy.lid;
    assert ProcOk(p, s.files) && CellOk(s, c, l);
    DataInv(s, c, p', s'.files);
    FlushProc(p, p', s.files, l);
    ProcStep(s, c, p', s.sv, s'.files, Some(l));
  }

  /** Steps of a thread inside its critical section change only its cache and its own counter. */
  lemma ThreadStepGood(s: State, c: ClientId, t: ThreadId, e: ExtentId, p': Proc)
    requires Good(s) && c in s.procs && (t, e) in s.procs[c].held
    requires p'.lc == s.procs[c].lc && p'.busy == s.procs[c].busy && p'.held == s.procs[c].held
    requires forall u :: u != t ==> PcOf(p', u) == PcOf(s.procs[c], u)
    requires !PcOf(s.procs[c], t).InRetry? && !PcOf(p', t).InRetry?
    requires forall d :: d != e ==> (d in p'.ec <==> d in s.procs[c].ec)
    requires forall d :: d != e && d in p'.ec ==> p'.ec[d] == s.procs[c].ec[d]
    requires EntryOk(p', s.files, e) && FetchOk(p', s.files, t)
    ensures Good(Update(s, c, p'))
  {
    var p := s.procs[c];
    assert ProcOk(p, s.files);
    DataInv(s, c, p', s.files);
    assert Update(s, c, p').(files := s.files) == Update(s, c, p');
    forall u, m ensures Seeks(p', u, m) <==> Seeks(p, u, m) {
    }
    StillOk(p, p');
    forall d ensures EntryOk(p', s.files, d) {
      assert EntryOk(p, s.files, d);
    }
    forall u ensures FetchOk(p', s.files, u) {
      assert FetchOk(p, s.files, u);
    }
    ProcStep(s, c, p', s.sv, s.files, None);
  }

  lemma PutGood(s: State, c: ClientId, t: ThreadId, e: ExtentId, buf: string)
    requires Good(s) && Inside(s, c, t, e)
    ensures Good(PutS(s, c, e, buf))
  {
    var p := s.procs[c];
    assert ProcOk(p, s.files) && FetchOk(p, s.files, t);
    ThreadStepGood(s, c, t, e, PutS(s, c, e, buf).procs[c]);
  }

  lemma FetchContentGood(s: State, c: ClientId, t: ThreadId, e: ExtentId)
    requires Good(s) && Enabled(s, FetchContent(c, t, e))
    ensures Good(FetchContentS(s, c, t, e))
  {
    assert ProcOk(s.procs[c], s.files);
    if e in s.files {
      ThreadStepGood(s, c, t, e, FetchContentS(s, c, t, e).procs[c]);
    }
  }

  lemma FetchAttrGood(s: State, c: ClientId, t: ThreadId)
    requires Good(s) && Enabled(s, FetchAttr(c, t))
    ensures Good(FetchAttrS(s, c, t))
  {
    var p := s.procs[c];
    assert ProcOk(p, s.files) && FetchOk(p, s.files, t) && EntryOk(p, s.files, PcOf(p, t).eid);
    ThreadStepGood(s, c, t, PcOf(p, t).eid, FetchAttrS(s, c, t).procs[c]);
  }

  lemma FetchInsertGood(s: State, c: ClientId, t: ThreadId)
    requires Good(s) && Enabled(s, FetchInsert(c, t))
    ensures Good(FetchInsertS(s, c, t))
  {
    var p := s.procs[c];
    assert ProcOk(p, s.files) && FetchOk(p, s.files, t);
    ThreadStepGood(s, c, t, PcOf(p, t).eid, FetchInsertS(s, c, t).procs[c]);
  }
}
