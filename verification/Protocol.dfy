/**
 * The whole system as a step relation: one lock server, one extent server, any number of
 * clients and threads. A step is one mutex region or one RPC handler. A client keeps its lock
 * mutex during a releaser pass, so while `busy` is set its other lock steps are disabled.
 */
module Protocol {
  import opened LockTypes
  import SV = ServerCache
  import CL = ClientCache
  import ES = ExtentStore
  import EC = ExtentCache

  type ExtentId = ES.ExtentId

  /** Where a releaser pass is: before the flush, before the release RPC, between its two halves. */
  datatype Busy = Quiet | ToFlush(lid: LockId) | ToRelease(lid: LockId) | Tested(lid: LockId, test: SV.Test)

  /** Where a thread is: outside, in the acquire loop, in its retry loop, or in the middle of a get. */
  datatype Pc =
    | Outside
    | InAcquire(lid: LockId)
    | InRetry(lid: LockId)
    | GotContent(eid: ExtentId, buf: string)
    | GotAttr(eid: ExtentId, buf: string, size: nat)

  /** A client process; `held` lists the threads that are between acquire and release. */
  datatype Proc = Proc(
    lc: CL.Client,
    ec: EC.Cache,
    busy: Busy,
    pc: map<ThreadId, Pc>,
    held: set<(ThreadId, LockId)>)

  datatype State = State(sv: SV.Server, files: ES.Files, procs: map<ClientId, Proc>)

  const FreshProc := Proc(CL.Fresh, map[], Quiet, map[], {})

  function Init(ids: set<ClientId>): State {
    State(SV.Fresh, map[], map c | c in ids :: FreshProc)
  }

  datatype Step =
    | Enter(c: ClientId, t: ThreadId, l: LockId)
    | AcquireNone(c: ClientId, t: ThreadId, l: LockId)
    | AcquireFree(c: ClientId, t: ThreadId, l: LockId)
    | AcquireRetry(c: ClientId, t: ThreadId, l: LockId)
    | Release(c: ClientId, t: ThreadId, l: LockId)
    | DeliverRevoke
    | PopRevoke
    | DeliverRetry
    | PopRetry
    | ReleaserPick(c: ClientId)
    | ReleaserFlush(c: ClientId)
    | ReleaserTest(c: ClientId)
    | ReleaserCommit(c: ClientId)
    | Put(c: ClientId, t: ThreadId, e: ExtentId, buf: string)
    | GetHit(c: ClientId, t: ThreadId, e: ExtentId)
    | FetchContent(c: ClientId, t: ThreadId, e: ExtentId)
    | FetchAttr(c: ClientId, t: ThreadId)
    | FetchInsert(c: ClientId, t: ThreadId)
    | GetAttr(c: ClientId, t: ThreadId, e: ExtentId)

  /** What a thread observes when a step returns to it. */
  datatype Event =
    | Silent
    | DidAcquire(l: LockId)
    | DidRelease(l: LockId)
    | DidPut(e: ExtentId, buf: string)
    | DidGet(e: ExtentId, buf: string)
    | DidMiss(e: ExtentId)
    | DidGetAttr(e: ExtentId, size: nat)
    | DidMissAttr(e: ExtentId)

  function PcOf(p: Proc, t: ThreadId): Pc {
    if t in p.pc then p.pc[t] else Outside
  }

  function Update(s: State, c: ClientId, p: Proc): State {
    s.(procs := s.procs[c := p])
  }

  /** Client `c` exists and its lock mutex is free. */
  predicate Ready(s: State, c: ClientId) {
    c in s.procs && s.procs[c].busy == Quiet
  }

  /** Thread `t` of `c` is inside its critical section on `e` and not in the middle of a call. */
  predicate Inside(s: State, c: ClientId, t: ThreadId, e: LockId) {
    c in s.procs && (t, e) in s.procs[c].held && PcOf(s.procs[c], t) == Outside
  }

  predicate Enabled(s: State, a: Step) {
    match a
    case Enter(c, t, l) => Ready(s, c) && PcOf(s.procs[c], t) == Outside
    case AcquireNone(c, t, l) =>
      Ready(s, c) && !s.sv.broken && PcOf(s.procs[c], t) == InAcquire(l) && CL.St(s.procs[c].lc, l) == CL.NONE
    case AcquireFree(c, t, l) =>
      Ready(s, c) && PcOf(s.procs[c], t) == InAcquire(l) && CL.St(s.procs[c].lc, l) == CL.FREE
    case AcquireRetry(c, t, l) =>
      Ready(s, c) && !s.sv.broken && PcOf(s.procs[c], t) == InRetry(l) && CL.RetryFlag(s.procs[c].lc, l)
    case Release(c, t, l) => Ready(s, c) && Inside(s, c, t, l)
    case DeliverRevoke => s.sv.revokeList != [] && !s.sv.revokeSent && Ready(s, s.sv.revokeList[0].client)
    case PopRevoke => s.sv.revokeList != [] && s.sv.revokeSent
    case DeliverRetry => s.sv.retryList != [] && !s.sv.retrySent && Ready(s, s.sv.retryList[0].client)
    case PopRetry => s.sv.retryList != [] && s.sv.retrySent
    case ReleaserPick(c) => Ready(s, c) && s.procs[c].lc.releaserOn
    case ReleaserFlush(c) => c in s.procs && s.procs[c].busy.ToFlush?
    case ReleaserTest(c) => c in s.procs && s.procs[c].busy.ToRelease?
    case ReleaserCommit(c) => c in s.procs && s.procs[c].busy.Tested? && !s.sv.broken
    case Put(c, t, e, buf) => Inside(s, c, t, e)
    case GetHit(c, t, e) => Inside(s, c, t, e) && e in s.procs[c].ec
    case FetchContent(c, t, e) => Inside(s, c, t, e) && e !in s.procs[c].ec
    case FetchAttr(c, t) => c in s.procs && PcOf(s.procs[c], t).GotContent?
    case FetchInsert(c, t) => c in s.procs && PcOf(s.procs[c], t).GotAttr?
    case GetAttr(c, t, e) => Inside(s, c, t, e)
  }

  function EnterS(s: State, c: ClientId, t: ThreadId, l: LockId): State
    requires c in s.procs
  {
    var p := s.procs[c];
    Update(s, c, p.(lc := CL.Entered(p.lc, l), pc := p.pc[t := InAcquire(l)]))
  }

  /** The thread's program counter and the holder set after an acquire call got `reply`. */
  function Settle(p: Proc, t: ThreadId, l: LockId, reply: Reply): Proc {
    if reply == OK then p.(pc := p.pc[t := Outside], held := p.held + {(t, l)})
    else p.(pc := p.pc[t := InRetry(l)])
  }

  function AcquireNoneS(s: State, c: ClientId, t: ThreadId, l: LockId): State
    requires c in s.procs
  {
    var p := s.procs[c];
    var reply := SV.AcquireReply(s.sv, l);
    Update(s, c, Settle(p.(lc := CL.Answered(p.lc, l, reply)), t, l, reply))
    .(sv := SV.Acquired(s.sv, l, c))
  }

  function AcquireRetryS(s: State, c: ClientId, t: ThreadId, l: LockId): State
    requires c in s.procs
  {
    var p := s.procs[c];
    var reply := SV.AcquireReply(s.sv, l);
    Update(s, c, Settle(p.(lc := CL.RetryAnswered(p.lc, l, reply)), t, l, reply))
    .(sv := SV.Acquired(s.sv, l, c))
  }

  function AcquireFreeS(s: State, c: ClientId, t: ThreadId, l: LockId): State
    requires c in s.procs
  {
    var p := s.procs[c];
    Update(s, c, Settle(p.(lc := CL.SetSt(p.lc, l, CL.LOCKED)), t, l, OK))
  }

  function ReleaseS(s: State, c: ClientId, t: ThreadId, l: LockId): State
    requires c in s.procs
  {
    var p := s.procs[c];
    Update(s, c, p.(lc := CL.Released(p.lc, l), held := p.held - {(t, l)}))
  }

  function DeliverRevokeS(s: State): State
    requires s.sv.revokeList != [] && s.sv.revokeList[0].client in s.procs
  {
    var m := s.sv.revokeList[0];
    var p := s.procs[m.client];
    Update(s, m.client, p.(lc := CL.RevokeHandled(p.lc, m.lid))).(sv := s.sv.(revokeSent := true))
  }

  function DeliverRetryS(s: State): State
    requires s.sv.retryList != [] && s.sv.retryList[0].client in s.procs
  {
    var m := s.sv.retryList[0];
    var p := s.procs[m.client];
    Update(s, m.client, p.(lc := CL.RetryHandled(p.lc, m.lid))).(sv := s.sv.(retrySent := true))
  }

  function PopRevokeS(s: State): State
    requires s.sv.revokeList != []
  {
    s.(sv := s.sv.(revokeList := s.sv.revokeList[1..], revokeSent := false))
  }

  function PopRetryS(s: State): State
    requires s.sv.retryList != []
  {
    s.(sv := s.sv.(retryList := s.sv.retryList[1..], retrySent := false))
  }

  function PickS(s: State, c: ClientId): State
    requires c in s.procs
  {
    var p := s.procs[c];
    match CL.FirstReleasing(p.lc, p.lc.revokeList)
    case Some(l) => Update(s, c, p.(lc := CL.SetSt(p.lc, l, CL.NONE), busy := ToFlush(l)))
    case None => Update(s, c, p.(lc := p.lc.(releaserOn := false)))
  }

  function FlushS(s: State, c: ClientId): State
    requires c in s.procs && s.procs[c].busy.ToFlush?
  {
    var p := s.procs[c];
    var l := p.busy.lid;
    Update(s, c, p.(ec := EC.FlushCache(p.ec, l), busy := ToRelease(l)))
    .(files := EC.FlushFiles(p.ec, l, s.files))
  }

  function TestS(s: State, c: ClientId): State
    requires c in s.procs && s.procs[c].busy.ToRelease?
  {
    var p := s.procs[c];
    Update(s, c, p.(busy := Tested(p.busy.lid, SV.ReleaseTest(s.sv, p.busy.lid))))
  }

  function CommitS(s: State, c: ClientId): State
    requires c in s.procs && s.procs[c].busy.Tested?
  {
    var p := s.procs[c];
    var l := p.busy.lid;
    Update(s, c, p.(lc := CL.PassDone(p.lc, l), busy := Quiet))
    .(sv := SV.Released(s.sv, l, c, p.busy.test))
  }

  function PutS(s: State, c: ClientId, e: ExtentId, buf: string): State
    requires c in s.procs
  {
    var p := s.procs[c];
    Update(s, c, p.(ec := EC.CachePut(p.ec, e, buf)))
  }

  /** The get RPC of a miss; an absent extent trips the client's assertion and goes no further. */
  function FetchContentS(s: State, c: ClientId, t: ThreadId, e: ExtentId): State
    requires c in s.procs
  {
    var p := s.procs[c];
    match ES.Get(s.files, e)
    case Some(buf) => Update(s, c, p.(pc := p.pc[t := GotContent(e, buf)]))
    case None => s
  }

  function AttrOf(s: State, c: ClientId, e: ExtentId): Option<nat>
    requires c in s.procs
  {
    if e in s.procs[c].ec then Some(s.procs[c].ec[e].size) else ES.GetAttr(s.files, e)
  }

  function FetchAttrS(s: State, c: ClientId, t: ThreadId): State
    requires c in s.procs && PcOf(s.procs[c], t).GotContent?
  {
    var p := s.procs[c];
    var GotContent(e, buf) := PcOf(p, t);
    match AttrOf(s, c, e)
    case Some(size) => Update(s, c, p.(pc := p.pc[t := GotAttr(e, buf, size)]))
    case None => s
  }

  function FetchInsertS(s: State, c: ClientId, t: ThreadId): State
    requires c in s.procs && PcOf(s.procs[c], t).GotAttr?
  {
    var p := s.procs[c];
    var GotAttr(e, buf, size) := PcOf(p, t);
    Update(s, c, p.(ec := EC.CacheInsert(p.ec, e, buf, size), pc := p.pc[t := Outside]))
  }

  function Apply(s: State, a: Step): State
    requires Enabled(s, a)
  {
    match a
    case Enter(c, t, l) => EnterS(s, c, t, l)
    case AcquireNone(c, t, l) => AcquireNoneS(s, c, t, l)
    case AcquireFree(c, t, l) => AcquireFreeS(s, c, t, l)
    case AcquireRetry(c, t, l) => AcquireRetryS(s, c, t, l)
    case Release(c, t, l) => ReleaseS(s, c, t, l)
    case DeliverRevoke => DeliverRevokeS(s)
    case PopRevoke => PopRevokeS(s)
    case DeliverRetry => DeliverRetryS(s)
    case PopRetry => PopRetryS(s)
    case ReleaserPick(c) => PickS(s, c)
    case ReleaserFlush(c) => FlushS(s, c)
    case ReleaserTest(c) => TestS(s, c)
    case ReleaserCommit(c) => CommitS(s, c)
    case Put(c, t, e, buf) => PutS(s, c, e, buf)
    case GetHit(c, t, e) => s
    case FetchContent(c, t, e) => FetchContentS(s, c, t, e)
    case FetchAttr(c, t) => FetchAttrS(s, c, t)
    case FetchInsert(c, t) => FetchInsertS(s, c, t)
    case GetAttr(c, t, e) => s
  }

  function EventOf(s: State, a: Step): Event
    requires Enabled(s, a)
  {
    match a
    case AcquireNone(c, t, l) => if SV.AcquireReply(s.sv, l) == OK then DidAcquire(l) else Silent
    case AcquireRetry(c, t, l) => if SV.AcquireReply(s.sv, l) == OK then DidAcquire(l) else Silent
    case AcquireFree(c, t, l) => DidAcquire(l)
    case Release(c, t, l) => DidRelease(l)
    case Put(c, t, e, buf) => DidPut(e, buf)
    case GetHit(c, t, e) => DidGet(e, s.procs[c].ec[e].content)
    case FetchContent(c, t, e) => if e in s.files then Silent else DidMiss(e)
    case FetchInsert(c, t) => DidGet(PcOf(s.procs[c], t).eid, PcOf(s.procs[c], t).buf)
    case FetchAttr(c, t) =>
      if AttrOf(s, c, PcOf(s.procs[c], t).eid).Some? then Silent else DidMissAttr(PcOf(s.procs[c], t).eid)
    case GetAttr(c, t, e) => if AttrOf(s, c, e).Some? then DidGetAttr(e, AttrOf(s, c, e).value) else DidMissAttr(e)
    case _ => Silent
  }

  /** Every step that returns to a caller of the lock or extent client shows what it answered. */
  lemma SilentIff(s: State, a: Step)
    requires Enabled(s, a)
    ensures EventOf(s, a) == Silent <==>
              match a
              case AcquireNone(c, t, l) => PcOf(Apply(s, a).procs[c], t) == InRetry(l)
              case AcquireRetry(c, t, l) => PcOf(Apply(s, a).procs[c], t) == InRetry(l)
              case FetchContent(c, t, e) => PcOf(Apply(s, a).procs[c], t).GotContent?
              case FetchAttr(c, t) => PcOf(Apply(s, a).procs[c], t).GotAttr?
              case _ => !(a.AcquireFree? || a.Release? || a.Put? || a.GetHit? || a.FetchInsert? || a.GetAttr?)
  {
  }

  /** Every step of the run is enabled where it is taken. */
  predicate IsRun(s: State, run: seq<Step>)
    decreases |run|
  {
    run == [] || (Enabled(s, run[0]) && IsRun(Apply(s, run[0]), run[1..]))
  }

  function Exec(s: State, run: seq<Step>): State
    requires IsRun(s, run)
    decreases |run|
  {
    if run == [] then s else Exec(Apply(s, run[0]), run[1..])
  }

  /** The events that the threads of all clients see, in the order they happen. */
  function Trace(s: State, run: seq<Step>): seq<Event>
    requires IsRun(s, run)
    decreases |run|
  {
    if run == [] then [] else [EventOf(s, run[0])] + Trace(Apply(s, run[0]), run[1..])
  }
}
