/** Two clients and two locks, seen from outside: what concrete runs are built from. */
module Worlds {
  import opened LockTypes
  import opened Protocol
  import opened Refinement
  import SV = ServerCache
  import CL = ClientCache

  const A := ClientId("a")
  const B := ClientId("b")

  /** The server's record of a lock; `revoked` is the mark of its holder. */
  datatype Lk = Lk(status: SV.Mode, holder: ClientId, waiting: seq<ClientId>, revoked: bool)

  /** A client's locks 1 and 2 and its threads 0 and 1; all other threads are outside. */
  datatype View = View(
    st1: CL.LockSt, st2: CL.LockSt, list: seq<LockId>, on: bool, busy: Busy,
    at0: Pc, at1: Pc, held: set<(ThreadId, LockId)>)

  datatype World = World(a: View, b: View, k1: Lk, k2: Lk, revokes: seq<Msg>, sent: bool, retries: seq<Msg>)

  const NEW_VIEW := View(CL.NONE, CL.NONE, [], false, Quiet, Outside, Outside, {})
  const OPEN_LOCK := Lk(SV.OPEN, SV.NO_CLIENT, [], false)
  const NEW_WORLD := World(NEW_VIEW, NEW_VIEW, OPEN_LOCK, OPEN_LOCK, [], false, [])

  predicate OneOrTwo(l: LockId) { l == 1 || l == 2 }

  predicate AOrB(c: ClientId) { c == A || c == B }

  // ----- parts of a world -----

  function ViewOf(w: World, c: ClientId): View { if c == A then w.a else w.b }

  function SetView(w: World, c: ClientId, v: View): World { if c == A then w.(a := v) else w.(b := v) }

  function LockOf(w: World, l: LockId): Lk { if l == 1 then w.k1 else w.k2 }

  function SetLock(w: World, l: LockId, k: Lk): World { if l == 1 then w.(k1 := k) else w.(k2 := k) }

  function StOf(v: View, l: LockId): CL.LockSt { if l == 1 then v.st1 else v.st2 }

  function SetSt(v: View, l: LockId, st: CL.LockSt): View { if l == 1 then v.(st1 := st) else v.(st2 := st) }

  function AtOf(v: View, t: ThreadId): Pc { if t == 0 then v.at0 else v.at1 }

  function SetAt(v: View, t: ThreadId, pc: Pc): View { if t == 0 then v.(at0 := pc) else v.(at1 := pc) }

  // ----- what a state looks like -----

  function LkOf(k: SV.LockStatus): Lk {
    Lk(k.status, k.lockClient, k.waiting, k.status == SV.LOCKED && SV.Revoked(k, k.lockClient))
  }

  function See(p: Proc): View {
    View(CL.St(p.lc, 1), CL.St(p.lc, 2), p.lc.revokeList, p.lc.releaserOn, p.busy, PcOf(p, 0), PcOf(p, 1), p.held)
  }

  /** Threads other than 0 and 1 do nothing, other locks are not in use, and no retry has come. */
  predicate Plain(p: Proc) {
    && (forall t :: t in p.pc && t > 1 ==> p.pc[t] == Outside)
    && (forall l :: l in p.lc.lockMap && !OneOrTwo(l) ==> p.lc.lockMap[l] == CL.NONE)
    && (forall l :: l in p.lc.retryMap ==> !p.lc.retryMap[l])
  }

  ghost predicate SeesServer(sv: SV.Server, w: World) {
    && LkOf(SV.Look(sv, 1)) == w.k1 && LkOf(SV.Look(sv, 2)) == w.k2
    && sv.revokeList == w.revokes && sv.revokeSent == w.sent && sv.retryList == w.retries && !sv.broken
  }

  ghost predicate SeesClients(procs: map<ClientId, Proc>, w: World) {
    && procs.Keys == {A, B}
    && See(procs[A]) == w.a && See(procs[B]) == w.b && Plain(procs[A]) && Plain(procs[B])
  }

  /** A reachable state that looks like this world. */
  ghost predicate Sees(s: State, w: World) {
    Reachable(s) && SeesClients(s.procs, w) && SeesServer(s.sv, w)
  }

  lemma {:induction false} RunExtends(s: State, run: seq<Step>, a: Step)
    requires IsRun(s, run) && Enabled(Exec(s, run), a)
    ensures IsRun(s, run + [a]) && Exec(s, run + [a]) == Apply(Exec(s, run), a)
    decreases |run|
  {
    var all := run + [a];
    if run == [] {
      assert all[1..] == [];
    } else {
      RunExtends(Apply(s, run[0]), run[1..], a);
      assert all[1..] == run[1..] + [a];
    }
  }

  lemma StepReaches(s: State, a: Step)
    requires Reachable(s) && Enabled(s, a)
    ensures Reachable(Apply(s, a))
  {
    var ids, run :| IsRun(Init(ids), run) && s == Exec(Init(ids), run);
    RunExtends(Init(ids), run, a);
    assert IsRun(Init(ids), run + [a]);
  }

  lemma Distinct()
    ensures A != B
  {
    assert A.hostAndPort[0] != B.hostAndPort[0];
  }

  lemma Begin() returns (s: State)
    ensures Sees(s, NEW_WORLD)
  {
    Distinct();
    s := Init({A, B});
    assert IsRun(Init({A, B}), []) && Exec(Init({A, B}), []) == s;
  }

  // ----- what a step changes -----

  lemma ClientChanged(procs: map<ClientId, Proc>, w: World, c: ClientId, p: Proc, v: View)
    requires SeesClients(procs, w) && AOrB(c) && See(p) == v && Plain(p)
    ensures SeesClients(procs[c := p], SetView(w, c, v))
  {
    Distinct();
  }

  lemma LockChanged(sv: SV.Server, w: World, l: LockId, k: SV.LockStatus)
    requires SeesServer(sv, w) && OneOrTwo(l)
    ensures SeesServer(sv.(locks := sv.locks[l := k]), SetLock(w, l, LkOf(k)))
  {
  }

  lemma SeenParts(procs: map<ClientId, Proc>, w: World, c: ClientId)
    requires SeesClients(procs, w) && AOrB(c)
    ensures c in procs && See(procs[c]) == ViewOf(w, c) && Plain(procs[c])
  {
    Distinct();
  }

  // ----- the steps -----

  lemma EnterView(p: Proc, t: ThreadId, l: LockId)
    requires Plain(p) && t <= 1
    ensures var p' := p.(lc := CL.Entered(p.lc, l), pc := p.pc[t := InAcquire(l)]);
            See(p') == SetAt(See(p), t, InAcquire(l)) && Plain(p')
  {
  }

  lemma DoEnter(s: State, w: World, c: ClientId, t: ThreadId, l: LockId) returns (s': State)
    requires Sees(s, w) && AOrB(c) && t <= 1
    requires var v := ViewOf(w, c); v.busy == Quiet && AtOf(v, t) == Outside
    ensures Sees(s', SetView(w, c, SetAt(ViewOf(w, c), t, InAcquire(l))))
  {
    SeenParts(s.procs, w, c);
    StepReaches(s, Enter(c, t, l));
    s' := EnterS(s, c, t, l);
    EnterView(s.procs[c], t, l);
    ClientChanged(s.procs, w, c, s'.procs[c], SetAt(ViewOf(w, c), t, InAcquire(l)));
  }

  lemma AnsweredView(p: Proc, t: ThreadId, l: LockId, reply: Reply)
    requires Plain(p) && t <= 1 && OneOrTwo(l)
    ensures var p' := Settle(p.(lc := CL.Answered(p.lc, l, reply)), t, l, reply);
            && Plain(p')
            && See(p') == if reply == OK then SetSt(SetAt(See(p), t, Outside), l, CL.LOCKED).(held := p.held + {(t, l)})
                          else SetSt(SetAt(See(p), t, InRetry(l)), l, CL.ACQUIRING)
  {
  }

  /** An unknown lock is granted. */
  lemma DoTake(s: State, w: World, c: ClientId, t: ThreadId, l: LockId) returns (s': State)
    requires Sees(s, w) && AOrB(c) && t <= 1 && OneOrTwo(l)
    requires var v := ViewOf(w, c); v.busy == Quiet && AtOf(v, t) == InAcquire(l) && StOf(v, l) == CL.NONE
    requires LockOf(w, l).status == SV.OPEN && LockOf(w, l).waiting == []
    ensures var v := ViewOf(w, c);
            Sees(s', SetLock(SetView(w, c, SetSt(SetAt(v, t, Outside), l, CL.LOCKED).(held := v.held + {(t, l)})),
                             l, Lk(SV.LOCKED, c, [], false)))
  {
    SeenParts(s.procs, w, c);
    StepReaches(s, AcquireNone(c, t, l));
    s' := AcquireNoneS(s, c, t, l);
    AnsweredView(s.procs[c], t, l, OK);
    ClientChanged(s.procs, w, c, s'.procs[c], See(s'.procs[c]));
    GrantedLock(s.sv, w, c, l);
  }

  lemma GrantedLock(sv: SV.Server, w: World, c: ClientId, l: LockId)
    requires SeesServer(sv, w) && OneOrTwo(l) && LockOf(w, l).status == SV.OPEN && LockOf(w, l).waiting == []
    ensures SeesServer(SV.Acquired(sv, l, c), SetLock(w, l, Lk(SV.LOCKED, c, [], false)))
  {
    var k := SV.Look(sv, l);
    assert LkOf(k) == LockOf(w, l);
    LockChanged(sv, w, l, SV.Grant(k, c));
  }

  /** A lock that the other client uses is refused, and the first refusal sends a revoke. */
  lemma DoAsk(s: State, w: World, c: ClientId, t: ThreadId, l: LockId) returns (s': State)
    requires Sees(s, w) && AOrB(c) && t <= 1 && OneOrTwo(l)
    requires var v := ViewOf(w, c); v.busy == Quiet && AtOf(v, t) == InAcquire(l) && StOf(v, l) == CL.NONE
    requires var k := LockOf(w, l); k.status == SV.LOCKED && k.waiting == [] && !k.revoked
    ensures var v, k := ViewOf(w, c), LockOf(w, l);
            Sees(s', SetLock(SetView(w, c, SetSt(SetAt(v, t, InRetry(l)), l, CL.ACQUIRING)),
                             l, Lk(SV.LOCKED, k.holder, [c], true)).(revokes := w.revokes + [Msg(l, k.holder)]))
  {
    SeenParts(s.procs, w, c);
    StepReaches(s, AcquireNone(c, t, l));
    s' := AcquireNoneS(s, c, t, l);
    AnsweredView(s.procs[c], t, l, RETRY);
    ClientChanged(s.procs, w, c, s'.procs[c], See(s'.procs[c]));
    RefusedLock(s.sv, w, c, l);
  }

  lemma RefusedLock(sv: SV.Server, w: World, c: ClientId, l: LockId)
    requires SeesServer(sv, w) && OneOrTwo(l)
    requires var k := LockOf(w, l); k.status == SV.LOCKED && k.waiting == [] && !k.revoked
    ensures var k := LockOf(w, l);
            SeesServer(SV.Acquired(sv, l, c),
                       SetLock(w, l, Lk(SV.LOCKED, k.holder, [c], true)).(revokes := w.revokes + [Msg(l, k.holder)]))
  {
    var k := SV.Look(sv, l);
    assert LkOf(k) == LockOf(w, l);
    LockChanged(sv, w, l, SV.Refuse(k, c));
  }

  lemma RevokedView(p: Proc, l: LockId)
    requires Plain(p) && OneOrTwo(l) && CL.St(p.lc, l) == CL.LOCKED
    ensures var p' := p.(lc := CL.RevokeHandled(p.lc, l));
            See(p') == See(p).(list := p.lc.revokeList + [l]) && Plain(p')
  {
  }

  lemma DoRevoke(s: State, w: World) returns (s': State)
    requires Sees(s, w) && w.revokes != [] && !w.sent
    requires var m := w.revokes[0];
             && AOrB(m.client) && OneOrTwo(m.lid)
             && ViewOf(w, m.client).busy == Quiet && StOf(ViewOf(w, m.client), m.lid) == CL.LOCKED
    ensures var m := w.revokes[0];
            var v := ViewOf(w, m.client);
            Sees(s', SetView(w, m.client, v.(list := v.list + [m.lid])).(sent := true))
  {
    var m := w.revokes[0];
    SeenParts(s.procs, w, m.client);
    StepReaches(s, DeliverRevoke);
    s' := DeliverRevokeS(s);
    RevokedView(s.procs[m.client], m.lid);
    ClientChanged(s.procs, w, m.client, s'.procs[m.client], See(s'.procs[m.client]));
  }

  lemma DoPop(s: State, w: World) returns (s': State)
    requires Sees(s, w) && w.revokes != [] && w.sent
    ensures Sees(s', w.(revokes := w.revokes[1..], sent := false))
  {
    StepReaches(s, PopRevoke);
    s' := PopRevokeS(s);
  }

  lemma DroppedView(p: Proc, t: ThreadId, l: LockId)
    requires Plain(p) && OneOrTwo(l) && l in p.lc.revokeList
    ensures var p' := p.(lc := CL.Released(p.lc, l), held := p.held - {(t, l)});
            See(p') == SetSt(See(p), l, CL.RELEASING).(held := p.held - {(t, l)}, on := true) && Plain(p')
  {
  }

  /** A thread lets go of a lock that has been revoked. */
  lemma DoDrop(s: State, w: World, c: ClientId, t: ThreadId, l: LockId) returns (s': State)
    requires Sees(s, w) && AOrB(c) && t <= 1 && OneOrTwo(l)
    requires var v := ViewOf(w, c); v.busy == Quiet && AtOf(v, t) == Outside && (t, l) in v.held && l in v.list
    ensures var v := ViewOf(w, c);
            Sees(s', SetView(w, c, SetSt(v, l, CL.RELEASING).(held := v.held - {(t, l)}, on := true)))
  {
    SeenParts(s.procs, w, c);
    StepReaches(s, Release(c, t, l));
    s' := ReleaseS(s, c, t, l);
    DroppedView(s.procs[c], t, l);
    ClientChanged(s.procs, w, c, s'.procs[c], See(s'.procs[c]));
  }

  // ----- whole calls -----

  /** A call of acquire that is granted at once. */
  lemma Acquires(s: State, w: World, c: ClientId, t: ThreadId, l: LockId) returns (s': State)
    requires Sees(s, w) && AOrB(c) && t <= 1 && OneOrTwo(l)
    requires var v := ViewOf(w, c); v.busy == Quiet && AtOf(v, t) == Outside && StOf(v, l) == CL.NONE
    requires LockOf(w, l).status == SV.OPEN && LockOf(w, l).waiting == []
    ensures var v := ViewOf(w, c);
            var locked := SetSt(v, l, CL.LOCKED).(held := v.held + {(t, l)});
            Sees(s', SetLock(SetView(w, c, locked), l, Lk(SV.LOCKED, c, [], false)))
  {
    s' := DoEnter(s, w, c, t, l);
    s' := DoTake(s', SetView(w, c, SetAt(ViewOf(w, c), t, InAcquire(l))), c, t, l);
  }

  /** A call of acquire that is refused. */
  lemma Asks(s: State, w: World, c: ClientId, t: ThreadId, l: LockId) returns (s': State)
    requires Sees(s, w) && AOrB(c) && t <= 1 && OneOrTwo(l)
    requires var v := ViewOf(w, c); v.busy == Quiet && AtOf(v, t) == Outside && StOf(v, l) == CL.NONE
    requires var k := LockOf(w, l); k.status == SV.LOCKED && k.waiting == [] && !k.revoked
    ensures var v, k := ViewOf(w, c), LockOf(w, l);
            Sees(s', SetLock(SetView(w, c, SetSt(SetAt(v, t, InRetry(l)), l, CL.ACQUIRING)),
                             l, Lk(SV.LOCKED, k.holder, [c], true)).(revokes := w.revokes + [Msg(l, k.holder)]))
  {
    s' := DoEnter(s, w, c, t, l);
    s' := DoAsk(s', SetView(w, c, SetAt(ViewOf(w, c), t, InAcquire(l))), c, t, l);
  }

  /** A revoke is delivered and popped. */
  lemma Revokes(s: State, w: World) returns (s': State)
    requires Sees(s, w) && w.revokes != [] && !w.sent
    requires var m := w.revokes[0];
             && AOrB(m.client) && OneOrTwo(m.lid)
             && ViewOf(w, m.client).busy == Quiet && StOf(ViewOf(w, m.client), m.lid) == CL.LOCKED
    ensures var m := w.revokes[0];
            var v := ViewOf(w, m.client);
            Sees(s', SetView(w, m.client, v.(list := v.list + [m.lid])).(revokes := w.revokes[1..]))
  {
    var m := w.revokes[0];
    var v := ViewOf(w, m.client);
    s' := DoRevoke(s, w);
    s' := DoPop(s', SetView(w, m.client, v.(list := v.list + [m.lid])).(sent := true));
  }
}
