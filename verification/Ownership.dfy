/** The refinement with names: the plain system records which thread of which client owns a lock. */
module Ownership {
  import opened LockTypes
  import opened Protocol
  import opened Threads
  import opened Coherence
  import opened Refinement

  datatype Who = Nobody | Thread(c: ClientId, t: ThreadId)

  /** The thread that a step returns to. */
  function WhoOf(a: Step): Who {
    match a
    case AcquireNone(c, t, _) => Thread(c, t)
    case AcquireFree(c, t, _) => Thread(c, t)
    case AcquireRetry(c, t, _) => Thread(c, t)
    case Release(c, t, _) => Thread(c, t)
    case Put(c, t, _, _) => Thread(c, t)
    case GetHit(c, t, _) => Thread(c, t)
    case FetchContent(c, t, _) => Thread(c, t)
    case FetchAttr(c, t) => Thread(c, t)
    case FetchInsert(c, t) => Thread(c, t)
    case GetAttr(c, t, _) => Thread(c, t)
    case _ => Nobody
  }

  datatype Named = Named(who: Who, ev: Event)

  function NamedTrace(s: State, run: seq<Step>): seq<Named>
    requires IsRun(s, run)
    decreases |run|
  {
    if run == [] then [] else [Named(WhoOf(run[0]), EventOf(s, run[0]))] + NamedTrace(Apply(s, run[0]), run[1..])
  }

  type Owners = map<LockId, Who>

  predicate OwnedBy(o: Owners, l: LockId, who: Who) {
    l in o && o[l] == who
  }

  /** A lock is acquired only when nobody owns it; everything else under it is done by its owner. */
  predicate Permits(o: Owners, n: Named) {
    match n.ev
    case Silent => true
    case DidAcquire(l) => l !in o
    case DidRelease(l) => OwnedBy(o, l, n.who)
    case DidPut(e, _) => OwnedBy(o, e, n.who)
    case DidGet(e, _) => OwnedBy(o, e, n.who)
    case DidMiss(e) => OwnedBy(o, e, n.who)
    case DidGetAttr(e, _) => OwnedBy(o, e, n.who)
    case DidMissAttr(e) => OwnedBy(o, e, n.who)
  }

  function Becomes(o: Owners, n: Named): Owners {
    match n.ev
    case DidAcquire(l) => o[l := n.who]
    case DidRelease(l) => o - {l}
    case _ => o
  }

  predicate AcceptsNamed(o: Owners, trace: seq<Named>)
    decreases |trace|
  {
    trace == [] || (Permits(o, trace[0]) && AcceptsNamed(Becomes(o, trace[0]), trace[1..]))
  }

  /** The owners are exactly the threads between acquire and release. */
  ghost predicate Owns(procs: map<ClientId, Proc>, o: Owners) {
    && (forall c, t, l :: c in procs && (t, l) in procs[c].held ==> OwnedBy(o, l, Thread(c, t)))
    && (forall l :: l in o ==> HeldByOwner(procs, o[l], l))
  }

  predicate HeldByOwner(procs: map<ClientId, Proc>, who: Who, l: LockId) {
    who.Thread? && who.c in procs && (who.t, l) in procs[who.c].held
  }

  /** Two states of the clients hold the same locks, apart from one client. */
  ghost predicate SameHeld(procs: map<ClientId, Proc>, after: map<ClientId, Proc>, but: set<ClientId>) {
    && after.Keys == procs.Keys
    && forall d :: d in procs && d !in but ==> after[d].held == procs[d].held
  }

  lemma OwnsTaken(procs: map<ClientId, Proc>, after: map<ClientId, Proc>, o: Owners,
                  c: ClientId, t: ThreadId, l: LockId)
    requires Owns(procs, o) && c in procs && SameHeld(procs, after, {c})
    requires l !in o && after[c].held == procs[c].held + {(t, l)}
    ensures Owns(after, o[l := Thread(c, t)])
  {
  }

  lemma OwnsGiven(procs: map<ClientId, Proc>, after: map<ClientId, Proc>, o: Owners,
                  c: ClientId, t: ThreadId, l: LockId)
    requires Owns(procs, o) && c in procs && SameHeld(procs, after, {c})
    requires OwnedBy(o, l, Thread(c, t)) && after[c].held == procs[c].held - {(t, l)}
    ensures Owns(after, o - {l})
  {
  }

  lemma OwnsSame(procs: map<ClientId, Proc>, after: map<ClientId, Proc>, o: Owners)
    requires Owns(procs, o) && SameHeld(procs, after, {})
    ensures Owns(after, o)
  {
    forall l | l in o ensures HeldByOwner(after, o[l], l) {
      assert HeldByOwner(procs, o[l], l);
    }
  }

  /** An acquire adds one held lock of one client. */
  lemma HeldTaken(s: State, a: Step)
    requires Enabled(s, a) && EventOf(s, a).DidAcquire?
    ensures WhoOf(a).Thread? && WhoOf(a).c in s.procs
    ensures SameHeld(s.procs, Apply(s, a).procs, {WhoOf(a).c})
    ensures Apply(s, a).procs[WhoOf(a).c].held == s.procs[WhoOf(a).c].held + {(WhoOf(a).t, EventOf(s, a).l)}
  {
  }

  /** A release removes one. */
  lemma HeldGiven(s: State, a: Step)
    requires Enabled(s, a) && EventOf(s, a).DidRelease?
    ensures WhoOf(a).Thread? && WhoOf(a).c in s.procs
    ensures SameHeld(s.procs, Apply(s, a).procs, {WhoOf(a).c})
    ensures Apply(s, a).procs[WhoOf(a).c].held == s.procs[WhoOf(a).c].held - {(WhoOf(a).t, EventOf(s, a).l)}
  {
  }

  /** Every other step leaves them alone. */
  lemma HeldSame(s: State, a: Step)
    requires Enabled(s, a) && !EventOf(s, a).DidAcquire? && !EventOf(s, a).DidRelease?
    ensures SameHeld(s.procs, Apply(s, a).procs, {})
  {
  }

  /** The lock that an event is about. */
  function LockOf(ev: Event): LockId
    requires !ev.Silent?
  {
    match ev
    case DidAcquire(l) => l
    case DidRelease(l) => l
    case DidPut(e, _) => e
    case DidGet(e, _) => e
    case DidMiss(e) => e
    case DidGetAttr(e, _) => e
    case DidMissAttr(e) => e
  }

  /** A lock is acquired when nobody holds it; any other event under a lock comes from its holder. */
  lemma EventHeld(s: State, a: Step)
    requires Good(s) && Enabled(s, a)
    ensures match EventOf(s, a)
            case DidAcquire(l) => forall d, u :: d in s.procs ==> (u, l) !in s.procs[d].held
            case Silent => true
            case ev => HeldByOwner(s.procs, WhoOf(a), LockOf(ev))
  {
    match EventOf(s, a)
    case DidAcquire(l) =>
      assert ProcOk(s.procs[a.c], s.files);
      assert a.AcquireRetry? ==> Seeks(s.procs[a.c], a.t, l);
      NobodyLocked(s, a.c, l);
      forall d, u | d in s.procs ensures (u, l) !in s.procs[d].held {
        assert ProcOk(s.procs[d], s.files);
      }
    case Silent =>
    case _ =>
      assert ProcOk(s.procs[a.c], s.files) && FetchOk(s.procs[a.c], s.files, a.t);
  }

  lemma StepPermitted(s: State, a: Step, o: Owners)
    requires Good(s) && Enabled(s, a) && Owns(s.procs, o)
    ensures Permits(o, Named(WhoOf(a), EventOf(s, a)))
  {
    EventHeld(s, a);
  }

  lemma StepOwned(s: State, a: Step, o: Owners)
    requires Good(s) && Enabled(s, a) && Owns(s.procs, o)
    ensures Owns(Apply(s, a).procs, Becomes(o, Named(WhoOf(a), EventOf(s, a))))
  {
    StepPermitted(s, a, o);
    match EventOf(s, a)
    case DidAcquire(l) =>
      HeldTaken(s, a);
      OwnsTaken(s.procs, Apply(s, a).procs, o, WhoOf(a).c, WhoOf(a).t, l);
    case DidRelease(l) =>
      HeldGiven(s, a);
      EventHeld(s, a);
      OwnsGiven(s.procs, Apply(s, a).procs, o, WhoOf(a).c, WhoOf(a).t, l);
    case _ =>
      HeldSame(s, a);
      OwnsSame(s.procs, Apply(s, a).procs, o);
  }

  lemma {:induction false} RunPermitted(s: State, run: seq<Step>, o: Owners)
    requires Good(s) && IsRun(s, run) && Owns(s.procs, o)
    ensures AcceptsNamed(o, NamedTrace(s, run))
    decreases |run|
  {
    if run != [] {
      var n := Named(WhoOf(run[0]), EventOf(s, run[0]));
      StepGood(s, run[0]);
      StepPermitted(s, run[0], o);
      StepOwned(s, run[0], o);
      RunPermitted(Apply(s, run[0]), run[1..], Becomes(o, n));
      assert NamedTrace(s, run)[0] == n && NamedTrace(s, run)[1..] == NamedTrace(Apply(s, run[0]), run[1..]);
    }
  }

  /** In every run a lock passes from owner to owner, and only its owner releases it or touches its extent. */
  lemma OnlyOwnersAct(ids: set<ClientId>, run: seq<Step>)
    requires IsRun(Init(ids), run)
    ensures AcceptsNamed(map[], NamedTrace(Init(ids), run))
  {
    InitGood(ids);
    RunPermitted(Init(ids), run, map[]);
  }
}
