/** Only a cycle of threads that hold one lock and wait for another can bring everything to a stop. */
module Deadlock {
  import opened LockTypes
  import opened Protocol
  import opened LockInvariant
  import opened Threads
  import opened Coherence
  import opened Refinement
  import opened Progress
  import SV = ServerCache
  import CL = ClientCache

  /** A step that takes the protocol or a waiting thread further; the others a thread may repeat for ever. */
  predicate Advances(a: Step) {
    !a.Enter? && !a.Put? && !a.GetHit? && !a.GetAttr? && !a.FetchContent?
  }

  ghost predicate CanAdvance(s: State) {
    exists a :: Advances(a) && Enabled(s, a)
  }

  predicate Wants(p: Proc, t: ThreadId, m: LockId) {
    PcOf(p, t) == InAcquire(m) || PcOf(p, t) == InRetry(m)
  }

  /** A thread that holds a lock. */
  datatype Holder = Holder(c: ClientId, t: ThreadId, l: LockId)

  predicate Waits(s: State, x: Holder, m: LockId) {
    x.c in s.procs && (x.t, x.l) in s.procs[x.c].held && Wants(s.procs[x.c], x.t, m)
  }

  /** Each thread holds its lock and waits for the lock of the next. */
  ghost predicate Chain(s: State, path: seq<Holder>) {
    forall i :: 0 <= i < |path| - 1 ==> Waits(s, path[i], path[i + 1].l)
  }

  /** And the last one waits for the lock of the first. */
  ghost predicate Cycle(s: State, ring: seq<Holder>) {
    ring != [] && Chain(s, ring) && Waits(s, ring[|ring| - 1], ring[0].l)
  }

  ghost predicate HasCycle(s: State) {
    exists ring :: Cycle(s, ring)
  }

  ghost predicate HeldAnywhere(s: State, m: LockId) {
    exists c, t :: c in s.procs && (t, m) in s.procs[c].held
  }

  lemma PassAdvances(s: State, c: ClientId)
    requires PassMoves(s, c)
    ensures CanAdvance(s)
  {
    assert Advances(ReleaserFlush(c)) && Advances(ReleaserTest(c)) && Advances(ReleaserCommit(c));
  }

  lemma RetryAdvances(s: State, c: ClientId, l: LockId)
    requires RetryMoves(s, c, l)
    ensures CanAdvance(s)
  {
    if PassMoves(s, c) {
      PassAdvances(s, c);
    } else if RetryerMoves(s) {
      assert Advances(DeliverRetry) && Advances(PopRetry);
      if PassMoves(s, s.sv.retryList[0].client) {
        PassAdvances(s, s.sv.retryList[0].client);
      }
    } else {
      var t :| Enabled(s, AcquireRetry(c, t, l));
      assert Advances(AcquireRetry(c, t, l));
    }
  }

  lemma RevokerAdvances(s: State)
    requires RevokerMoves(s)
    ensures CanAdvance(s)
  {
    assert Advances(DeliverRevoke) && Advances(PopRevoke);
    if PassMoves(s, s.sv.revokeList[0].client) {
      PassAdvances(s, s.sv.revokeList[0].client);
    }
  }

  /** A client that owns `m` and is not stranded: its releaser or its thread is next. */
  lemma OwnerStep(s: State, h: ClientId, m: LockId)
    requires Good(s) && !SomeStranded(s) && h in s.procs
    requires CL.St(s.procs[h].lc, m) == CL.RELEASING || CL.St(s.procs[h].lc, m) == CL.LOCKED || s.procs[h].busy != Quiet
    ensures CanAdvance(s) || HeldAnywhere(s, m)
  {
    var p := s.procs[h];
    assert ProcOk(p, s.files);
    BusyMoves(s, h);
    if p.busy != Quiet {
      PassAdvances(s, h);
    } else if CL.St(p.lc, m) == CL.RELEASING {
      assert !Stranded(s, h, m);
      assert Advances(ReleaserPick(h));
    } else {
      assert HeldBySome(p, m);
    }
  }

  /** An acquiring client: its retry can move, or somebody's, or the holder's revoke, or the holder is next. */
  lemma SeekStep(s: State, c: ClientId, m: LockId)
    requires Good(s) && !SomeStranded(s) && c in s.procs && CL.St(s.procs[c].lc, m) == CL.ACQUIRING
    ensures CanAdvance(s) || HeldAnywhere(s, m)
  {
    var k := SV.Look(s.sv, m);
    assert CellOk(s, c, m) && LockOk(s, m);
    if HasRetry(s, c, m) {
      RetryCanMove(s, c, m);
      RetryAdvances(s, c, m);
    } else {
      assert c in multiset(k.waiting);
      if k.status == SV.OPEN {
        var d :| d in s.procs && HasRetry(s, d, m);
        RetryCanMove(s, d, m);
        RetryAdvances(s, d, m);
      } else {
        WaitedStep(s, m);
      }
    }
  }

  lemma WaitedStep(s: State, m: LockId)
    requires Good(s) && !SomeStranded(s)
    requires SV.Look(s.sv, m).status == SV.LOCKED && SV.Look(s.sv, m).waiting != []
    ensures CanAdvance(s) || HeldAnywhere(s, m)
  {
    var h := SV.Look(s.sv, m).lockClient;
    assert LockOk(s, m) && CellOk(s, h, m);
    if RemoteAt(s.sv, h, m).revokes > 0 {
      RevokerCanMove(s, h, m);
      RevokerAdvances(s);
    } else {
      OwnerStep(s, h, m);
    }
  }

  lemma WantStep(s: State, c: ClientId, t: ThreadId, m: LockId)
    requires Good(s) && !SomeStranded(s) && Ready(s, c) && Wants(s.procs[c], t, m)
    ensures CanAdvance(s) || HeldAnywhere(s, m)
  {
    var p := s.procs[c];
    assert ProcOk(p, s.files);
    if PcOf(p, t) == InRetry(m) {
      assert Seeks(p, t, m);
      SeekStep(s, c, m);
    } else {
      match CL.St(p.lc, m)
      case NONE => assert Advances(AcquireNone(c, t, m)) && Enabled(s, AcquireNone(c, t, m));
      case FREE => assert Advances(AcquireFree(c, t, m)) && Enabled(s, AcquireFree(c, t, m));
      case ACQUIRING => SeekStep(s, c, m);
      case _ => OwnerStep(s, c, m);
    }
  }

  // ----- without a cycle something moves -----

  /** A thread that holds a lock in a system that cannot advance waits for a lock that is held. */
  lemma HolderBlocked(s: State, c: ClientId, t: ThreadId, l: LockId) returns (m: LockId)
    requires Good(s) && !SomeStranded(s) && !CanAdvance(s) && c in s.procs && (t, l) in s.procs[c].held
    ensures Waits(s, Holder(c, t, l), m) && HeldAnywhere(s, m)
  {
    var p := s.procs[c];
    BusyMoves(s, c);
    if p.busy != Quiet {
      PassAdvances(s, c);
    }
    assert !Enabled(s, Release(c, t, l)) by { assert Advances(Release(c, t, l)); }
    assert !Enabled(s, FetchAttr(c, t)) by { assert Advances(FetchAttr(c, t)); }
    assert !Enabled(s, FetchInsert(c, t)) by { assert Advances(FetchInsert(c, t)); }
    m := PcOf(p, t).lid;
    WantStep(s, c, t, m);
  }

  ghost function HeldLocks(s: State): set<LockId> {
    set c, x | c in s.procs && x in s.procs[c].held :: x.1
  }

  ghost function LocksOf(path: seq<Holder>): set<LockId> {
    set i | 0 <= i < |path| :: path[i].l
  }

  lemma HeldLock(s: State, c: ClientId, t: ThreadId, l: LockId)
    requires c in s.procs && (t, l) in s.procs[c].held
    ensures l in HeldLocks(s)
  {
    assert (t, l).1 == l;
  }

  /** Follow what the last thread of a chain waits for until a lock comes again. */
  lemma {:induction false} Follow(s: State, path: seq<Holder>, c: ClientId, t: ThreadId, l: LockId)
    requires Good(s) && !SomeStranded(s) && !CanAdvance(s) && c in s.procs && (t, l) in s.procs[c].held
    requires l !in LocksOf(path) && Chain(s, path + [Holder(c, t, l)])
    ensures HasCycle(s)
    decreases HeldLocks(s) - LocksOf(path)
  {
    var more := path + [Holder(c, t, l)];
    var m := HolderBlocked(s, c, t, l);
    HeldLock(s, c, t, l);
    assert LocksOf(more) == LocksOf(path) + {l} by { LocksAppend(path, Holder(c, t, l)); }
    if m in LocksOf(more) {
      var i :| 0 <= i < |more| && more[i].l == m;
      CloseCycle(s, more, i, m);
    } else {
      var d, u :| d in s.procs && (u, m) in s.procs[d].held;
      ChainAppend(s, more, Holder(d, u, m));
      Follow(s, more, d, u, m);
    }
  }

  lemma LocksAppend(path: seq<Holder>, x: Holder)
    ensures LocksOf(path + [x]) == LocksOf(path) + {x.l}
  {
    var more := path + [x];
    assert more[|path|] == x && forall i :: 0 <= i < |path| ==> more[i] == path[i];
  }

  lemma ChainAppend(s: State, path: seq<Holder>, x: Holder)
    requires path != [] && Chain(s, path) && Waits(s, path[|path| - 1], x.l)
    ensures Chain(s, path + [x])
  {
  }

  lemma CloseCycle(s: State, path: seq<Holder>, i: nat, m: LockId)
    requires i < |path| && Chain(s, path) && path[i].l == m && Waits(s, path[|path| - 1], m)
    ensures HasCycle(s)
  {
    assert Cycle(s, path[i..]);
  }

  /** If nothing is stranded and no cycle of waits exists, a system in which a thread holds or wants a lock goes on. */
  lemma NoCycleNoDeadlock(s: State, c: ClientId, t: ThreadId, l: LockId)
    requires Reachable(s) && !HasCycle(s) && !SomeStranded(s)
    requires c in s.procs && ((t, l) in s.procs[c].held || Wants(s.procs[c], t, l))
    ensures CanAdvance(s)
  {
    ReachableGood(s);
    if !CanAdvance(s) {
      var d, u, m := SomeHolder(s, c, t, l);
      Follow(s, [], d, u, m);
    }
  }

  lemma SomeHolder(s: State, c: ClientId, t: ThreadId, l: LockId) returns (d: ClientId, u: ThreadId, m: LockId)
    requires Good(s) && !SomeStranded(s) && !CanAdvance(s)
    requires c in s.procs && ((t, l) in s.procs[c].held || Wants(s.procs[c], t, l))
    ensures d in s.procs && (u, m) in s.procs[d].held
  {
    BusyMoves(s, c);
    if (t, l) in s.procs[c].held {
      d, u, m := c, t, l;
    } else if s.procs[c].busy != Quiet {
      PassAdvances(s, c);
    } else {
      WantStep(s, c, t, l);
      m := l;
      d, u :| d in s.procs && (u, l) in s.procs[d].held;
    }
  }

  /** Clients that take their locks in some fixed order never make a cycle. */
  ghost predicate Ranked(s: State, rank: LockId -> nat) {
    forall x, m :: Waits(s, x, m) ==> rank(x.l) < rank(m)
  }

  lemma {:induction false} RankRises(s: State, rank: LockId -> nat, path: seq<Holder>, i: nat)
    requires Ranked(s, rank) && Chain(s, path) && i < |path|
    ensures rank(path[0].l) <= rank(path[i].l)
    decreases i
  {
    if i > 0 {
      RankRises(s, rank, path, i - 1);
      assert Waits(s, path[i - 1], path[i].l);
    }
  }

  lemma RankedHasNoCycle(s: State, rank: LockId -> nat)
    requires Ranked(s, rank)
    ensures !HasCycle(s)
  {
    if HasCycle(s) {
      var ring :| Cycle(s, ring);
      RankRises(s, rank, ring, |ring| - 1);
      assert false;
    }
  }

  // ----- a cycle stays for ever -----

  lemma HeldIsLocked(s: State, m: LockId)
    requires Good(s) && HeldAnywhere(s, m)
    ensures LockedSomewhere(s, m)
  {
    var c, t :| c in s.procs && (t, m) in s.procs[c].held;
    assert ProcOk(s.procs[c], s.files);
  }

  /** Asking for a lock that is held: the call is refused. */
  lemma AskRefused(s: State, c: ClientId, t: ThreadId, m: LockId)
    requires Good(s) && c in s.procs && Wants(s.procs[c], t, m) && HeldAnywhere(s, m)
    ensures CL.St(s.procs[c].lc, m) != CL.FREE
    ensures CL.St(s.procs[c].lc, m) != CL.LOCKED ==> SV.AcquireReply(s.sv, m) != OK
  {
    HeldIsLocked(s, m);
    if CL.St(s.procs[c].lc, m) == CL.FREE || (CL.St(s.procs[c].lc, m) != CL.LOCKED && SV.AcquireReply(s.sv, m) == OK) {
      NobodyLocked(s, c, m);
    }
  }

  predicate AsksFor(a: Step, x: Holder) {
    (a.AcquireNone? || a.AcquireFree? || a.AcquireRetry?) && a.c == x.c && a.t == x.t
  }

  lemma AskKept(s: State, a: Step, x: Holder, m: LockId)
    requires Good(s) && Enabled(s, a) && Waits(s, x, m) && HeldAnywhere(s, m) && AsksFor(a, x)
    ensures Waits(Apply(s, a), x, m)
  {
    AskRefused(s, x.c, x.t, m);
    assert ProcOk(s.procs[x.c], s.files);
    assert PcOf(s.procs[x.c], x.t) == InRetry(m) ==> Seeks(s.procs[x.c], x.t, m);
  }

  lemma DataLeaves(s: State, a: Step, x: Holder, m: LockId)
    requires Enabled(s, a) && Waits(s, x, m) && IsData(a)
    ensures Waits(Apply(s, a), x, m)
  {
  }

  /** Steps of the client's other threads, of its releaser and of other clients leave a waiting thread alone. */
  lemma OthersLeave(s: State, a: Step, x: Holder, m: LockId)
    requires Enabled(s, a) && Waits(s, x, m) && !AsksFor(a, x) && !IsData(a)
    ensures Waits(Apply(s, a), x, m)
  {
  }

  lemma WaitKept(s: State, a: Step, x: Holder, m: LockId)
    requires Good(s) && Enabled(s, a) && Waits(s, x, m) && HeldAnywhere(s, m)
    ensures Waits(Apply(s, a), x, m)
  {
    if AsksFor(a, x) {
      AskKept(s, a, x, m);
    } else if IsData(a) {
      DataLeaves(s, a, x, m);
    } else {
      OthersLeave(s, a, x, m);
    }
  }

  /** What a cycle's thread waits for is held. */
  lemma CycleHeld(s: State, ring: seq<Holder>, i: nat)
    requires Cycle(s, ring) && i < |ring|
    ensures ring[i].c in s.procs && (ring[i].t, ring[i].l) in s.procs[ring[i].c].held && HeldAnywhere(s, ring[i].l)
  {
    assert i < |ring| - 1 ==> Waits(s, ring[i], ring[i + 1].l);
  }

  lemma LinkKept(s: State, a: Step, ring: seq<Holder>, i: nat, j: nat)
    requires Good(s) && Enabled(s, a) && Cycle(s, ring) && i < |ring| && j < |ring| && Waits(s, ring[i], ring[j].l)
    ensures Waits(Apply(s, a), ring[i], ring[j].l)
  {
    CycleHeld(s, ring, j);
    WaitKept(s, a, ring[i], ring[j].l);
  }

  lemma StepKeepsCycle(s: State, a: Step, ring: seq<Holder>)
    requires Good(s) && Enabled(s, a) && Cycle(s, ring)
    ensures Cycle(Apply(s, a), ring)
  {
    forall i | 0 <= i < |ring| - 1 ensures Waits(Apply(s, a), ring[i], ring[i + 1].l) {
      LinkKept(s, a, ring, i, i + 1);
    }
    LinkKept(s, a, ring, |ring| - 1, 0);
  }

  /** Whatever happens, the threads of a cycle hold their locks and wait. */
  lemma {:induction false} CycleIsForEver(s: State, run: seq<Step>, ring: seq<Holder>)
    requires Good(s) && IsRun(s, run) && Cycle(s, ring)
    ensures Cycle(Exec(s, run), ring)
    decreases |run|
  {
    if run != [] {
      StepGood(s, run[0]);
      StepKeepsCycle(s, run[0], ring);
      CycleIsForEver(Apply(s, run[0]), run[1..], ring);
    }
  }
}
