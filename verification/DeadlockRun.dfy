/** A run that stops for ever: each of two threads holds a lock and waits for the other's. */
module DeadlockRun {
  import opened LockTypes
  import opened Protocol
  import opened Refinement
  import opened Progress
  import opened Deadlock
  import opened Worlds
  import SV = ServerCache
  import CL = ClientCache

  const USES_1 := NEW_VIEW.(st1 := CL.LOCKED, held := {(0, 1)})
  const USES_2 := NEW_VIEW.(st2 := CL.LOCKED, held := {(0, 2)})
  const NEEDS_2 := USES_1.(st2 := CL.ACQUIRING, at0 := InRetry(2))
  const NEEDS_1 := USES_2.(st1 := CL.ACQUIRING, at0 := InRetry(1))

  lemma OneEach() returns (s: State)
    ensures Sees(s, World(USES_1, USES_2, Lk(SV.LOCKED, A, [], false), Lk(SV.LOCKED, B, [], false), [], false, []))
  {
    Distinct();
    s := Begin();
    s := Acquires(s, NEW_WORLD, A, 0, 1);
    s := Acquires(s, NEW_WORLD.(a := USES_1, k1 := Lk(SV.LOCKED, A, [], false)), B, 0, 2);
  }

  lemma AskCrosswise() returns (s: State)
    ensures Sees(s, World(NEEDS_2, NEEDS_1, Lk(SV.LOCKED, A, [B], true), Lk(SV.LOCKED, B, [A], true),
                          [Msg(2, B), Msg(1, A)], false, []))
  {
    Distinct();
    s := OneEach();
    var w := World(USES_1, USES_2, Lk(SV.LOCKED, A, [], false), Lk(SV.LOCKED, B, [], false), [], false, []);
    s := Asks(s, w, A, 0, 2);
    w := w.(a := NEEDS_2, k2 := Lk(SV.LOCKED, B, [A], true), revokes := [Msg(2, B)]);
    s := Asks(s, w, B, 0, 1);
    assert [Msg(2, B)] + [Msg(1, A)] == [Msg(2, B), Msg(1, A)];
  }

  const STOPPED := World(NEEDS_2.(list := [1]), NEEDS_1.(list := [2]),
                         Lk(SV.LOCKED, A, [B], true), Lk(SV.LOCKED, B, [A], true), [], false, [])

  lemma BothRevoked() returns (s: State)
    ensures Sees(s, STOPPED)
  {
    Distinct();
    s := AskCrosswise();
    var w := World(NEEDS_2, NEEDS_1, Lk(SV.LOCKED, A, [B], true), Lk(SV.LOCKED, B, [A], true),
                   [Msg(2, B), Msg(1, A)], false, []);
    s := Revokes(s, w);
    w := w.(b := NEEDS_1.(list := [2]), revokes := [Msg(1, A)]);
    s := Revokes(s, w);
  }

  lemma StoppedClient(s: State, c: ClientId)
    requires Sees(s, STOPPED) && c in s.procs
    ensures var p := s.procs[c];
            && AOrB(c) && p.busy == Quiet && !p.lc.releaserOn
            && (forall t, l :: (t, l) in p.held ==> t == 0)
            && PcOf(p, 0).InRetry? && (forall t :: t != 0 ==> PcOf(p, t) == Outside)
            && (forall l :: !CL.RetryFlag(p.lc, l) && CL.St(p.lc, l) != CL.RELEASING)
  {
    SeenParts(s.procs, STOPPED, A);
    SeenParts(s.procs, STOPPED, B);
  }

  /** In such a state a client can do nothing but start more threads. */
  lemma OnlyEnter(s: State, a: Step)
    requires Sees(s, STOPPED) && Enabled(s, a)
    ensures a.Enter?
  {
    match a
    case DeliverRevoke =>
    case PopRevoke =>
    case DeliverRetry =>
    case PopRetry =>
    case _ => StoppedClient(s, a.c);
  }

  lemma StoppedState(s: State)
    requires Sees(s, STOPPED)
    ensures A in s.procs && B in s.procs && (forall c, l :: !Stranded(s, c, l))
    ensures HolderWaits(s, A, 1) && HolderWaits(s, B, 2)
  {
    SeenParts(s.procs, STOPPED, A);
    SeenParts(s.procs, STOPPED, B);
    assert (0, 1) in s.procs[A].held && Blocked(s.procs[A], 0);
    assert (0, 2) in s.procs[B].held && Blocked(s.procs[B], 0);
    forall c, l | c in s.procs ensures !Stranded(s, c, l) {
      StoppedClient(s, c);
    }
  }

  lemma StoppedWaiters(s: State)
    requires Sees(s, STOPPED)
    ensures !WaiterMoves(s, B, 1) && !WaiterMoves(s, A, 2)
  {
    SeenParts(s.procs, STOPPED, A);
    SeenParts(s.procs, STOPPED, B);
    StoppedState(s);
    NoStuckWaiter(s, B, 1);
    NoStuckWaiter(s, A, 2);
  }

  const RING := [Holder(A, 0, 1), Holder(B, 0, 2)]

  lemma StoppedCycle(s: State)
    requires Sees(s, STOPPED)
    ensures Cycle(s, RING)
  {
    SeenParts(s.procs, STOPPED, A);
    SeenParts(s.procs, STOPPED, B);
    assert Waits(s, RING[0], 2) && Waits(s, RING[1], 1);
  }

  /**
   * Nothing is stranded, and still neither client can go on: no step is enabled but to start more threads, and
   * whatever these do, the two threads keep their locks and wait.
   */
  lemma HoldersCanDeadlock()
    ensures exists s :: Reachable(s) && A in s.procs && B in s.procs
                        && (forall c, l :: !Stranded(s, c, l))
                        && HolderWaits(s, A, 1) && HolderWaits(s, B, 2)
                        && !WaiterMoves(s, B, 1) && !WaiterMoves(s, A, 2)
                        && (forall a :: Enabled(s, a) ==> a.Enter?)
                        && forall run :: IsRun(s, run) ==> Cycle(Exec(s, run), RING)
  {
    var s := BothRevoked();
    StoppedState(s);
    StoppedWaiters(s);
    forall a | Enabled(s, a) ensures a.Enter? {
      OnlyEnter(s, a);
    }
    StoppedCycle(s);
    ReachableGood(s);
    forall run | IsRun(s, run) ensures Cycle(Exec(s, run), RING) {
      CycleIsForEver(s, run, RING);
    }
  }
}
