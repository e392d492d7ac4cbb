/**
 * A run that strands a lock: client A is asked to give back two locks before its releaser
 * runs, and one pass gives back only the first.
 */
module StrandedRun {
  import opened LockTypes
  import opened Protocol
  import opened Refinement
  import opened Progress
  import opened Worlds
  import SV = ServerCache
  import CL = ClientCache

  // ----- one releaser pass of client A over lock 1 -----

  lemma DoPick(s: State, w: World) returns (s': State)
    requires Sees(s, w) && w.a.busy == Quiet && w.a.on && w.a.st1 == CL.RELEASING && w.a.list == [1, 2]
    ensures Sees(s', w.(a := w.a.(st1 := CL.NONE, busy := ToFlush(1))))
  {
    SeenParts(s.procs, w, A);
    StepReaches(s, ReleaserPick(A));
    assert CL.FirstReleasing(s.procs[A].lc, s.procs[A].lc.revokeList) == Some(1);
    s' := PickS(s, A);
    ClientChanged(s.procs, w, A, s'.procs[A], w.a.(st1 := CL.NONE, busy := ToFlush(1)));
  }

  lemma DoFlush(s: State, w: World) returns (s': State)
    requires Sees(s, w) && w.a.busy == ToFlush(1)
    ensures Sees(s', w.(a := w.a.(busy := ToRelease(1))))
  {
    SeenParts(s.procs, w, A);
    StepReaches(s, ReleaserFlush(A));
    s' := FlushS(s, A);
    ClientChanged(s.procs, w, A, s'.procs[A], w.a.(busy := ToRelease(1)));
  }

  lemma DoTest(s: State, w: World) returns (s': State)
    requires Sees(s, w) && w.a.busy == ToRelease(1) && w.k1.status == SV.LOCKED && w.k1.waiting != []
    ensures Sees(s', w.(a := w.a.(busy := Tested(1, SV.HasWaiters))))
  {
    SeenParts(s.procs, w, A);
    StepReaches(s, ReleaserTest(A));
    s' := TestS(s, A);
    ClientChanged(s.procs, w, A, s'.procs[A], w.a.(busy := Tested(1, SV.HasWaiters)));
  }

  lemma DoCommit(s: State, w: World) returns (s': State)
    requires Sees(s, w) && w.a.busy == Tested(1, SV.HasWaiters) && w.a.list == [1, 2] && w.k1.waiting == [B]
    ensures Sees(s', w.(a := w.a.(busy := Quiet, list := [2], on := false), k1 := OPEN_LOCK,
                        retries := w.retries + [Msg(1, B)]))
  {
    SeenParts(s.procs, w, A);
    StepReaches(s, ReleaserCommit(A));
    s' := CommitS(s, A);
    ClientChanged(s.procs, w, A, s'.procs[A], w.a.(busy := Quiet, list := [2], on := false));
    LockChanged(s.sv, w, 1, SV.Look(s'.sv, 1));
  }

  // ----- the run -----

  const HOLDER := NEW_VIEW.(st1 := CL.LOCKED, st2 := CL.LOCKED, held := {(0, 1), (0, 2)})
  const SEEKER := NEW_VIEW.(st1 := CL.ACQUIRING, st2 := CL.ACQUIRING, at0 := InRetry(1), at1 := InRetry(2))
  const WAITED := Lk(SV.LOCKED, A, [B], true)

  lemma HoldBoth() returns (s: State)
    ensures Sees(s, NEW_WORLD.(a := HOLDER, k1 := Lk(SV.LOCKED, A, [], false), k2 := Lk(SV.LOCKED, A, [], false)))
  {
    s := Begin();
    s := Acquires(s, NEW_WORLD, A, 0, 1);
    var w := NEW_WORLD.(a := NEW_VIEW.(st1 := CL.LOCKED, held := {(0, 1)}), k1 := Lk(SV.LOCKED, A, [], false));
    s := Acquires(s, w, A, 0, 2);
    assert {(0, 1)} + {(0, 2)} == {(0, 1), (0, 2)};
  }

  lemma AskBoth() returns (s: State)
    ensures Sees(s, World(HOLDER, SEEKER, WAITED, WAITED, [Msg(1, A), Msg(2, A)], false, []))
  {
    Distinct();
    s := HoldBoth();
    var w := NEW_WORLD.(a := HOLDER, k1 := Lk(SV.LOCKED, A, [], false), k2 := Lk(SV.LOCKED, A, [], false));
    s := Asks(s, w, B, 0, 1);
    w := w.(b := NEW_VIEW.(st1 := CL.ACQUIRING, at0 := InRetry(1)), k1 := WAITED, revokes := [Msg(1, A)]);
    s := Asks(s, w, B, 1, 2);
    assert [Msg(1, A)] + [Msg(2, A)] == [Msg(1, A), Msg(2, A)];
  }

  lemma RevokeBoth() returns (s: State)
    ensures Sees(s, World(HOLDER.(list := [1, 2]), SEEKER, WAITED, WAITED, [], false, []))
  {
    s := AskBoth();
    var w := World(HOLDER, SEEKER, WAITED, WAITED, [Msg(1, A), Msg(2, A)], false, []);
    s := Revokes(s, w);
    w := w.(a := HOLDER.(list := [1]), revokes := [Msg(2, A)]);
    s := Revokes(s, w);
    assert [1] + [2] == [1, 2];
  }

  lemma DropBoth() returns (s: State)
    ensures Sees(s, World(NEW_VIEW.(st1 := CL.RELEASING, st2 := CL.RELEASING, list := [1, 2], on := true),
                          SEEKER, WAITED, WAITED, [], false, []))
  {
    s := RevokeBoth();
    var w := World(HOLDER.(list := [1, 2]), SEEKER, WAITED, WAITED, [], false, []);
    s := DoDrop(s, w, A, 0, 1);
    assert {(0, 1), (0, 2)} - {(0, 1)} == {(0, 2)};
    w := w.(a := NEW_VIEW.(st1 := CL.RELEASING, st2 := CL.LOCKED, list := [1, 2], on := true, held := {(0, 2)}));
    s := DoDrop(s, w, A, 0, 2);
    assert {(0, 2)} - {(0, 2)} == {};
  }

  /** After the pass: lock 2 is still RELEASING, and the releaser is off. */
  const PASSED := World(NEW_VIEW.(st2 := CL.RELEASING, list := [2]), SEEKER, OPEN_LOCK, WAITED, [], false, [Msg(1, B)])

  lemma OnePass() returns (s: State)
    ensures Sees(s, PASSED)
  {
    s := DropBoth();
    var v := NEW_VIEW.(st1 := CL.RELEASING, st2 := CL.RELEASING, list := [1, 2], on := true);
    s := Pass(s, World(v, SEEKER, WAITED, WAITED, [], false, []));
    assert [] + [Msg(1, B)] == [Msg(1, B)];
  }

  /** The four steps of the pass. */
  lemma Pass(s: State, w: World) returns (s': State)
    requires Sees(s, w) && w.a.busy == Quiet && w.a.on && w.a.st1 == CL.RELEASING
    requires w.a.list == [1, 2] && w.k1 == WAITED
    ensures Sees(s', w.(a := w.a.(st1 := CL.NONE, list := [2], on := false), k1 := OPEN_LOCK,
                        retries := w.retries + [Msg(1, B)]))
  {
    var v := w.a.(st1 := CL.NONE);
    s' := DoPick(s, w);
    s' := DoFlush(s', w.(a := v.(busy := ToFlush(1))));
    s' := DoTest(s', w.(a := v.(busy := ToRelease(1))));
    s' := DoCommit(s', w.(a := v.(busy := Tested(1, SV.HasWaiters))));
  }

  /**
   * There is a reachable state in which client B waits for lock 2 and nothing can move its
   * holder A: the lock is RELEASING and A's releaser thread has switched itself off.
   */
  lemma WaiterCanBeStuck()
    ensures exists s :: Reachable(s) && A in s.procs && B in s.procs
                        && CL.St(s.procs[B].lc, 2) == CL.ACQUIRING && SV.Look(s.sv, 2).waiting == [B]
                        && Stranded(s, A, 2) && !WaiterMoves(s, B, 2)
  {
    var s := OnePass();
    SeenParts(s.procs, PASSED, A);
    NoStuckWaiter(s, B, 2);
  }
}
