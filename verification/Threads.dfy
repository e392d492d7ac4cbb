/** What each client process keeps about its own threads. */
module Threads {
  import opened LockTypes
  import opened Protocol
  import CL = ClientCache

  /** LOCKED means exactly one thread is between acquire and release. */
  ghost predicate HoldersOk(p: Proc) {
    && (forall t, l :: (t, l) in p.held ==> CL.St(p.lc, l) == CL.LOCKED)
    && (forall t, u, l :: (t, l) in p.held && (u, l) in p.held ==> t == u)
    && (forall l :: CL.St(p.lc, l) == CL.LOCKED ==> HeldBySome(p, l))
  }

  ghost predicate HeldBySome(p: Proc, l: LockId) {
    exists t :: (t, l) in p.held
  }

  predicate Seeks(p: Proc, t: ThreadId, l: LockId) {
    PcOf(p, t) == InRetry(l)
  }

  /** ACQUIRING means exactly one thread sits in the retry loop. */
  ghost predicate SeekersOk(p: Proc) {
    && (forall t, l :: Seeks(p, t, l) ==> CL.St(p.lc, l) == CL.ACQUIRING)
    && (forall t, u, l :: Seeks(p, t, l) && Seeks(p, u, l) ==> t == u)
    && (forall l :: CL.St(p.lc, l) == CL.ACQUIRING ==> SoughtBySome(p, l))
  }

  ghost predicate SoughtBySome(p: Proc, l: LockId) {
    exists t :: Seeks(p, t, l)
  }

  ghost predicate ThreadsOk(p: Proc) {
    HoldersOk(p) && SeekersOk(p)
  }

  /** The lock of one cell moves between states that no thread counts on, or nothing moves. */
  lemma StillOk(p: Proc, p': Proc)
    requires ThreadsOk(p) && p'.held == p.held
    requires forall t, l :: Seeks(p', t, l) <==> Seeks(p, t, l)
    requires forall l :: CL.St(p'.lc, l) == CL.LOCKED <==> CL.St(p.lc, l) == CL.LOCKED
    requires forall l :: CL.St(p'.lc, l) == CL.ACQUIRING <==> CL.St(p.lc, l) == CL.ACQUIRING
    ensures ThreadsOk(p')
  {
    forall l: LockId | CL.St(p'.lc, l) == CL.LOCKED ensures HeldBySome(p', l) {
      assert HeldBySome(p, l);
    }
    forall l: LockId | CL.St(p'.lc, l) == CL.ACQUIRING ensures SoughtBySome(p', l) {
      assert SoughtBySome(p, l);
      var t :| Seeks(p, t, l);
      assert Seeks(p', t, l);
    }
  }

  /** Thread `t` enters its critical section on `l`, from the acquire loop or the retry loop. */
  lemma GrantedOk(p: Proc, p': Proc, t: ThreadId, l: LockId)
    requires ThreadsOk(p) && CL.St(p.lc, l) != CL.LOCKED
    requires Seeks(p, t, l) || (CL.St(p.lc, l) != CL.ACQUIRING && PcOf(p, t) == InAcquire(l))
    requires p'.held == p.held + {(t, l)} && p'.pc == p.pc[t := Outside]
    requires p'.lc.lockMap == p.lc.lockMap[l := CL.LOCKED]
    ensures ThreadsOk(p')
  {
    forall u, m | Seeks(p', u, m) ensures u != t && Seeks(p, u, m) && m != l {
      assert Seeks(p, u, m) && CL.St(p.lc, m) == CL.ACQUIRING;
      assert m == l && CL.St(p.lc, l) == CL.ACQUIRING ==> Seeks(p, t, l);
    }
    forall m: LockId | CL.St(p'.lc, m) == CL.LOCKED ensures HeldBySome(p', m) {
      if m == l {
        assert (t, l) in p'.held;
      } else {
        assert HeldBySome(p, m);
        var u :| (u, m) in p.held;
        assert (u, m) in p'.held;
      }
    }
    forall m: LockId | CL.St(p'.lc, m) == CL.ACQUIRING ensures SoughtBySome(p', m) {
      assert SoughtBySome(p, m);
      var u :| Seeks(p, u, m);
      assert Seeks(p', u, m);
    }
  }

  /** Thread `t` is told to wait for a retry. */
  lemma RefusedOk(p: Proc, p': Proc, t: ThreadId, l: LockId)
    requires ThreadsOk(p) && CL.St(p.lc, l) != CL.LOCKED
    requires Seeks(p, t, l) || (CL.St(p.lc, l) != CL.ACQUIRING && PcOf(p, t) == InAcquire(l))
    requires p'.held == p.held && p'.pc == p.pc[t := InRetry(l)]
    requires p'.lc.lockMap == p.lc.lockMap[l := CL.ACQUIRING]
    ensures ThreadsOk(p')
  {
    forall u, m | Seeks(p', u, m) ensures if u == t then m == l else Seeks(p, u, m) && m != l {
      if u != t {
        assert Seeks(p, u, m) && CL.St(p.lc, m) == CL.ACQUIRING;
        assert m == l && CL.St(p.lc, l) == CL.ACQUIRING ==> Seeks(p, t, l);
      }
    }
    forall m: LockId | CL.St(p'.lc, m) == CL.LOCKED ensures HeldBySome(p', m) {
      assert HeldBySome(p, m);
    }
    forall m: LockId | CL.St(p'.lc, m) == CL.ACQUIRING ensures SoughtBySome(p', m) {
      if m == l {
        assert Seeks(p', t, l);
      } else {
        assert SoughtBySome(p, m);
        var u :| Seeks(p, u, m);
        assert Seeks(p', u, m);
      }
    }
  }

  /** Thread `t` leaves its critical section. */
  lemma ReleasedOk(p: Proc, t: ThreadId, l: LockId)
    requires ThreadsOk(p) && (t, l) in p.held
    ensures ThreadsOk(p.(lc := CL.Released(p.lc, l), held := p.held - {(t, l)}))
  {
    var p' := p.(lc := CL.Released(p.lc, l), held := p.held - {(t, l)});
    forall u, m | Seeks(p', u, m) ensures Seeks(p, u, m) && m != l {
      assert Seeks(p, u, m) && CL.St(p.lc, m) == CL.ACQUIRING;
    }
    forall m: LockId | CL.St(p'.lc, m) == CL.LOCKED ensures HeldBySome(p', m) {
      assert HeldBySome(p, m);
      var u :| (u, m) in p.held;
      assert (u, m) in p'.held;
    }
    forall m: LockId | CL.St(p'.lc, m) == CL.ACQUIRING ensures SoughtBySome(p', m) {
      assert SoughtBySome(p, m);
      var u :| Seeks(p, u, m);
      assert Seeks(p', u, m);
    }
  }
}
