/** A reply buffer that nobody frees: its entry was pruned while the handler was still running. */
module LeakedReply {
  import opened ReplyWindow
  import opened AtMostOnce
  import XidWindow

  /** A handler that returns leaks its reply exactly if the window has passed its request. */
  lemma LeaksIffPassed(s: State, run: seq<Step>, k: Key, sz: nat)
    requires Init(s) && IsRun(s, run) && Enabled(Exec(s, run), Finish(k, sz))
    ensures var t := Exec(s, run);
            var w := ListOf(t.windows, k.nonce);
            k !in t.lost && (k in Finished(t, k, sz).lost <==> w != [] && k.xid < w[0].xid)
  {
    InitInv(s);
    RunInv(s, run);
    var t := Exec(s, run);
    var w := ListOf(t.windows, k.nonce);
    assert WindowOk(w, k.nonce, t.running, t.recorded);
    assert Remembers(w, k.nonce, t.ran);
  }

  // ----- a run in which that happens -----

  ghost predicate Reached(s: State) {
    exists s0, run :: Init(s0) && IsRun(s0, run) && Exec(s0, run) == s
  }

  lemma {:induction false} RunLonger(s: State, run: seq<Step>, step: Step)
    requires IsRun(s, run) && Enabled(Exec(s, run), step)
    ensures IsRun(s, run + [step]) && Exec(s, run + [step]) == Apply(Exec(s, run), step)
    decreases |run|
  {
    if run == [] {
      assert run + [step] == [step] && [step][1..] == [];
    } else {
      RunLonger(Apply(s, run[0]), run[1..], step);
      assert (run + [step])[1..] == run[1..] + [step];
    }
  }

  lemma ReachedNext(s: State, step: Step)
    requires Reached(s) && Enabled(s, step)
    ensures Reached(Apply(s, step))
  {
    var s0, run :| Init(s0) && IsRun(s0, run) && Exec(s0, run) == s;
    RunLonger(s0, run, step);
  }

  /** A window of `k` requests, none of them answered. */
  function Unanswered(k: nat): (w: seq<Entry>)
    ensures |w| == k && forall i :: 0 <= i < k ==> w[i] == Entry(i + 1, false, NULL, 0)
  {
    seq(k, i requires 0 <= i < k => Entry(i + 1, false, NULL, 0))
  }

  lemma {:induction false} InsertedLast(w: seq<Entry>, xid: nat)
    requires forall i :: 0 <= i < |w| ==> w[i].xid < xid
    ensures Inserted(w, xid) == w + [Entry(xid, false, NULL, 0)] && !Has(w, xid)
    decreases |w|
  {
    if w != [] {
      InsertedLast(w[1..], xid);
      assert w == [w[0]] + w[1..];
    }
  }

  lemma NewAtEnd(k: nat)
    ensures Check(Unanswered(k), k + 1) == NEW && Checked(Unanswered(k), k + 1, 0) == Unanswered(k + 1)
  {
    var w := Unanswered(k);
    InsertedLast(w, k + 1);
    assert w[0..] == w;
    assert Unanswered(k + 1) == w + [Entry(k + 1, false, NULL, 0)];
  }

  /** One client has issued `k` calls, and all their handlers are running. */
  ghost predicate Busy(s: State, k: nat) {
    && 0 in s.clients && s.clients[0] == Client(7, k + 1, [0], {})
    && ListOf(s.windows, 7) == Unanswered(k) && !s.stopped
    && (k > 0 ==> Key(7, 1) in s.running)
  }

  lemma NextCall(s: State, k: nat)
    requires Busy(s, k)
    ensures var r, t := Request(7, 0, k + 1, 0), Called(s, 0, 0);
            && r in t.net && t.clients[0] == Client(7, k + 2, [0], {}) && t.windows == s.windows
            && t.running == s.running && !t.stopped && Response(t, r) == Runs
  {
    NewAtEnd(k);
  }

  lemma NextArrives(s: State, k: nat)
    requires 0 in s.clients && s.clients[0] == Client(7, k + 2, [0], {}) && !s.stopped
    requires ListOf(s.windows, 7) == Unanswered(k) && (k > 0 ==> Key(7, 1) in s.running)
    requires Response(s, Request(7, 0, k + 1, 0)) == Runs
    ensures Busy(Dispatched(s, Request(7, 0, k + 1, 0)), k + 1)
  {
    var r := Request(7, 0, k + 1, 0);
    DispatchedParts(s, r);
    NewAtEnd(k);
  }

  lemma DispatchedParts(s: State, r: Request)
    requires r.nonce != 0 && Response(s, r) == Runs
    ensures var t := Dispatched(s, r);
            && t.clients == s.clients && t.stopped == s.stopped
            && ListOf(t.windows, r.nonce) == Checked(ListOf(s.windows, r.nonce), r.xid, r.rep)
            && t.running == s.running + {Key(r.nonce, r.xid)}
  {
  }

  lemma {:induction false} ManyCalls(k: nat) returns (s: State)
    ensures Reached(s) && Busy(s, k)
    decreases k
  {
    if k == 0 {
      s := State(map[0 := Client(7, 1, [0], {})], {}, 5, map[], false, [], {}, map[], {}, [], 1);
      assert IsRun(s, []) && Exec(s, []) == s && Init(s);
    } else {
      s := ManyCalls(k - 1);
      NextCall(s, k - 1);
      ReachedNext(s, Call(0, 0));
      s := Called(s, 0, 0);
      NextArrives(s, k - 1);
      ReachedNext(s, Dispatch(Request(7, 0, k, 0)));
      s := Dispatched(s, Request(7, 0, k, 0));
    }
  }

  lemma DropsOne(w: seq<Entry>, rep: nat)
    requires |w| == SLIDING_WINDOW_SIZE && w[0].xid <= rep
    ensures Dropped(w, rep) == 1
  {
  }

  lemma PruneFirst()
    ensures var w := Unanswered(SLIDING_WINDOW_SIZE);
            var next := Checked(w, SLIDING_WINDOW_SIZE + 1, 1);
            Check(w, SLIDING_WINDOW_SIZE + 1) == NEW && next != [] && next[0].xid == 2
  {
    var w := Unanswered(SLIDING_WINDOW_SIZE);
    NewAtEnd(SLIDING_WINDOW_SIZE);
    DropsOne(w, 1);
    InsertedLast(w[1..], SLIDING_WINDOW_SIZE + 1);
  }

  /**
   * A caller gives up on its first call and goes on with a hundred others. The next request acknowledges the
   * first, whose handler is still running; its reply is then never freed.
   */
  lemma ReplyCanLeak()
    ensures exists s0, run, k, sz :: Init(s0) && IsRun(s0, run) && Enabled(Exec(s0, run), Finish(k, sz))
                                     && k in Finished(Exec(s0, run), k, sz).lost
  {
    var n := SLIDING_WINDOW_SIZE;
    var s := ManyCalls(n);
    ReachedNext(s, Report(0, 1));
    FirstReported();
    var s1 := Reported(s, 0, 1);
    ReachedNext(s1, Call(0, 0));
    var s2 := Called(s1, 0, 0);
    var r := Request(7, 0, n + 1, 1);
    PruneFirst();
    ReachedNext(s2, Dispatch(r));
    var t := Dispatched(s2, r);
    var s0, run :| Init(s0) && IsRun(s0, run) && Exec(s0, run) == t;
    assert Enabled(t, Finish(Key(7, 1), 0));
    LeaksIffPassed(s0, run, Key(7, 1), 0);
  }

  lemma FirstReported()
    ensures XidWindow.Updated([0], 1) == [1]
  {
    assert XidWindow.Inserted([0], 1) == [0] + XidWindow.Inserted([], 1) == [0, 1];
    assert [0, 1][1..] == [1];
    assert XidWindow.Compressed([0, 1], 1) == XidWindow.Compressed([1], 0) == [1];
  }
}
